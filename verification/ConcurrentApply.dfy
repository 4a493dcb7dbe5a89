/**
 The bounded-concurrency pass: adds and updates run as tasks that take turns in any order, at most
 `limit` of them past the semaphore at a time, each with its own retries; completions are counted,
 and every 25th (and the last) is reported.
 */
module ConcurrentApply {
  import opened Common
  import opened MovieStore
  import opened ToolCall
  import opened Independence
  import opened Text

  const APPLY_CONCURRENCY := 8
  const PROGRESS_EVERY := 25
  const THROTTLED_MARKER := "assistant is busy"

  /** The configured limit: unset or unreadable means the default, anything below one means one. */
  function ApplyConcurrency(setting: Option<int>): (n: nat)
    ensures n >= 1
    ensures setting.None? ==> n == 8
    ensures setting.Some? && setting.value >= 1 ==> n == setting.value
  {
    match setting
    case None => APPLY_CONCURRENCY
    case Some(n) => if n < 1 then 1 else n
  }

  predicate Busy(o: Outcome) {
    o.Failed? && Contains(Lower(o.error), THROTTLED_MARKER)
  }

  datatype Report = Report(processed: nat, total: nat, waiting: bool)

  /** Completions counted by report number `r`. */
  function ReportEnd(r: nat, total: nat): nat {
    if PROGRESS_EVERY * (r + 1) <= total then PROGRESS_EVERY * (r + 1) else total
  }

  function ReportsFor(total: nat): nat {
    (total + PROGRESS_EVERY - 1) / PROGRESS_EVERY
  }

  /** A failure with the limiter's own reason, in any case and whatever is around it, counts as throttled. */
  lemma LimiterIsBusy(before: string, words: string, after: string)
    requires Lower(words) == "assistant is busy"
    ensures Busy(Failed(before + words + after))
    ensures !Busy(SkippedDuplicate) && !Busy(SkippedMissing) && !Busy(Crashed) && forall data :: !Busy(Applied(data))
  {
    var error := before + words + after;
    assert Lower(error)[|before|..|before| + |words|] == Lower(words);
    assert At(Lower(error), |before|, "assistant is busy");
  }

  /** Progress is reported after every twenty-five items and after the last one. */
  lemma EveryTwentyFive(r: nat, total: nat)
    ensures ReportEnd(r, total) == if 25 * (r + 1) <= total then 25 * (r + 1) else total
    ensures 25 * ReportsFor(total) >= total && (total > 0 ==> 25 * (ReportsFor(total) - 1) < total)
    ensures ReportsFor(0) == 0 && (r + 1 == ReportsFor(total) ==> ReportEnd(r, total) == total)
  {
  }

  /** Some completion since the report before number `r`, up to completion `upTo`, was throttled. */
  predicate ThrottledSince(flags: seq<bool>, r: nat, upTo: nat)
    requires upTo <= |flags|
  {
    exists j | PROGRESS_EVERY * r <= j < upTo :: flags[j]
  }

  /** The reports say what the completions so far were. */
  predicate TrueReports(reports: seq<Report>, flags: seq<bool>, total: nat)
    requires |flags| <= total
  {
    forall r | 0 <= r < |reports| ::
      && ReportEnd(r, total) <= |flags|
      && reports[r] == Report(ReportEnd(r, total), total, ThrottledSince(flags, r, ReportEnd(r, total)))
  }

  function Sum(xs: seq<nat>): nat {
    if xs == [] then 0 else xs[0] + Sum(xs[1..])
  }

  lemma {:induction false} SumUpdate(xs: seq<nat>, i: nat, x: nat)
    requires i < |xs|
    ensures Sum(xs[i := x]) == Sum(xs) - xs[i] + x
  {
    if i > 0 {
      assert xs[i := x][1..] == xs[1..][i - 1 := x];
      SumUpdate(xs[1..], i - 1, x);
    } else {
      assert xs[i := x][1..] == xs[1..];
    }
  }

  /** The task numbers below `n`. */
  function Indices(n: nat): (r: set<nat>)
    ensures forall i :: i in r <==> 0 <= i < n
    ensures |r| == n
  {
    if n == 0 then {} else Indices(n - 1) + {n - 1}
  }

  /** `t` follows `s` when at most one task's request was executed in between. */
  ghost predicate TaskMove(svc: Service, tasks: seq<Task>, s: Store, t: Store) {
    t == s || exists i | 0 <= i < |tasks| :: t == Serve(svc, s, tasks[i].req).0
  }

  /** `path` lists consecutive stores of a pass over `tasks` that starts in `s`. */
  ghost predicate TaskPath(svc: Service, tasks: seq<Task>, s: Store, path: seq<Store>) {
    forall k | 0 <= k < |path| :: TaskMove(svc, tasks, Before(s, path, k), path[k])
  }

  /** The store entry `k` of the path was made from. */
  function Before(s: Store, path: seq<Store>, k: nat): Store
    requires k < |path|
  {
    if k == 0 then s else path[k - 1]
  }

  function Last(s: Store, path: seq<Store>): Store {
    if path == [] then s else path[|path| - 1]
  }

  ghost predicate Orderly(script: Script) {
    forall k {:trigger script(k)} :: script(k).Faulted? ==> !script(k).fault.Fatal?
  }

  // ----- the bookkeeping of a pass, as relations between its variables -----

  type Flights = map<nat, nat>
  type Results = map<nat, Outcome>

  /** Every task is waiting, in flight or done, and no more than `limit` are in flight. */
  predicate Scheduled(n: nat, limit: nat, max: nat, waiting: set<nat>, inFlight: Flights, done: Results,
                      processed: nat)
  {
    && (forall i :: i in waiting ==> i < n && i !in inFlight && i !in done)
    && (forall i :: i in inFlight ==> i < n && i !in done && inFlight[i] <= max)
    && (forall i :: i in done ==> i < n)
    && (forall i | 0 <= i < n :: i in waiting || i in inFlight || i in done)
    && |inFlight| <= limit
    && processed + |waiting| + |inFlight| == n
  }

  /** How many steps each task can still take: what makes every schedule end. */
  predicate Bounded(n: nat, max: nat, waiting: set<nat>, inFlight: Flights, left: seq<nat>) {
    && |left| == n
    && forall i | 0 <= i < n ::
         left[i] == if i in waiting then max + 2
                    else if i in inFlight && inFlight[i] <= max then max + 1 - inFlight[i]
                    else 0
  }

  predicate Planned(n: nat, limit: nat, max: nat, waiting: set<nat>, inFlight: Flights, done: Results,
                    processed: nat, left: seq<nat>)
  {
    && Scheduled(n, limit, max, waiting, inFlight, done, processed)
    && Bounded(n, max, waiting, inFlight, left)
  }

  lemma PlanStart(n: nat, limit: nat, max: nat, waiting: set<nat>, inFlight: Flights, done: Results,
                  processed: nat, left: seq<nat>, i: nat)
    requires Planned(n, limit, max, waiting, inFlight, done, processed, left)
    requires i in waiting && |inFlight| < limit
    ensures i < n && |left| == n && i !in done
    ensures Planned(n, limit, max, waiting - {i}, inFlight[i := 0], done, processed, left[i := max + 1])
    ensures Sum(left[i := max + 1]) < Sum(left)
  {
    hide Sum;
    SumUpdate(left, i, max + 1);
  }

  lemma PlanRetry(n: nat, limit: nat, max: nat, waiting: set<nat>, inFlight: Flights, done: Results,
                  processed: nat, left: seq<nat>, i: nat)
    requires Planned(n, limit, max, waiting, inFlight, done, processed, left)
    requires i in inFlight
    ensures i < n && |left| == n && i !in done && i !in waiting && inFlight[i] <= max && left[i] >= 1
    ensures inFlight[i] < max ==>
      && Planned(n, limit, max, waiting, inFlight[i := inFlight[i] + 1], done, processed, left[i := left[i] - 1])
      && Sum(left[i := left[i] - 1]) < Sum(left)
  {
    hide Sum;
    SumUpdate(left, i, left[i] - 1);
  }

  lemma PlanFinish(n: nat, limit: nat, max: nat, waiting: set<nat>, inFlight: Flights, done: Results,
                   processed: nat, left: seq<nat>, i: nat, o: Outcome)
    requires Planned(n, limit, max, waiting, inFlight, done, processed, left)
    requires i in inFlight
    ensures i < n && |left| == n
    ensures processed < n && i !in done
    ensures Planned(n, limit, max, waiting, inFlight - {i}, done[i := o], processed + 1, left[i := 0])
    ensures Sum(left[i := 0]) < Sum(left)
  {
    hide Sum;
    SumUpdate(left, i, 0);
    assert |inFlight - {i}| == |inFlight| - 1 by {
      assert inFlight.Keys == (inFlight - {i}).Keys + {i};
    }
  }

  /** The reports made after `|flags|` completions, and what the throttle marks still to be reported say. */
  predicate Counted(n: nat, flags: seq<bool>, marked: bool, reports: seq<Report>) {
    && |flags| <= n
    && TrueReports(reports, flags, n)
    && (marked <==> ThrottledSince(flags, |reports|, |flags|))
    && (|flags| < n ==> PROGRESS_EVERY * |reports| <= |flags| < PROGRESS_EVERY * |reports| + PROGRESS_EVERY)
    && (|flags| == n ==> |reports| == ReportsFor(n))
  }

  /** Where task `i` stands, told by its private store. */
  ghost predicate OnTrack(svc: Service, s0: Store, tasks: seq<Task>, max: nat, waiting: set<nat>,
                          inFlight: Flights, done: Results, mine: Store, i: nat)
    requires i < |tasks|
  {
    var solo := Alone(svc, s0, tasks, i, max);
    && (i in waiting ==> mine == s0)
    && (i in inFlight ==>
          && inFlight[i] <= max
          && Invoke(svc, mine, tasks[i].req, tasks[i].script, inFlight[i], max) == solo)
    && (i in done ==> mine == solo.store && done[i] == Executed(solo))
  }

  ghost predicate Tracked(svc: Service, s0: Store, tasks: seq<Task>, max: nat, waiting: set<nat>,
                          inFlight: Flights, done: Results, s: Store, mine: seq<Store>)
  {
    && Progress(svc, s0, tasks, s, mine)
    && |mine| == |tasks|
    && forall i | 0 <= i < |tasks| :: OnTrack(svc, s0, tasks, max, waiting, inFlight, done, mine[i], i)
  }

  /** The claim carried by a pass: if its tasks are independent, they are all on track. */
  ghost predicate Faithful(svc: Service, s0: Store, tasks: seq<Task>, max: nat, waiting: set<nat>,
                           inFlight: Flights, done: Results, s: Store, mine: seq<Store>)
  {
    |mine| == |tasks| &&
    (Independent(svc, s0, tasks) ==> Tracked(svc, s0, tasks, max, waiting, inFlight, done, s, mine))
  }

  lemma TrackStart(svc: Service, s0: Store, tasks: seq<Task>, max: nat, waiting: set<nat>,
                   inFlight: Flights, done: Results, s: Store, mine: seq<Store>, i: nat)
    requires i < |tasks| && i in waiting && i !in done
    requires Faithful(svc, s0, tasks, max, waiting, inFlight, done, s, mine)
    ensures Faithful(svc, s0, tasks, max, waiting - {i}, inFlight[i := 0], done, s, mine)
  {
    hide Invoke, Progress, Independent;
    if !Independent(svc, s0, tasks) { return; }
    forall j | 0 <= j < |tasks|
      ensures OnTrack(svc, s0, tasks, max, waiting - {i}, inFlight[i := 0], done, mine[j], j)
    {
      assert OnTrack(svc, s0, tasks, max, waiting, inFlight, done, mine[j], j);
    }
  }

  /** One attempt of task `i`: what it reports is what it would report alone, and it either stays in
      flight one attempt further or is done with the outcome it has alone. */
  lemma TrackAttempt(svc: Service, s0: Store, tasks: seq<Task>, max: nat, waiting: set<nat>,
                     inFlight: Flights, done: Results, s: Store, mine: seq<Store>, i: nat)
    requires i < |tasks| && i in inFlight && i !in waiting && i !in done && inFlight[i] <= max
    requires Faithful(svc, s0, tasks, max, waiting, inFlight, done, s, mine)
    ensures |mine| == |tasks|
    ensures var q, a := tasks[i].req, tasks[i].script(inFlight[i]);
            var (t, seen) := Once(svc, s, q, a);
            var mine' := mine[i := Once(svc, mine[i], q, a).0];
            if Transient(seen) && inFlight[i] < max then
              Faithful(svc, s0, tasks, max, waiting, inFlight[i := inFlight[i] + 1], done, t, mine')
            else
              Faithful(svc, s0, tasks, max, waiting, inFlight - {i},
                       done[i := ToOutcome(Classify(seen))], t, mine')
  {
    hide Invoke, Serve, Once, Classify, ToOutcome, Independent;
    if Independent(svc, s0, tasks) {
      TrackIndependent(svc, s0, tasks, max, waiting, inFlight, done, s, mine, i);
    }
  }

  lemma TrackIndependent(svc: Service, s0: Store, tasks: seq<Task>, max: nat, waiting: set<nat>,
                         inFlight: Flights, done: Results, s: Store, mine: seq<Store>, i: nat)
    requires i < |tasks| && i in inFlight && i !in waiting && i !in done && inFlight[i] <= max
    requires Tracked(svc, s0, tasks, max, waiting, inFlight, done, s, mine)
    ensures var q, a := tasks[i].req, tasks[i].script(inFlight[i]);
            var (t, seen) := Once(svc, s, q, a);
            var mine' := mine[i := Once(svc, mine[i], q, a).0];
            if Transient(seen) && inFlight[i] < max then
              Tracked(svc, s0, tasks, max, waiting, inFlight[i := inFlight[i] + 1], done, t, mine')
            else
              Tracked(svc, s0, tasks, max, waiting, inFlight - {i},
                      done[i := ToOutcome(Classify(seen))], t, mine')
  {
    var q, a := tasks[i].req, tasks[i].script(inFlight[i]);
    OnceProgress(svc, s0, tasks, s, mine, i, a);
    assert OnTrack(svc, s0, tasks, max, waiting, inFlight, done, mine[i], i);
    hide Invoke, Progress, Serve, Once, Classify, ToOutcome;
    LoopStep(svc, mine[i], q, tasks[i].script, inFlight[i], max);
    var (t, seen) := Once(svc, s, q, a);
    var mine' := mine[i := Once(svc, mine[i], q, a).0];
    var retry := Transient(seen) && inFlight[i] < max;
    var inFlight' := if retry then inFlight[i := inFlight[i] + 1] else inFlight - {i};
    var done' := if retry then done else done[i := ToOutcome(Classify(seen))];
    forall j | 0 <= j < |tasks|
      ensures OnTrack(svc, s0, tasks, max, waiting, inFlight', done', mine'[j], j)
    {
      assert OnTrack(svc, s0, tasks, max, waiting, inFlight, done, mine[j], j);
    }
  }

  /** A completion, with the report it may trigger. */
  lemma CountFinish(n: nat, flags: seq<bool>, marked: bool, reports: seq<Report>, busy: bool)
    requires Counted(n, flags, marked, reports) && |flags| < n
    ensures var flags' := flags + [busy];
            var p := |flags'|;
            if p % PROGRESS_EVERY == 0 || p == n then
              Counted(n, flags', false, reports + [Report(p, n, marked || busy)])
            else
              Counted(n, flags', marked || busy, reports)
  {
    var flags' := flags + [busy];
    var p, r := |flags'|, |reports|;
    forall k | 0 <= k < r
      ensures ThrottledSince(flags', k, ReportEnd(k, n)) == ThrottledSince(flags, k, ReportEnd(k, n))
    {
      assert ReportEnd(k, n) <= |flags|;
      assert forall j | 0 <= j < |flags| :: flags'[j] == flags[j];
    }
    assert ThrottledSince(flags', r, p) == (ThrottledSince(flags, r, |flags|) || busy) by {
      if busy { assert flags'[p - 1]; }
      if ThrottledSince(flags, r, |flags|) {
        var j :| PROGRESS_EVERY * r <= j < |flags| && flags[j];
        assert flags'[j];
      }
    }
    if p % PROGRESS_EVERY == 0 || p == n {
      assert ReportEnd(r, n) == p;
    }
  }

  /** `order` lists the finished tasks in completion order, `flags` which of them were throttled. */
  predicate Logged(order: seq<nat>, flags: seq<bool>, done: Results) {
    && |order| == |flags|
    && (forall j | 0 <= j < |order| :: order[j] in done && flags[j] == Busy(done[order[j]]))
    && (forall j, k | 0 <= j < k < |order| :: order[j] != order[k])
  }

  lemma LogFinish(order: seq<nat>, flags: seq<bool>, done: Results, i: nat, o: Outcome)
    requires Logged(order, flags, done) && i !in done
    ensures Logged(order + [i], flags + [Busy(o)], done[i := o])
  {
    hide Busy;
  }

  /** The stores passed through so far, and the one reached. */
  ghost predicate Walked(svc: Service, tasks: seq<Task>, s: Store, path: seq<Store>, t: Store) {
    TaskPath(svc, tasks, s, path) && t == Last(s, path)
  }

  lemma LastIs(s: Store, path: seq<Store>, t: Store)
    ensures Last(s, path + [t]) == t
    ensures Before(s, path + [t], |path|) == Last(s, path)
  {
  }

  lemma PathStep(svc: Service, tasks: seq<Task>, s: Store, path: seq<Store>, i: nat, a: Attempt)
    requires i < |tasks|
    requires Walked(svc, tasks, s, path, Last(s, path))
    ensures var t := Once(svc, Last(s, path), tasks[i].req, a).0;
            Walked(svc, tasks, s, path + [t], t)
  {
    hide Serve, Once, TaskMove, Last;
    OnceIsTaskMove(svc, tasks, Last(s, path), i, a);
    var t := Once(svc, Last(s, path), tasks[i].req, a).0;
    LastIs(s, path, t);
    var longer := path + [t];
    forall k | 0 <= k < |longer|
      ensures TaskMove(svc, tasks, Before(s, longer, k), longer[k])
    {
      if k < |path| {
        assert TaskMove(svc, tasks, Before(s, path, k), path[k]);
        assert Before(s, path, k) == Before(s, longer, k);
      }
    }
  }

  lemma OnceIsTaskMove(svc: Service, tasks: seq<Task>, s: Store, i: nat, a: Attempt)
    requires i < |tasks|
    ensures TaskMove(svc, tasks, s, Once(svc, s, tasks[i].req, a).0)
  {
    hide Serve;
  }

  lemma AllDone(svc: Service, s0: Store, tasks: seq<Task>, limit: nat, max: nat, waiting: set<nat>,
                inFlight: Flights, done: Results, processed: nat, s: Store, mine: seq<Store>)
    requires exists left :: Planned(|tasks|, limit, max, waiting, inFlight, done, processed, left)
    requires waiting == {} && inFlight == map[]
    requires Faithful(svc, s0, tasks, max, waiting, inFlight, done, s, mine)
    ensures processed == |tasks|
    ensures done.Keys == Indices(|tasks|)
    ensures Independent(svc, s0, tasks) ==>
              var (t, results) := InOrder(svc, s0, tasks, max);
              s == t && forall i | 0 <= i < |tasks| :: done[i] == results[i]
  {
    hide Serve, Invoke, Progress, Independent, InOrder;
    if Independent(svc, s0, tasks) {
      InOrderUpTo(svc, s0, tasks, |tasks|, max);
      assert tasks[..|tasks|] == tasks;
      forall i | 0 <= i < |tasks|
        ensures done[i] == Executed(Alone(svc, s0, tasks, i, max))
        ensures mine[i] == AloneUpTo(svc, s0, tasks, |tasks|, max)[i]
      {
        assert OnTrack(svc, s0, tasks, max, waiting, inFlight, done, mine[i], i);
      }
      assert mine == AloneUpTo(svc, s0, tasks, |tasks|, max);
      ProgressDetermines(svc, s0, tasks, s, InOrder(svc, s0, tasks, max).0, mine);
    }
  }

  lemma AllReported(n: nat, flags: seq<bool>, marked: bool, reports: seq<Report>)
    requires Counted(n, flags, marked, reports) && |flags| == n
    ensures |reports| == ReportsFor(n) && TrueReports(reports, flags, n)
  {
  }

  class ConcurrentPass {
    const wire: Wire
    const tasks: seq<Task>
    const limit: nat
    const maxRetries: nat
    const reporting: bool

    var outcomes: Results
    var processed: nat
    var throttled: set<nat>
    var reports: seq<Report>
    var waiting: set<nat>            // not yet past the semaphore
    var inFlight: Flights            // past it: the attempt each task is at

    ghost const start: Store
    ghost const past: seq<Store>
    ghost var path: seq<Store>       // the store after each attempt of this pass
    ghost var order: seq<nat>        // the finished tasks, in completion order
    ghost var flags: seq<bool>       // which of them were throttled
    ghost var mine: seq<Store>       // what each task would have made of the store alone
    ghost var left: seq<nat>         // a bound on the steps each task has left

    constructor (wire: Wire, tasks: seq<Task>, limit: nat, maxRetries: nat, reporting: bool)
      requires limit >= 1
      requires forall i | 0 <= i < |tasks| :: Orderly(tasks[i].script)
      ensures Valid()
      ensures this.wire == wire && this.tasks == tasks && this.limit == limit
      ensures this.maxRetries == maxRetries && this.reporting == reporting
      ensures start == wire.store && past == wire.history
    {
      var s := wire.store;
      this.wire, this.tasks, this.limit := wire, tasks, limit;
      this.maxRetries, this.reporting := maxRetries, reporting;
      outcomes, processed, throttled, reports := map[], 0, {}, [];
      waiting := Indices(|tasks|);
      inFlight := map[];
      start, past, path, order, flags := s, wire.history, [], [], [];
      mine := seq(|tasks|, _ => s);
      left := seq(|tasks|, _ => maxRetries + 2);
      new;
      if Independent(wire.svc, start, tasks) {
        ProgressStarts(wire.svc, start, tasks);
      }
    }

    ghost predicate Valid()
      reads this, wire
    {
      && limit >= 1
      && Planned(|tasks|, limit, maxRetries, waiting, inFlight, outcomes, processed, left)
      && processed == |flags| == |order|
      && Logged(order, flags, outcomes)
      && (if reporting then Counted(|tasks|, flags, throttled != {}, reports) else reports == [])
      && wire.history == past + path
      && Walked(wire.svc, tasks, start, path, wire.store)
      && Faithful(wire.svc, start, tasks, maxRetries, waiting, inFlight, outcomes, wire.store, mine)
    }

    /** A task acquires the semaphore. */
    method Start(i: nat)
      requires Valid() && i in waiting && |inFlight| < limit
      modifies this
      ensures Valid()
      ensures Sum(left) < old(Sum(left))
    {
      hide Planned, Logged, Faithful, Counted, Walked, Serve, Once, Invoke, Sum;
      PlanStart(|tasks|, limit, maxRetries, waiting, inFlight, outcomes, processed, left, i);
      TrackStart(wire.svc, start, tasks, maxRetries, waiting, inFlight, outcomes, wire.store, mine, i);
      waiting := waiting - {i};
      inFlight := inFlight[i := 0];
      left := left[i := maxRetries + 1];
    }

    /** A task in flight makes its next attempt; if the loop of the tool call ends there, its outcome
        is stored, the semaphore is released and the completion is counted and perhaps reported. */
    method Advance(i: nat)
      requires Valid() && i in inFlight
      modifies this, wire
      ensures Valid()
      ensures Sum(left) < old(Sum(left))
    {
      hide Planned, Logged, Faithful, Counted, Walked, Serve, Once, Invoke, Classify, ToOutcome, Busy, Sum, Transient;
      PlanRetry(|tasks|, limit, maxRetries, waiting, inFlight, outcomes, processed, left, i);
      TrackAttempt(wire.svc, start, tasks, maxRetries, waiting, inFlight, outcomes, wire.store, mine, i);
      mine := mine[i := Once(wire.svc, mine[i], tasks[i].req, tasks[i].script(inFlight[i])).0];
      var seen := Call(i, tasks[i].script(inFlight[i]));
      if Transient(seen) && inFlight[i] < maxRetries {
        left := left[i := left[i] - 1];
        inFlight := inFlight[i := inFlight[i] + 1];
      } else {
        var outcome := ToOutcome(Classify(seen));
        PlanFinish(|tasks|, limit, maxRetries, waiting, inFlight, outcomes, processed, left, i, outcome);
        left := left[i := 0];
        inFlight := inFlight - {i};
        Finish(i, outcome);
      }
    }

    method Call(i: nat, a: Attempt) returns (seen: Seen)
      requires i < |tasks|
      requires wire.history == past + path && Walked(wire.svc, tasks, start, path, wire.store)
      modifies wire, this`path
      ensures (wire.store, seen) == Once(wire.svc, old(wire.store), tasks[i].req, a)
      ensures wire.history == past + path && Walked(wire.svc, tasks, start, path, wire.store)
    {
      hide TaskPath, Last, Serve, Once;
      PathStep(wire.svc, tasks, start, path, i, a);
      seen := wire.Send(tasks[i].req, a);
      path := path + [wire.store];
    }

    method Finish(i: nat, outcome: Outcome)
      requires i < |tasks|
      requires processed == |flags| < |tasks|
      requires i !in outcomes && Logged(order, flags, outcomes) && |order| == |flags|
      requires if reporting then Counted(|tasks|, flags, throttled != {}, reports) else reports == []
      modifies this`outcomes, this`processed, this`throttled, this`reports, this`order, this`flags
      ensures outcomes == old(outcomes)[i := outcome]
      ensures processed == |flags| == |order| == old(processed) + 1
      ensures Logged(order, flags, outcomes)
      ensures if reporting then Counted(|tasks|, flags, throttled != {}, reports) else reports == []
    {
      ghost var marked := throttled != {};
      LogFinish(order, flags, outcomes, i, outcome);
      order := order + [i];
      outcomes := outcomes[i := outcome];
      processed := processed + 1;
      flags := flags + [Busy(outcome)];
      if Busy(outcome) {
        throttled := throttled + {i};
      }
      if reporting {
        CountFinish(|tasks|, old(flags), marked, reports, Busy(outcome));
        hide Counted, Busy;
        if processed % PROGRESS_EVERY == 0 || processed == |tasks| {
          reports := reports + [Report(processed, |tasks|, throttled != {})];
          throttled := {};
        }
      }
    }

    /** The whole pass, under every schedule the semaphore allows.  It always ends, every task is done
        exactly once, the reports are the ones the completion order calls for, and if the tasks are
        independent the schedule cannot be told from running them one by one. */
    method Run()
      requires Valid()
      modifies this, wire
      ensures wire.history == past + path && TaskPath(wire.svc, tasks, start, path)
      ensures wire.store == Last(start, path)
      ensures outcomes.Keys == Indices(|tasks|)
      ensures Independent(wire.svc, start, tasks) ==>
                var (s, results) := InOrder(wire.svc, start, tasks, maxRetries);
                wire.store == s && forall i | 0 <= i < |tasks| :: outcomes[i] == results[i]
      ensures |order| == |tasks| && Logged(order, flags, outcomes)
      ensures reporting ==> |reports| == ReportsFor(|tasks|) && TrueReports(reports, flags, |tasks|)
      ensures !reporting ==> reports == []
    {
      hide Planned, Logged, Faithful, Independent, Counted, TaskPath, Last, Serve, Invoke, InOrder, Sum, Orderly,
          TrueReports, ReportsFor;
      while waiting != {} || inFlight != map[]
        invariant Valid()
        decreases Sum(left)
      {
        if waiting == {} || |inFlight| >= limit {
          assert inFlight != map[];
        }
        if {
          case waiting != {} && |inFlight| < limit =>
            var i :| i in waiting;
            Start(i);
          case inFlight != map[] =>
            var i :| i in inFlight;
            Advance(i);
        }
      }
      AllDone(wire.svc, start, tasks, limit, maxRetries, waiting, inFlight, outcomes, processed, wire.store, mine);
      if reporting {
        AllReported(|tasks|, flags, throttled != {}, reports);
      }
    }
  }
}
