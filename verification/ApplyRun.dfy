/** The apply itself, step by step on the wire, against the reference of `ApplyGate`. */
module ApplyRun {
  import opened Common
  import opened MovieStore
  import opened ToolCall
  import opened Independence
  import opened ConcurrentApply
  import opened Proposals
  import opened ApplyGate
  import opened MoveSafety

  const BACKOFF_BASE: real := 0.2

  /** Every call of every item may fail in any way but one: a bug in the client itself. */
  ghost predicate NoBug(g: Setting) {
    forall pos, call {:trigger g.env(pos, call)} :: Orderly(g.env(pos, call))
  }

  function Listed(done: Results, n: nat): (results: seq<Outcome>)
    requires forall i | 0 <= i < n :: i in done
    ensures |results| == n
  {
    seq(n, i requires 0 <= i < n => done[i])
  }

  class Applier {
    const wire: Wire
    const g: Setting
    var collection: Option<Id>
    var created: Option<Id>
    var outcomes: map<nat, Outcome>
    var tasks: seq<Task>
    var positions: seq<nat>
    var targets: map<nat, Id>
    var excluded: seq<string>

    constructor (wire: Wire, g: Setting)
      ensures this.wire == wire && this.g == g
    {
      this.wire, this.g := wire, g;
      collection, created, outcomes := None, None, map[];
      tasks, positions, targets, excluded := [], [], map[], [];
    }

    function State(): Scan
      reads this, wire
    {
      Scan(wire.store, collection, created, outcomes, tasks, positions, targets, excluded)
    }

    method Execute(q: Request, pos: nat, call: nat) returns (o: Outcome)
      requires wire.svc == g.svc
      modifies wire
      ensures (wire.store, o) == Exec(g, old(wire.store), q, pos, call)
      ensures wire.history == old(wire.history) + ExecTrace(g, old(wire.store), q, pos, call)
    {
      var out := wire.InvokeTool(q, g.env(pos, call), g.max, BACKOFF_BASE);
      o := ToOutcome(out);
    }

    method ScanOne(p: Proposal, pos: nat)
      requires wire.svc == g.svc && pos < |p.items|
      modifies this, wire
      ensures State() == ScanItem(g, p, old(State()), pos)
      ensures wire.history == old(wire.history) + ItemTrace(g, p, old(State()), pos)
    {
      hide Exec, ExecTrace, ToMoviePayload, Serve, Invoke;
      var item := p.items[pos];
      if item.tab in g.excludedTabs {
        excluded := excluded + [item.id];
        return;
      }
      match item.op {
        case OpCreate =>
          var o := Execute(Create(TargetName(p), item.idem), pos, 0);
          if o.Applied? && o.data.Some? {
            collection := o.data;
            created := o.data;
          }
          outcomes := outcomes[pos := o];
        case OpAdd =>
          var movie, target := PayloadOf(item), AddTarget(item, collection);
          if movie.None? || target.None? {
            outcomes := outcomes[pos := SkippedMissing];
          } else {
            targets := targets[pos := target.value];
            tasks := tasks + [Task(Add(target.value, movie.value, item.idem), g.env(pos, 0))];
            positions := positions + [pos];
          }
        case OpUpdate =>
          if item.coll == "" || item.movie == "" || item.payload.None? {
            outcomes := outcomes[pos := SkippedMissing];
          } else {
            tasks := tasks + [Task(Update(item.coll, item.movie, item.payload.value), g.env(pos, 0))];
            positions := positions + [pos];
          }
        case OpRemove =>
          if item.coll == "" || item.movie == "" {
            outcomes := outcomes[pos := SkippedMissing];
          } else {
            var o := Execute(Remove(item.coll, item.movie), pos, 0);
            outcomes := outcomes[pos := o];
          }
        case OpMove =>
          if !Complete(item) {
            outcomes := outcomes[pos := SkippedMissing];
          } else {
            var added := Execute(MoveAdd(item), pos, 0);
            if !Landed(added) {
              outcomes := outcomes[pos := added];
            } else {
              var removed := Execute(MoveRemove(item), pos, 1);
              outcomes := outcomes[pos := MoveOutcome(removed)];
            }
          }
      }
    }

    /** The items in proposal order. */
    method Sweep(p: Proposal)
      requires wire.svc == g.svc
      modifies this, wire
      ensures State() == ScanTo(g, p, old(wire.store), |p.items|)
      ensures wire.history == old(wire.history) + TraceTo(g, p, old(wire.store), |p.items|)
    {
      hide ScanItem, ItemTrace;
      ghost var s0, h0 := wire.store, wire.history;
      collection := if p.target.Some? then p.target.value.id else None;
      created, outcomes, tasks, positions, targets, excluded := None, map[], [], [], map[], [];
      for pos := 0 to |p.items|
        invariant State() == ScanTo(g, p, s0, pos)
        invariant wire.history == h0 + TraceTo(g, p, s0, pos)
      {
        ScanOne(p, pos);
      }
    }

    /** The outcomes of the pass, each under its item's position. */
    method StoreOutcomes(done: Results)
      requires forall i | 0 <= i < |positions| :: i in done
      modifies this`outcomes
      ensures outcomes == Merge(old(outcomes), positions, Listed(done, |positions|))
    {
      ghost var results := Listed(done, |positions|);
      for i := 0 to |positions|
        invariant outcomes == Merge(old(outcomes), positions[..i], results[..i])
      {
        outcomes := outcomes[positions[i] := done[i]];
        assert positions[..i + 1][..i] == positions[..i] && results[..i + 1][..i] == results[..i];
      }
      assert positions[..|positions|] == positions && results[..|positions|] == results;
    }

    /** The deferred writes, concurrently. */
    method RunDeferred(limit: nat, reporting: bool)
        returns (reports: seq<Report>, ghost path: seq<Store>, ghost results: seq<Outcome>)
      requires wire.svc == g.svc && limit >= 1 && |tasks| == |positions|
      requires forall i | 0 <= i < |tasks| :: Orderly(tasks[i].script)
      modifies this`outcomes, wire
      ensures TaskPath(g.svc, tasks, old(wire.store), path)
      ensures wire.history == old(wire.history) + path && wire.store == Last(old(wire.store), path)
      ensures |results| == |positions| && outcomes == Merge(old(outcomes), positions, results)
      ensures Independent(g.svc, old(wire.store), tasks) ==>
                (wire.store, results) == InOrder(g.svc, old(wire.store), tasks, g.max)
      ensures if reporting then |reports| == ReportsFor(|tasks|) else reports == []
    {
      hide Orderly, TaskPath, InOrder, Independent, TrueReports, Logged, Merge, Last, ReportsFor, Serve, Invoke;
      var pass := new ConcurrentPass(wire, tasks, limit, g.max, reporting);
      pass.Run();
      reports, path := pass.reports, pass.path;
      var done := pass.outcomes;
      assert forall i | 0 <= i < |tasks| :: i in Indices(|tasks|);
      StoreOutcomes(done);
      results := Listed(done, |positions|);
      if Independent(g.svc, old(wire.store), tasks) {
        assert results == InOrder(g.svc, old(wire.store), tasks, g.max).1;
      }
    }

    /** The report, item by item in proposal order. */
    method Record(p: Proposal) returns (result: ApplyResult)
      requires forall k :: k in outcomes <==> 0 <= k < |p.items| && !Dropped(g, p.items[k])
      ensures Recorded(g, p, outcomes, targets, result, |p.items|)
      ensures result.excluded == excluded && result.created == created
    {
      hide Recorded;
      result := ApplyResult([], [], [], [], excluded, created, None, None);
      RecordedStart(g, p, outcomes, targets, result);
      for pos := 0 to |p.items|
        invariant Recorded(g, p, outcomes, targets, result, pos)
        invariant result.excluded == excluded && result.created == created
      {
        var item := p.items[pos];
        var target := if pos in targets then Some(targets[pos]) else None;
        RecordedStep(g, p, outcomes, targets, result, pos + 1);
        if !(item.tab in g.excludedTabs) && pos in outcomes {
          result := NoteAdded(result, item, outcomes[pos], target);
          result := RecordOutcome(result, item, outcomes[pos]);
        }
      }
    }

    /** The whole of an approved proposal. */
    method Apply(p: Proposal, limit: nat, reporting: bool)
        returns (result: ApplyResult, reports: seq<Report>, ghost log: map<nat, Outcome>)
      requires wire.svc == g.svc && limit >= 1 && NoBug(g)
      modifies this, wire
      // every item has one outcome, unless its tab was excluded
      ensures Extends(g, p, old(wire.store), log)
      // whatever the schedule, independent writes end as they would one by one
      ensures var st := ScanTo(g, p, old(wire.store), |p.items|);
              Independent(g.svc, st.store, st.tasks) ==>
                (wire.store, log) == Sequentially(g, p, old(wire.store))
      // the report
      ensures Recorded(g, p, log, ScanTo(g, p, old(wire.store), |p.items|).targets, result, |p.items|)
      ensures Truthful(p, log, result, |p.items|)
      ensures result.excluded == IdsMarked(p, Marks(g, p, log), MarkExcluded, |p.items|)
      // no move loses its movie, wherever the apply is cut off
      ensures old(wire.history) <= wire.history
      ensures Passes(g, p, old(wire.store), wire.store, wire.history[|old(wire.history)|..])
      ensures MovesSafe(g, p, old(wire.store), wire.store, wire.history[|old(wire.history)|..], log)
    {
      hide Recorded, Truthful, Extends, Passes, MovesSafe, Merge, TaskPath, InOrder, Independent, ScanTo, TraceTo, NoBug,
          Orderly, IdsMarked, Marks, Last, Serve;
      ghost var s0, h0 := wire.store, wire.history;
      Sweep(p);
      ScanShape(g, p, s0, |p.items|);
      ScriptsAreOrderly(g, p, s0);
      ghost var path, results;
      reports, path, results := RunDeferred(limit, reporting);
      log := outcomes;
      LogExtends(g, p, s0, results);
      MarksOfLog(g, p, log);
      ExcludedInOrder(g, p, s0, Marks(g, p, log), |p.items|);
      result := Record(p);
      LogIsKept(g, p, s0, log);
      RecordIsTruthful(g, p, log, targets, result);
      TraceFound(g, p, s0, wire.store, wire.history[|h0|..], path);
      ApplyIsSafe(g, p, s0, wire.store, wire.history[|h0|..], log);
    }
  }

  lemma TraceFound(g: Setting, p: Proposal, s: Store, t: Store, trace: seq<Store>, path: seq<Store>)
    requires TracedBy(g, p, s, t, trace, path)
    ensures Passes(g, p, s, t, trace)
  {
  }

  lemma ScriptsAreOrderly(g: Setting, p: Proposal, s: Store)
    requires NoBug(g)
    ensures forall task | task in ScanTo(g, p, s, |p.items|).tasks :: Orderly(task.script)
  {
    ScanShape(g, p, s, |p.items|);
    var st := ScanTo(g, p, s, |p.items|);
    forall i | 0 <= i < |st.tasks|
      ensures Orderly(st.tasks[i].script)
    {
      assert st.tasks[i].script == g.env(st.positions[i], 0);
    }
  }

  lemma LogExtends(g: Setting, p: Proposal, s: Store, results: seq<Outcome>)
    requires |results| == |ScanTo(g, p, s, |p.items|).positions|
    ensures var st := ScanTo(g, p, s, |p.items|);
            Extends(g, p, s, Merge(st.outcomes, st.positions, results))
  {
    ScanShape(g, p, s, |p.items|);
    var st := ScanTo(g, p, s, |p.items|);
    MergeKeys(st.outcomes, st.positions, results);
    forall k | k in st.positions
      ensures 0 <= k < |p.items|
    {
      var i :| 0 <= i < |st.positions| && st.positions[i] == k;
    }
  }

  lemma LogIsKept(g: Setting, p: Proposal, s: Store, log: map<nat, Outcome>)
    requires Extends(g, p, s, log)
    ensures forall k | 0 <= k < |p.items| && k in log :: !Dropped(g, p.items[k])
  {
  }

  lemma MarksOfLog(g: Setting, p: Proposal, log: map<nat, Outcome>)
    requires forall k :: k in log <==> 0 <= k < |p.items| && !Dropped(g, p.items[k])
    ensures forall k | 0 <= k < |p.items| :: Marks(g, p, log)[k] == MarkExcluded <==> Dropped(g, p.items[k])
  {
  }
}
