/**
 Executing an approved proposal: create, remove and move items one after another in proposal order,
 adds and updates afterwards in the concurrent pass, and every outcome recorded in proposal order.
 */
module ApplyGate {
  import opened Common
  import opened MovieStore
  import opened ToolCall
  import opened Independence
  import opened Proposals

  /** How the calls of each item fare: the script of call 0 or 1 of the item at a position. */
  type Env = (nat, nat) -> Script

  /** Everything an apply is run with. */
  datatype Setting = Setting(svc: Service, env: Env, max: nat, excludedTabs: set<string>)

  datatype Scan = Scan(
    store: Store, collection: Option<Id>, created: Option<Id>,
    outcomes: map<nat, Outcome>, tasks: seq<Task>, positions: seq<nat>, targets: map<nat, Id>,
    excluded: seq<string>)

  function StartScan(p: Proposal, s: Store): Scan {
    Scan(s, if p.target.Some? then p.target.value.id else None, None, map[], [], [], map[], [])
  }

  /** One tool call for the item at `pos`, as the injected executor makes and classifies it. */
  function Exec(g: Setting, s: Store, q: Request, pos: nat, call: nat): (Store, Outcome) {
    var r := Invoke(g.svc, s, q, g.env(pos, call), 0, g.max);
    (r.store, Executed(r))
  }

  function ExecTrace(g: Setting, s: Store, q: Request, pos: nat, call: nat): seq<Store> {
    InvokeTrace(g.svc, s, q, g.env(pos, call), 0, g.max)
  }

  function PayloadOf(item: Item): Option<Attrs> {
    if item.candidate.Some? then Some(ToMoviePayload(item.candidate.value, item.answers)) else item.payload
  }

  function AddTarget(item: Item, collection: Option<Id>): Option<Id> {
    if item.coll != "" then Some(item.coll) else collection
  }

  function TargetName(p: Proposal): string {
    if p.target.Some? then p.target.value.name else ""
  }

  function MoveAdd(item: Item): Request
    requires item.payload.Some?
  {
    Add(item.dest, item.payload.value, item.idem + ":add")
  }

  function MoveRemove(item: Item): Request {
    Remove(item.coll, item.movie)
  }

  predicate Complete(item: Item) {
    item.coll != "" && item.movie != "" && item.dest != "" && item.payload.Some?
  }

  predicate Landed(o: Outcome) {
    o.Applied? || o.SkippedDuplicate?
  }

  function MoveOutcome(removed: Outcome): Outcome {
    if removed.Applied? || removed.SkippedMissing? then Applied(None) else removed
  }

  predicate Dropped(g: Setting, item: Item) {
    item.tab in g.excludedTabs
  }

  function Deferred(st: Scan, pos: nat, q: Request, script: Script): Scan {
    st.(tasks := st.tasks + [Task(q, script)], positions := st.positions + [pos])
  }

  function Decided(st: Scan, pos: nat, o: Outcome): Scan {
    st.(outcomes := st.outcomes[pos := o])
  }

  /** What the scan does with the item at `pos`. */
  function ScanItem(g: Setting, p: Proposal, st: Scan, pos: nat): Scan
    requires pos < |p.items|
  {
    var item := p.items[pos];
    if Dropped(g, item) then
      st.(excluded := st.excluded + [item.id])
    else match item.op
      case OpCreate =>
        var (s, o) := Exec(g, st.store, Create(TargetName(p), item.idem), pos, 0);
        var st' := Decided(st.(store := s), pos, o);
        if o.Applied? && o.data.Some? then st'.(collection := o.data, created := o.data) else st'
      case OpAdd =>
        var movie, target := PayloadOf(item), AddTarget(item, st.collection);
        if movie.None? || target.None? then Decided(st, pos, SkippedMissing)
        else Deferred(st.(targets := st.targets[pos := target.value]), pos,
                      Add(target.value, movie.value, item.idem), g.env(pos, 0))
      case OpUpdate =>
        if item.coll == "" || item.movie == "" || item.payload.None? then Decided(st, pos, SkippedMissing)
        else Deferred(st, pos, Update(item.coll, item.movie, item.payload.value), g.env(pos, 0))
      case OpRemove =>
        if item.coll == "" || item.movie == "" then Decided(st, pos, SkippedMissing)
        else
          var (s, o) := Exec(g, st.store, Remove(item.coll, item.movie), pos, 0);
          Decided(st.(store := s), pos, o)
      case OpMove =>
        if !Complete(item) then Decided(st, pos, SkippedMissing)
        else
          var (s, added) := Exec(g, st.store, MoveAdd(item), pos, 0);
          if !Landed(added) then Decided(st.(store := s), pos, added)
          else
            var (t, removed) := Exec(g, s, MoveRemove(item), pos, 1);
            Decided(st.(store := t), pos, MoveOutcome(removed))
  }

  /** The stores the scan passes through while it handles the item at `pos`. */
  function ItemTrace(g: Setting, p: Proposal, st: Scan, pos: nat): seq<Store>
    requires pos < |p.items|
  {
    var item := p.items[pos];
    if Dropped(g, item) then []
    else match item.op
      case OpCreate => ExecTrace(g, st.store, Create(TargetName(p), item.idem), pos, 0)
      case OpAdd => []
      case OpUpdate => []
      case OpRemove =>
        if item.coll == "" || item.movie == "" then []
        else ExecTrace(g, st.store, Remove(item.coll, item.movie), pos, 0)
      case OpMove =>
        if !Complete(item) then []
        else
          var (s, added) := Exec(g, st.store, MoveAdd(item), pos, 0);
          ExecTrace(g, st.store, MoveAdd(item), pos, 0)
          + if Landed(added) then ExecTrace(g, s, MoveRemove(item), pos, 1) else []
  }

  /** The scan of the first `n` items. */
  function ScanTo(g: Setting, p: Proposal, s: Store, n: nat): Scan
    requires n <= |p.items|
  {
    if n == 0 then StartScan(p, s) else ScanItem(g, p, ScanTo(g, p, s, n - 1), n - 1)
  }

  function TraceTo(g: Setting, p: Proposal, s: Store, n: nat): seq<Store>
    requires n <= |p.items|
  {
    if n == 0 then [] else TraceTo(g, p, s, n - 1) + ItemTrace(g, p, ScanTo(g, p, s, n - 1), n - 1)
  }

  /** `results[i]` stored under `positions[i]`. */
  function Merge(outcomes: map<nat, Outcome>, positions: seq<nat>, results: seq<Outcome>): map<nat, Outcome>
    requires |positions| == |results|
  {
    if positions == [] then outcomes
    else
      var n := |positions| - 1;
      Merge(outcomes, positions[..n], results[..n])[positions[n] := results[n]]
  }

  /** The reference: the scan, then the deferred writes one by one in proposal order. */
  function Sequentially(g: Setting, p: Proposal, s: Store): (Store, map<nat, Outcome>) {
    var st := ScanTo(g, p, s, |p.items|);
    var (t, results) := InOrder(g.svc, st.store, st.tasks, g.max);
    ScanShape(g, p, s, |p.items|);
    (t, Merge(st.outcomes, st.positions, results))
  }

  /** The deferred request is the item's own. */
  predicate TaskOf(item: Item, q: Request) {
    || (q.Add? && item.op.OpAdd? && q.idem == item.idem && PayloadOf(item) == Some(q.doc)
        && (item.coll != "" ==> q.coll == item.coll))
    || (q.Update? && item.op.OpUpdate? && q.coll == item.coll && q.movie == item.movie && item.payload == Some(q.doc))
  }

  /** Where the scan has put each item it has seen. */
  ghost predicate Sorted(g: Setting, p: Proposal, st: Scan, n: nat)
    requires n <= |p.items|
  {
    && |st.tasks| == |st.positions|
    && (forall i | 0 <= i < |st.positions| :: st.positions[i] < n && st.positions[i] !in st.outcomes)
    && (forall i, j | 0 <= i < j < |st.positions| :: st.positions[i] < st.positions[j])
    && (forall k :: k in st.outcomes ==> k < n)
    && (forall k | 0 <= k < n :: !Dropped(g, p.items[k]) <==> (k in st.outcomes || k in st.positions))
    && (forall i | 0 <= i < |st.tasks| ::
          && Deferrable(st.tasks[i].req)
          && st.tasks[i].script == g.env(st.positions[i], 0)
          && TaskOf(p.items[st.positions[i]], st.tasks[i].req))
  }

  ghost predicate LeftAlone(st: Scan, st': Scan) {
    st'.outcomes == st.outcomes && st'.tasks == st.tasks && st'.positions == st.positions
  }

  ghost predicate DecidedAt(st: Scan, st': Scan, pos: nat) {
    pos in st'.outcomes && st'.outcomes == st.outcomes[pos := st'.outcomes[pos]]
    && st'.tasks == st.tasks && st'.positions == st.positions
  }

  ghost predicate DeferredAt(g: Setting, item: Item, st: Scan, st': Scan, pos: nat) {
    && st'.outcomes == st.outcomes
    && st'.positions == st.positions + [pos]
    && |st'.tasks| == |st.tasks| + 1 && st'.tasks[..|st.tasks|] == st.tasks
    && var task := st'.tasks[|st.tasks|];
       Deferrable(task.req) && task.script == g.env(pos, 0) && TaskOf(item, task.req)
  }

  lemma ScanItemShape(g: Setting, p: Proposal, st: Scan, pos: nat)
    requires pos < |p.items|
    ensures var st' := ScanItem(g, p, st, pos);
            if Dropped(g, p.items[pos]) then LeftAlone(st, st')
            else DecidedAt(st, st', pos) || DeferredAt(g, p.items[pos], st, st', pos)
  {
    hide Exec, ToMoviePayload;
  }

  lemma SortedStep(g: Setting, p: Proposal, st: Scan, st': Scan, n: nat)
    requires n < |p.items| && Sorted(g, p, st, n)
    requires if Dropped(g, p.items[n]) then LeftAlone(st, st')
             else DecidedAt(st, st', n) || DeferredAt(g, p.items[n], st, st', n)
    ensures Sorted(g, p, st', n + 1)
  {
    hide Dropped;
    forall k | 0 <= k < n + 1
      ensures !Dropped(g, p.items[k]) <==> (k in st'.outcomes || k in st'.positions)
    {
      assert k in st'.positions ==> k in st.positions || k == n;
      if k < n {
        assert !Dropped(g, p.items[k]) <==> (k in st.outcomes || k in st.positions);
        assert k in st.positions ==> k in st'.positions;
      } else if DeferredAt(g, p.items[n], st, st', n) {
        assert st'.positions[|st.positions|] == n;
      }
    }
  }

  lemma {:induction false} ScanShape(g: Setting, p: Proposal, s: Store, n: nat)
    requires n <= |p.items|
    ensures Sorted(g, p, ScanTo(g, p, s, n), n)
  {
    if n == 0 {
      hide Exec;
    }
    if n > 0 {
      hide ScanItem, Sorted, Dropped, LeftAlone, DecidedAt, DeferredAt;
      ScanShape(g, p, s, n - 1);
      ScanItemShape(g, p, ScanTo(g, p, s, n - 1), n - 1);
      SortedStep(g, p, ScanTo(g, p, s, n - 1), ScanTo(g, p, s, n), n - 1);
    }
  }

  /** What an earlier state of the scan holds about the first `m` items, a later one holds too. */
  ghost predicate Grows(a: Scan, b: Scan, m: nat) {
    && |a.tasks| <= |b.tasks| && b.tasks[..|a.tasks|] == a.tasks
    && |a.positions| <= |b.positions| && b.positions[..|a.positions|] == a.positions
    && (forall k | 0 <= k < m :: k in a.outcomes <==> k in b.outcomes)
    && (forall k | 0 <= k < m :: k in a.outcomes ==> b.outcomes[k] == a.outcomes[k])
    && (forall k | 0 <= k < m :: k in a.targets <==> k in b.targets)
    && (forall k | 0 <= k < m :: k in a.targets ==> b.targets[k] == a.targets[k])
  }

  lemma GrowStep(g: Setting, p: Proposal, a: Scan, b: Scan, m: nat, pos: nat)
    requires m <= pos < |p.items| && Grows(a, b, m)
    ensures Grows(a, ScanItem(g, p, b, pos), m)
  {
    ScanItemShape(g, p, b, pos);
    TargetsStep(g, p, b, pos);
    hide ScanItem, Deferrable, TaskOf, Dropped;
  }

  lemma TargetsStep(g: Setting, p: Proposal, st: Scan, pos: nat)
    requires pos < |p.items|
    ensures var st' := ScanItem(g, p, st, pos);
            forall k | 0 <= k && k != pos :: (k in st'.targets <==> k in st.targets)
                                             && (k in st.targets ==> st'.targets[k] == st.targets[k])
  {
    hide Exec, ToMoviePayload;
  }

  lemma GrowsItself(a: Scan, m: nat)
    ensures Grows(a, a, m)
  {
  }

  lemma {:induction false} ScanGrows(g: Setting, p: Proposal, s: Store, m: nat, n: nat)
    requires m <= n <= |p.items|
    ensures Grows(ScanTo(g, p, s, m), ScanTo(g, p, s, n), m)
    decreases n
  {
    hide ScanItem, StartScan, Grows;
    if m == n {
      GrowsItself(ScanTo(g, p, s, m), m);
    } else {
      ScanGrows(g, p, s, m, n - 1);
      GrowStep(g, p, ScanTo(g, p, s, m), ScanTo(g, p, s, n - 1), m, n - 1);
    }
  }

  /** The collection the item at `j` created, as far as reported. */
  function CreatedAt(g: Setting, p: Proposal, outcomes: map<nat, Outcome>, j: nat): Option<Id>
    requires j < |p.items|
  {
    if p.items[j].op.OpCreate? && !Dropped(g, p.items[j]) && j in outcomes && outcomes[j].Applied? then outcomes[j].data
    else None
  }

  ghost predicate NoneCreated(g: Setting, p: Proposal, outcomes: map<nat, Outcome>, m: nat, n: nat)
    requires n <= |p.items|
  {
    forall j | m <= j < n :: CreatedAt(g, p, outcomes, j) == None
  }

  lemma CreateStep(g: Setting, p: Proposal, st: Scan, n: nat)
    requires n < |p.items| && forall k :: k in st.outcomes ==> k < n
    ensures var st' := ScanItem(g, p, st, n);
            var created := CreatedAt(g, p, st'.outcomes, n);
            && st'.collection == (if created.Some? then created else st.collection)
            && st'.created == (if created.Some? then created else st.created)
            && (forall j | 0 <= j < n :: CreatedAt(g, p, st'.outcomes, j) == CreatedAt(g, p, st.outcomes, j))
  {
    hide Exec, ToMoviePayload;
  }

  /** The collection created last by the first `n` items. */
  function LastCreated(g: Setting, p: Proposal, outcomes: map<nat, Outcome>, n: nat): (r: Option<Id>)
    requires n <= |p.items|
    ensures r.None? ==> NoneCreated(g, p, outcomes, 0, n)
    ensures r.Some? ==> exists j | 0 <= j < n ::
              CreatedAt(g, p, outcomes, j) == r && NoneCreated(g, p, outcomes, j + 1, n)
  {
    if n == 0 then None
    else if CreatedAt(g, p, outcomes, n - 1).Some? then CreatedAt(g, p, outcomes, n - 1)
    else LastCreated(g, p, outcomes, n - 1)
  }

  lemma {:induction false} SameLastCreated(g: Setting, p: Proposal, a: map<nat, Outcome>, b: map<nat, Outcome>, n: nat)
    requires n <= |p.items| && forall j | 0 <= j < n :: CreatedAt(g, p, a, j) == CreatedAt(g, p, b, j)
    ensures LastCreated(g, p, a, n) == LastCreated(g, p, b, n)
  {
    if n > 0 {
      hide CreatedAt;
      SameLastCreated(g, p, a, b, n - 1);
    }
  }

  lemma OutcomesBefore(g: Setting, p: Proposal, st: Scan, n: nat)
    requires n <= |p.items| && Sorted(g, p, st, n)
    ensures forall k :: k in st.outcomes ==> k < n
  {
  }

  /** Where an add without a collection of its own goes: to the collection created last, and as long as none
      was created to the proposal's own. */
  lemma {:induction false} CollectionOfScan(g: Setting, p: Proposal, s: Store, n: nat)
    requires n <= |p.items|
    ensures var st := ScanTo(g, p, s, n);
            var last := LastCreated(g, p, st.outcomes, n);
            && st.created == last
            && st.collection == (if last.Some? then last else if p.target.Some? then p.target.value.id else None)
  {
    if n > 0 {
      hide ScanItem, CreatedAt, NoneCreated, StartScan;
      var st := ScanTo(g, p, s, n - 1);
      CollectionOfScan(g, p, s, n - 1);
      ScanShape(g, p, s, n - 1);
      OutcomesBefore(g, p, st, n - 1);
      hide Sorted;
      CreateStep(g, p, st, n - 1);
      SameLastCreated(g, p, st.outcomes, ScanTo(g, p, s, n).outcomes, n - 1);
    }
  }

  // ----- the record -----

  datatype Failure = Failure(title: string, reason: string)

  datatype ApplyResult = ApplyResult(
    applied: seq<string>, skipped: seq<string>, failed: seq<string>, failures: seq<Failure>,
    excluded: seq<string>, created: Option<Id>, addedMovie: Option<Id>, addedCollection: Option<Id>)

  datatype Mark = MarkApplied | MarkSkipped | MarkFailed | MarkExcluded

  function MarkOf(g: Setting, item: Item, o: Option<Outcome>): Mark {
    if Dropped(g, item) || o.None? then MarkExcluded
    else match o.value
      case Applied(_) => MarkApplied
      case SkippedDuplicate => MarkSkipped
      case SkippedMissing => MarkSkipped
      case Failed(_) => MarkFailed
      case Crashed => MarkFailed
  }

  function Lookup(log: map<nat, Outcome>, pos: nat): Option<Outcome> {
    if pos in log then Some(log[pos]) else None
  }

  function Marks(g: Setting, p: Proposal, log: map<nat, Outcome>): (marks: seq<Mark>)
    ensures |marks| == |p.items|
  {
    seq(|p.items|, i requires 0 <= i < |p.items| => MarkOf(g, p.items[i], Lookup(log, i)))
  }

  /** The positions below `n` that carry `mark`, ascending. */
  function PositionsOf(marks: seq<Mark>, mark: Mark, n: nat): (r: seq<nat>)
    requires n <= |marks|
    ensures forall k :: k in r <==> 0 <= k < n && marks[k] == mark
    ensures forall i | 0 <= i < |r| :: r[i] < n
    ensures forall i, j | 0 <= i < j < |r| :: r[i] < r[j]
  {
    if n == 0 then []
    else PositionsOf(marks, mark, n - 1) + if marks[n - 1] == mark then [n - 1] else []
  }

  function IdsAt(p: Proposal, positions: seq<nat>): seq<string>
    requires forall k :: k in positions ==> k < |p.items|
  {
    seq(|positions|, i requires 0 <= i < |positions| => assert positions[i] in positions; p.items[positions[i]].id)
  }

  /** The item ids that carry `mark`, in proposal order. */
  function IdsMarked(p: Proposal, marks: seq<Mark>, mark: Mark, n: nat): seq<string>
    requires n <= |marks| == |p.items|
  {
    IdsAt(p, PositionsOf(marks, mark, n))
  }

  function ReasonOf(o: Outcome): string {
    if o.Failed? && o.error != "" then o.error else "failed"
  }

  function FailuresTo(p: Proposal, marks: seq<Mark>, log: map<nat, Outcome>, n: nat): seq<Failure>
    requires n <= |marks| == |p.items|
  {
    if n == 0 then []
    else FailuresTo(p, marks, log, n - 1)
         + if marks[n - 1] == MarkFailed && n - 1 in log
           then [Failure(p.items[n - 1].shown, ReasonOf(log[n - 1]))] else []
  }

  /** Every item is in exactly one of the four lists, once. */
  lemma {:induction false} ListsPartition(p: Proposal, marks: seq<Mark>, n: nat)
    requires n <= |marks| == |p.items|
    ensures forall k: nat, mark: Mark | k < n :: k in PositionsOf(marks, mark, n) <==> mark == marks[k]
    ensures forall mark: Mark, i: nat, j: nat | i < j < |PositionsOf(marks, mark, n)| ::
              PositionsOf(marks, mark, n)[i] < PositionsOf(marks, mark, n)[j]
    ensures |IdsMarked(p, marks, MarkApplied, n)| + |IdsMarked(p, marks, MarkSkipped, n)|
            + |IdsMarked(p, marks, MarkFailed, n)| + |IdsMarked(p, marks, MarkExcluded, n)| == n
  {
    if n > 0 {
      ListsPartition(p, marks, n - 1);
    }
  }

  lemma IdsMarkedStep(p: Proposal, marks: seq<Mark>, mark: Mark, n: nat)
    requires 0 < n <= |marks| == |p.items|
    ensures IdsMarked(p, marks, mark, n)
            == IdsMarked(p, marks, mark, n - 1) + if marks[n - 1] == mark then [p.items[n - 1].id] else []
  {
  }

  /** Of the applied adds among the first `n` items, the one that comes last in the proposal. */
  function LastAdd(g: Setting, p: Proposal, log: map<nat, Outcome>, n: nat): (r: Option<nat>)
    requires n <= |p.items|
    ensures r.Some? ==> r.value < n && AppliedAdd(g, p, log, r.value)
    ensures forall k | (if r.Some? then r.value + 1 else 0) <= k < n :: !AppliedAdd(g, p, log, k)
  {
    if n == 0 then None
    else if AppliedAdd(g, p, log, n - 1) then Some(n - 1)
    else LastAdd(g, p, log, n - 1)
  }

  predicate AppliedAdd(g: Setting, p: Proposal, log: map<nat, Outcome>, pos: nat)
    requires pos < |p.items|
  {
    && !Dropped(g, p.items[pos]) && p.items[pos].op.OpAdd?
    && pos in log && log[pos].Applied? && log[pos].data.Some? && log[pos].data.value != ""
  }

  predicate SentTo(to: map<nat, Id>, pos: nat) {
    pos in to && to[pos] != ""
  }

  /** Of those whose collection is known, the last one. */
  function LastSent(g: Setting, p: Proposal, log: map<nat, Outcome>, to: map<nat, Id>, n: nat): (r: Option<nat>)
    requires n <= |p.items|
    ensures r.Some? ==> r.value < n && AppliedAdd(g, p, log, r.value) && SentTo(to, r.value)
    ensures forall k | (if r.Some? then r.value + 1 else 0) <= k < n :: !(AppliedAdd(g, p, log, k) && SentTo(to, k))
  {
    if n == 0 then None
    else if AppliedAdd(g, p, log, n - 1) && SentTo(to, n - 1) then Some(n - 1)
    else LastSent(g, p, log, to, n - 1)
  }

  /** The report after the first `n` items: each list holds the items that ended that way, in proposal
      order, and the movie to open afterwards is the one of the last applied add, in its collection. */
  ghost predicate Recorded(g: Setting, p: Proposal, log: map<nat, Outcome>, to: map<nat, Id>, r: ApplyResult, n: nat)
    requires n <= |p.items|
  {
    Filed(g, p, log, r, n) && Noted(g, p, log, to, r, n)
  }

  predicate Filed(g: Setting, p: Proposal, log: map<nat, Outcome>, r: ApplyResult, n: nat)
    requires n <= |p.items|
  {
    var marks := Marks(g, p, log);
    && r.applied == IdsMarked(p, marks, MarkApplied, n)
    && r.skipped == IdsMarked(p, marks, MarkSkipped, n)
    && r.failed == IdsMarked(p, marks, MarkFailed, n)
    && r.failures == FailuresTo(p, marks, log, n)
  }

  predicate Noted(g: Setting, p: Proposal, log: map<nat, Outcome>, to: map<nat, Id>, r: ApplyResult, n: nat)
    requires n <= |p.items|
  {
    var last, sent := LastAdd(g, p, log, n), LastSent(g, p, log, to, n);
    && r.addedMovie == (if last.Some? then log[last.value].data else None)
    && r.addedCollection == (if sent.Some? then Some(to[sent.value]) else None)
  }

  function TargetAt(to: map<nat, Id>, pos: nat): Option<Id> {
    if pos in to then Some(to[pos]) else None
  }

  // ----- the report says what happened -----

  function WasApplied(): Outcome -> bool {
    (o: Outcome) => o.Applied?
  }

  function WasSkipped(): Outcome -> bool {
    (o: Outcome) => o.SkippedDuplicate? || o.SkippedMissing?
  }

  function HasFailed(): Outcome -> bool {
    (o: Outcome) => o.Failed? || o.Crashed?
  }

  /** The ids of the first `n` items whose outcome is of a kind, in proposal order. */
  function IdsWith(p: Proposal, log: map<nat, Outcome>, kind: Outcome -> bool, n: nat): seq<string>
    requires n <= |p.items|
  {
    if n == 0 then []
    else IdsWith(p, log, kind, n - 1) + if n - 1 in log && kind(log[n - 1]) then [p.items[n - 1].id] else []
  }

  function WithReasons(p: Proposal, log: map<nat, Outcome>, n: nat): seq<Failure>
    requires n <= |p.items|
  {
    if n == 0 then []
    else
      var before := WithReasons(p, log, n - 1);
      if n - 1 !in log then before
      else match log[n - 1]
        case Failed(error) => before + [Failure(p.items[n - 1].shown, if error == "" then "failed" else error)]
        case Crashed => before + [Failure(p.items[n - 1].shown, "failed")]
        case _ => before
  }

  /** Listed as applied, skipped or failed is exactly what was applied, skipped or failed, and each failure is
      shown with the reason given. */
  ghost predicate Truthful(p: Proposal, log: map<nat, Outcome>, r: ApplyResult, n: nat)
    requires n <= |p.items|
  {
    && r.applied == IdsWith(p, log, WasApplied(), n)
    && r.skipped == IdsWith(p, log, WasSkipped(), n)
    && r.failed == IdsWith(p, log, HasFailed(), n)
    && r.failures == WithReasons(p, log, n)
  }

  lemma MarkIsTrue(g: Setting, p: Proposal, log: map<nat, Outcome>, k: nat)
    requires k < |p.items| && (k in log ==> !Dropped(g, p.items[k]))
    ensures var mark := Marks(g, p, log)[k];
            && (mark == MarkApplied <==> k in log && WasApplied()(log[k]))
            && (mark == MarkSkipped <==> k in log && WasSkipped()(log[k]))
            && (mark == MarkFailed <==> k in log && HasFailed()(log[k]))
            && (mark == MarkFailed ==> ReasonOf(log[k]) == if log[k] == Failed("") || log[k].Crashed? then "failed"
                                                           else log[k].error)
  {
    assert Marks(g, p, log)[k] == MarkOf(g, p.items[k], Lookup(log, k));
  }

  ghost predicate MarksAgree(p: Proposal, marks: seq<Mark>, log: map<nat, Outcome>, n: nat)
    requires n <= |marks| == |p.items|
  {
    && IdsMarked(p, marks, MarkApplied, n) == IdsWith(p, log, WasApplied(), n)
    && IdsMarked(p, marks, MarkSkipped, n) == IdsWith(p, log, WasSkipped(), n)
    && IdsMarked(p, marks, MarkFailed, n) == IdsWith(p, log, HasFailed(), n)
    && FailuresTo(p, marks, log, n) == WithReasons(p, log, n)
  }

  lemma {:induction false} MarkedIsListed(g: Setting, p: Proposal, log: map<nat, Outcome>, n: nat)
    requires n <= |p.items| && forall k | 0 <= k < |p.items| && k in log :: !Dropped(g, p.items[k])
    ensures MarksAgree(p, Marks(g, p, log), log, n)
  {
    hide Dropped, Marks, IdsMarked, WasApplied, WasSkipped, HasFailed, ReasonOf;
    if n == 0 {
      NothingMarked(p, Marks(g, p, log));
    } else {
      var marks := Marks(g, p, log);
      MarkedIsListed(g, p, log, n - 1);
      IdsMarkedStep(p, marks, MarkApplied, n);
      IdsMarkedStep(p, marks, MarkSkipped, n);
      IdsMarkedStep(p, marks, MarkFailed, n);
      MarkIsTrue(g, p, log, n - 1);
      FailureKind();
    }
  }

  lemma FailureKind()
    ensures forall o: Outcome :: HasFailed()(o) <==> o.Failed? || o.Crashed?
  {
  }

  lemma NothingMarked(p: Proposal, marks: seq<Mark>)
    requires |marks| == |p.items|
    ensures forall mark :: IdsMarked(p, marks, mark, 0) == []
  {
  }

  lemma RecordIsTruthful(g: Setting, p: Proposal, log: map<nat, Outcome>, to: map<nat, Id>, r: ApplyResult)
    requires Recorded(g, p, log, to, r, |p.items|)
    requires forall k | 0 <= k < |p.items| && k in log :: !Dropped(g, p.items[k])
    ensures Truthful(p, log, r, |p.items|)
  {
    MarkedIsListed(g, p, log, |p.items|);
    hide Noted, IdsMarked, Marks, IdsWith, FailuresTo, WithReasons, WasApplied, WasSkipped, HasFailed;
  }

  /** One outcome added to the report. */
  function RecordOutcome(r: ApplyResult, item: Item, o: Outcome): ApplyResult {
    match o
    case Applied(_) => r.(applied := r.applied + [item.id])
    case SkippedDuplicate => r.(skipped := r.skipped + [item.id])
    case SkippedMissing => r.(skipped := r.skipped + [item.id])
    case Failed(_) => r.(failed := r.failed + [item.id], failures := r.failures + [Failure(item.shown, ReasonOf(o))])
    case Crashed => r.(failed := r.failed + [item.id], failures := r.failures + [Failure(item.shown, ReasonOf(o))])
  }

  /** The movie an applied add opens afterwards. */
  function NoteAdded(r: ApplyResult, item: Item, o: Outcome, target: Option<Id>): ApplyResult {
    if item.op.OpAdd? && o.Applied? && o.data.Some? && o.data.value != "" then
      var r' := r.(addedMovie := o.data);
      if target.Some? && target.value != "" then r'.(addedCollection := target) else r'
    else r
  }

  lemma RecordedStart(g: Setting, p: Proposal, log: map<nat, Outcome>, to: map<nat, Id>, r: ApplyResult)
    requires r.applied == r.skipped == r.failed == [] && r.failures == []
    requires r.addedMovie == None && r.addedCollection == None
    ensures Recorded(g, p, log, to, r, 0)
  {
  }

  function RecordItem(g: Setting, p: Proposal, log: map<nat, Outcome>, r: ApplyResult, pos: nat, target: Option<Id>)
    : ApplyResult
    requires pos < |p.items|
  {
    var item := p.items[pos];
    if Dropped(g, item) || pos !in log then r
    else RecordOutcome(NoteAdded(r, item, log[pos], target), item, log[pos])
  }

  lemma FiledStep(g: Setting, p: Proposal, log: map<nat, Outcome>, r: ApplyResult, n: nat, target: Option<Id>)
    requires 0 < n <= |p.items| && Filed(g, p, log, r, n - 1)
    ensures Filed(g, p, log, RecordItem(g, p, log, r, n - 1, target), n)
  {
    var marks, item := Marks(g, p, log), p.items[n - 1];
    assert marks[n - 1] == MarkOf(g, item, Lookup(log, n - 1));
    IdsMarkedStep(p, marks, MarkApplied, n);
    IdsMarkedStep(p, marks, MarkSkipped, n);
    IdsMarkedStep(p, marks, MarkFailed, n);
    hide IdsMarked, Marks;
  }

  lemma NotedStep(g: Setting, p: Proposal, log: map<nat, Outcome>, to: map<nat, Id>, r: ApplyResult, n: nat)
    requires 0 < n <= |p.items| && Noted(g, p, log, to, r, n - 1)
    ensures Noted(g, p, log, to, RecordItem(g, p, log, r, n - 1, TargetAt(to, n - 1)), n)
  {
    var r' := RecordItem(g, p, log, r, n - 1, TargetAt(to, n - 1));
    assert r'.addedMovie == if AppliedAdd(g, p, log, n - 1) then log[n - 1].data else r.addedMovie;
    assert r'.addedCollection
        == if AppliedAdd(g, p, log, n - 1) && SentTo(to, n - 1) then Some(to[n - 1]) else r.addedCollection;
  }

  lemma RecordedStep(g: Setting, p: Proposal, log: map<nat, Outcome>, to: map<nat, Id>, r: ApplyResult, n: nat)
    requires 0 < n <= |p.items| && Recorded(g, p, log, to, r, n - 1)
    ensures var r' := RecordItem(g, p, log, r, n - 1, TargetAt(to, n - 1));
            Recorded(g, p, log, to, r', n) && r'.excluded == r.excluded && r'.created == r.created
  {
    hide Filed, Noted;
    FiledStep(g, p, log, r, n, TargetAt(to, n - 1));
    NotedStep(g, p, log, to, r, n);
  }

  /** The dropped items are reported in proposal order. */
  lemma {:induction false} ExcludedInOrder(g: Setting, p: Proposal, s: Store, marks: seq<Mark>, n: nat)
    requires n <= |p.items| == |marks|
    requires forall k | 0 <= k < |marks| :: marks[k] == MarkExcluded <==> Dropped(g, p.items[k])
    ensures ScanTo(g, p, s, n).excluded == IdsMarked(p, marks, MarkExcluded, n)
  {
    if n > 0 {
      ExcludedInOrder(g, p, s, marks, n - 1);
      IdsMarkedStep(p, marks, MarkExcluded, n);
      hide Exec, IdsMarked, ToMoviePayload;
    }
  }

  lemma {:induction false} MergeKeys(outcomes: map<nat, Outcome>, positions: seq<nat>, results: seq<Outcome>)
    requires |positions| == |results|
    requires forall i | 0 <= i < |positions| :: positions[i] !in outcomes
    ensures var log := Merge(outcomes, positions, results);
            && (forall k :: k in log <==> k in outcomes || k in positions)
            && (forall k :: k in outcomes ==> log[k] == outcomes[k])
  {
    if positions != [] {
      var n := |positions| - 1;
      MergeKeys(outcomes, positions[..n], results[..n]);
      assert forall k :: k in positions <==> k in positions[..n] || k == positions[n];
    }
  }
}
