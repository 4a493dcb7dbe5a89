/**
 A move is an add to the destination and then a removal from the source.  Whatever the transport
 does to either call, and wherever the apply is cut off, the movie is in one of the two collections.
 */
module MoveSafety {
  import opened MovieStore
  import opened ToolCall
  import opened Independence
  import opened ConcurrentApply
  import opened Proposals
  import opened ApplyGate

  predicate SourceHolds(svc: Service, w: Item, s: Store)
    requires w.payload.Some?
  {
    w.movie in s.movies && MovieKey(svc, s.movies[w.movie]) == KeyOf(svc, w.coll, w.payload.value)
  }

  predicate DestHolds(svc: Service, w: Item, s: Store)
    requires w.payload.Some?
  {
    Holds(svc, s, KeyOf(svc, w.dest, w.payload.value))
  }

  predicate Kept(svc: Service, w: Item, s: Store)
    requires w.payload.Some?
  {
    SourceHolds(svc, w, s) || DestHolds(svc, w, s)
  }

  predicate Gone(w: Item, s: Store) {
    !(w.movie in s.movies && s.movies[w.movie].coll == w.coll)
  }

  /** The request neither names the watched movie nor changes a movie of its destination in place. */
  predicate Harmless(w: Item, q: Request) {
    q.Remove? || q.Update? ==> q.movie != w.movie && q.coll != w.dest
  }

  /** A movie this request inserts does not take the id of the watched one. */
  predicate TakesAnotherId(svc: Service, w: Item, q: Request) {
    q.Add? ==> svc.mint(q.idem) != w.movie
  }

  /** The other item names another movie, takes nothing out of the destination, and what it inserts gets
      an id of its own. */
  predicate Undisturbing(svc: Service, w: Item, other: Item) {
    && (other.op.OpRemove? || other.op.OpUpdate? || other.op.OpMove? ==>
          other.movie != w.movie && other.coll != w.dest)
    && (other.op.OpAdd? ==> svc.mint(other.idem) != w.movie)
    && (other.op.OpMove? ==> svc.mint(other.idem + ":add") != w.movie)
  }

  /** The item at `pos` is a move as the organizer builds it, its movie is where the plan saw it, and
      the other items of the proposal leave that movie and the destination alone. */
  ghost predicate Watched(g: Setting, p: Proposal, s: Store, pos: nat) {
    && pos < |p.items|
    && var w := p.items[pos];
       && w.op.OpMove? && Complete(w) && w.coll != w.dest
       && w.coll in s.collections
       && SourceHolds(g.svc, w, s)
       && forall j | 0 <= j < |p.items| && j != pos :: Undisturbing(g.svc, w, p.items[j])
  }

  lemma HarmlessKeeps(svc: Service, w: Item, s: Store, q: Request)
    requires w.payload.Some? && Harmless(w, q)
    ensures var t := Serve(svc, s, q).0;
            && (SourceHolds(svc, w, s) ==> SourceHolds(svc, w, t))
            && (DestHolds(svc, w, s) ==> DestHolds(svc, w, t))
            && (Gone(w, s) && TakesAnotherId(svc, w, q) ==> Gone(w, t))
            && (w.coll in s.collections ==> w.coll in t.collections)
  {
    var t, k := Serve(svc, s, q).0, KeyOf(svc, w.dest, w.payload.value);
    if DestHolds(svc, w, s) {
      var id :| id in s.movies && MovieKey(svc, s.movies[id]) == k;
      assert s.movies[id].coll == w.dest;
      assert id in t.movies && t.movies[id] == s.movies[id];
    }
  }

  lemma RemoveKeepsDest(svc: Service, w: Item, s: Store)
    requires w.payload.Some? && w.coll != w.dest
    ensures var t := Serve(svc, s, MoveRemove(w)).0;
            && (DestHolds(svc, w, s) ==> DestHolds(svc, w, t))
            && t.collections == s.collections
  {
    var t, k := Serve(svc, s, MoveRemove(w)).0, KeyOf(svc, w.dest, w.payload.value);
    if DestHolds(svc, w, s) {
      var id :| id in s.movies && MovieKey(svc, s.movies[id]) == k;
      assert s.movies[id].coll == w.dest;
      assert id in t.movies && t.movies[id] == s.movies[id];
    }
  }

  /** What the watch knows about a store: nothing has happened yet, or the item is decided. */
  predicate Stage(svc: Service, w: Item, s: Store, decided: bool, applied: bool)
    requires w.payload.Some?
  {
    && w.coll in s.collections
    && (if decided then Kept(svc, w, s) else SourceHolds(svc, w, s))
    && (applied ==> DestHolds(svc, w, s) && Gone(w, s))
  }

  lemma ExecKeepsStage(g: Setting, w: Item, s: Store, q: Request, pos: nat, call: nat, decided: bool, applied: bool)
    requires w.payload.Some? && Harmless(w, q) && (applied ==> TakesAnotherId(g.svc, w, q))
    requires Stage(g.svc, w, s, decided, applied)
    ensures Stage(g.svc, w, Exec(g, s, q, pos, call).0, decided, applied)
    ensures forall t :: t in ExecTrace(g, s, q, pos, call) ==> Kept(g.svc, w, t)
  {
    TraceIsBeforeOrAfter(g.svc, s, q, g.env(pos, call), 0, g.max);
    HarmlessKeeps(g.svc, w, s, q);
    var trace := ExecTrace(g, s, q, pos, call);
    assert Exec(g, s, q, pos, call).0 == trace[|trace| - 1];
    assert trace[|trace| - 1] in trace;
  }

  /** Any other item. */
  lemma OtherItemKeepsStage(g: Setting, p: Proposal, st: Scan, pos: nat, w: Item, decided: bool, applied: bool)
    requires pos < |p.items| && w.payload.Some?
    requires Undisturbing(g.svc, w, p.items[pos])
    requires Stage(g.svc, w, st.store, decided, applied)
    ensures Stage(g.svc, w, ScanItem(g, p, st, pos).store, decided, applied)
    ensures forall t :: t in ItemTrace(g, p, st, pos) ==> Kept(g.svc, w, t)
  {
    hide Stage, Kept, Exec, ExecTrace, Landed, MoveOutcome, ToMoviePayload;
    var item := p.items[pos];
    if Dropped(g, item) {
    } else if item.op.OpCreate? {
      ExecKeepsStage(g, w, st.store, Create(TargetName(p), item.idem), pos, 0, decided, applied);
    } else if item.op.OpRemove? {
      ExecKeepsStage(g, w, st.store, Remove(item.coll, item.movie), pos, 0, decided, applied);
    } else if item.op.OpMove? && Complete(item) {
      ExecKeepsStage(g, w, st.store, MoveAdd(item), pos, 0, decided, applied);
      var s := Exec(g, st.store, MoveAdd(item), pos, 0).0;
      ExecKeepsStage(g, w, s, MoveRemove(item), pos, 1, decided, applied);
    }
  }

  /** The watched item itself. */
  lemma OwnItemKeepsStage(g: Setting, p: Proposal, st: Scan, pos: nat)
    requires pos < |p.items|
    requires var w := p.items[pos];
             w.op.OpMove? && Complete(w) && w.coll != w.dest
             && Stage(g.svc, w, st.store, false, false)
    ensures var w, st' := p.items[pos], ScanItem(g, p, st, pos);
            Stage(g.svc, w, st'.store, true, !Dropped(g, w) && st'.outcomes[pos].Applied?)
    ensures forall t :: t in ItemTrace(g, p, st, pos) ==> Kept(g.svc, p.items[pos], t)
  {
    var w := p.items[pos];
    if !Dropped(g, w) {
      var add, rm := MoveAdd(w), MoveRemove(w);
      ExecKeepsStage(g, w, st.store, add, pos, 0, false, false);
      var (s, added) := Exec(g, st.store, add, pos, 0);
      if Landed(added) {
        AnsweredAdd(g.svc, st.store, w.dest, w.payload.value, w.idem + ":add", g.env(pos, 0), 0, g.max);
        OwnRemoveKeepsStage(g, w, s, pos);
      }
    }
  }

  lemma OwnRemoveKeepsStage(g: Setting, w: Item, s: Store, pos: nat)
    requires w.payload.Some? && w.coll != w.dest && w.coll in s.collections && DestHolds(g.svc, w, s)
    ensures var (t, removed) := Exec(g, s, MoveRemove(w), pos, 1);
            Stage(g.svc, w, t, true, removed.Applied? || removed.SkippedMissing?)
    ensures forall t :: t in ExecTrace(g, s, MoveRemove(w), pos, 1) ==> Kept(g.svc, w, t)
  {
    var rm, script := MoveRemove(w), g.env(pos, 1);
    TraceIsBeforeOrAfter(g.svc, s, rm, script, 0, g.max);
    RemoveKeepsDest(g.svc, w, s);
    var trace := ExecTrace(g, s, rm, pos, 1);
    var (t, removed) := Exec(g, s, rm, pos, 1);
    assert t == trace[|trace| - 1] && t in trace;
    if removed.Applied? || removed.SkippedMissing? {
      AnsweredRemove(g.svc, s, w.coll, w.movie, script, 0, g.max);
    }
  }

  predicate AppliedAt(outcomes: map<nat, Outcome>, pos: nat) {
    pos in outcomes && outcomes[pos].Applied?
  }

  lemma {:induction false} ScanKeepsStage(g: Setting, p: Proposal, s: Store, n: nat, pos: nat)
    requires n <= |p.items| && Watched(g, p, s, pos)
    ensures var st := ScanTo(g, p, s, n);
            Stage(g.svc, p.items[pos], st.store, n > pos, n > pos && AppliedAt(st.outcomes, pos))
    ensures forall t :: t in TraceTo(g, p, s, n) ==> Kept(g.svc, p.items[pos], t)
  {
    if n > 0 {
      hide ScanItem, ItemTrace, Stage, Kept, Sorted, LeftAlone, DecidedAt, DeferredAt, SourceHolds, Undisturbing;
      ScanKeepsStage(g, p, s, n - 1, pos);
      ScanStepKeepsStage(g, p, s, n, pos);
    }
  }

  lemma ScanStepKeepsStage(g: Setting, p: Proposal, s: Store, n: nat, pos: nat)
    requires 0 < n <= |p.items| && Watched(g, p, s, pos)
    requires var st := ScanTo(g, p, s, n - 1);
             Stage(g.svc, p.items[pos], st.store, n - 1 > pos, n - 1 > pos && AppliedAt(st.outcomes, pos))
    ensures var st := ScanTo(g, p, s, n);
            Stage(g.svc, p.items[pos], st.store, n > pos, n > pos && AppliedAt(st.outcomes, pos))
    ensures forall t :: t in ItemTrace(g, p, ScanTo(g, p, s, n - 1), n - 1) ==> Kept(g.svc, p.items[pos], t)
  {
    hide ScanItem, ItemTrace, Stage, Kept, SourceHolds, Dropped, TraceTo;
    var st := ScanTo(g, p, s, n - 1);
    ScanShape(g, p, s, n - 1);
    ScanItemShape(g, p, st, n - 1);
    if n - 1 == pos {
      OwnItemKeepsStage(g, p, st, pos);
      NotYetDecided(g, p, st, pos);
    } else {
      OtherItemKeepsStage(g, p, st, n - 1, p.items[pos], n - 1 > pos, n - 1 > pos && AppliedAt(st.outcomes, pos));
      hide Sorted, DeferredAt;
    }
  }

  lemma NotYetDecided(g: Setting, p: Proposal, st: Scan, pos: nat)
    requires pos < |p.items| && Sorted(g, p, st, pos)
    requires p.items[pos].op.OpMove?
    ensures var st' := ScanItem(g, p, st, pos);
            if Dropped(g, p.items[pos]) then pos !in st'.outcomes else pos in st'.outcomes
  {
    hide Exec, Complete;
  }

  lemma {:induction false} PathKeepsStage(g: Setting, tasks: seq<Task>, s: Store, path: seq<Store>, w: Item,
                                          applied: bool, k: nat)
    requires w.payload.Some? && k <= |path|
    requires forall i | 0 <= i < |tasks| :: Harmless(w, tasks[i].req) && TakesAnotherId(g.svc, w, tasks[i].req)
    requires TaskPath(g.svc, tasks, s, path) && Stage(g.svc, w, s, true, applied)
    ensures Stage(g.svc, w, Last(s, path[..k]), true, applied)
    ensures forall t :: t in path[..k] ==> Kept(g.svc, w, t)
  {
    hide Stage, Kept, TaskMove, Harmless, TakesAnotherId, Serve;
    if k > 0 {
      PathKeepsStage(g, tasks, s, path, w, applied, k - 1);
      var before, after := Before(s, path, k - 1), path[k - 1];
      assert TaskMove(g.svc, tasks, before, after);
      hide TaskPath;
      assert before == Last(s, path[..k - 1]);
      MoveKeepsStage(g, tasks, before, after, w, applied);
      assert path[..k] == path[..k - 1] + [after];
    }
  }

  lemma MoveKeepsStage(g: Setting, tasks: seq<Task>, s: Store, t: Store, w: Item, applied: bool)
    requires w.payload.Some?
    requires forall i | 0 <= i < |tasks| :: Harmless(w, tasks[i].req) && TakesAnotherId(g.svc, w, tasks[i].req)
    requires TaskMove(g.svc, tasks, s, t) && Stage(g.svc, w, s, true, applied)
    ensures Stage(g.svc, w, t, true, applied) && Kept(g.svc, w, t)
  {
    if t != s {
      var i :| 0 <= i < |tasks| && t == Serve(g.svc, s, tasks[i].req).0;
      HarmlessKeeps(g.svc, w, s, tasks[i].req);
    }
  }

  /** No approved move loses its movie: in every store the apply passes through — hence wherever it is
      cut off — the movie is in the source or in the destination; and once it has run, a move reported
      as applied has its movie in the destination and not in the source. */
  lemma NoMoveLosesItsMovie(g: Setting, p: Proposal, s: Store, path: seq<Store>, pos: nat)
    requires Watched(g, p, s, pos)
    requires var st := ScanTo(g, p, s, |p.items|); TaskPath(g.svc, st.tasks, st.store, path)
    ensures var w, st := p.items[pos], ScanTo(g, p, s, |p.items|);
            && (forall t :: t in TraceTo(g, p, s, |p.items|) + path ==> Kept(g.svc, w, t))
            && (AppliedAt(st.outcomes, pos) ==>
                  DestHolds(g.svc, w, Last(st.store, path)) && Gone(w, Last(st.store, path)))
  {
    var w, st := p.items[pos], ScanTo(g, p, s, |p.items|);
    ScanKeepsStage(g, p, s, |p.items|, pos);
    ScanShape(g, p, s, |p.items|);
    forall i | 0 <= i < |st.tasks|
      ensures Harmless(w, st.tasks[i].req) && TakesAnotherId(g.svc, w, st.tasks[i].req)
    {
      var item := p.items[st.positions[i]];
      assert TaskOf(item, st.tasks[i].req);
      assert st.positions[i] != pos;
      assert Undisturbing(g.svc, w, item);
    }
    PathKeepsStage(g, st.tasks, st.store, path, w, AppliedAt(st.outcomes, pos), |path|);
    assert path[..|path|] == path;
  }

  lemma SelfAddIsIdle(svc: Service, w: Item, s: Store)
    requires w.payload.Some? && w.coll == w.dest && w.coll in s.collections && SourceHolds(svc, w, s)
    ensures Serve(svc, s, MoveAdd(w)) == (s, Status(409))
  {
    assert Holds(svc, s, KeyOf(svc, w.dest, w.payload.value));
  }

  lemma SelfRemoveLoses(svc: Service, w: Item, s: Store)
    requires w.payload.Some? && w.coll == w.dest && w.coll in s.collections && SourceHolds(svc, w, s) && Unique(svc, s)
    ensures !Kept(svc, w, Serve(svc, s, MoveRemove(w)).0)
  {
    assert Serve(svc, s, MoveRemove(w)).0.movies == s.movies - {w.movie};
  }

  /** Without the organizer's check the promise fails.  Whatever the faults, a move keeps its movie exactly
      when the destination is not the source, or the add is never answered, or the removal never reaches the
      service. */
  lemma MoveOntoItselfLosesTheMovie(g: Setting, p: Proposal, st: Scan, pos: nat)
    requires pos < |p.items| && !Dropped(g, p.items[pos])
    requires var w := p.items[pos];
             w.op.OpMove? && Complete(w) && w.coll in st.store.collections
             && SourceHolds(g.svc, w, st.store) && Unique(g.svc, st.store)
    ensures var w := p.items[pos];
            Kept(g.svc, w, ScanItem(g, p, st, pos).store) <==>
              w.coll != w.dest || !Answered(g.env(pos, 0), 0, g.max) || !Reaches(g.env(pos, 1), 0, g.max)
  {
    var w, s := p.items[pos], st.store;
    if w.coll != w.dest {
      OwnItemKeepsStage(g, p, st, pos);
    } else {
      SelfAddIsIdle(g.svc, w, s);
      SelfRemoveLoses(g.svc, w, s);
      IdleAnswer(g.svc, s, MoveAdd(w), g.env(pos, 0), 0, g.max);
      EffectIsDecided(g.svc, s, MoveRemove(w), g.env(pos, 1), 0, g.max);
      hide Kept, SourceHolds, Serve, Invoke, Reaches, Answered;
      assert Landed(Exec(g, s, MoveAdd(w), pos, 0).1) <==> Answered(g.env(pos, 0), 0, g.max);
      hide Landed;
      SourceIsKept(g.svc, w, s);
    }
  }

  lemma SourceIsKept(svc: Service, w: Item, s: Store)
    requires w.payload.Some? && SourceHolds(svc, w, s)
    ensures Kept(svc, w, s)
  {
  }

  /** `trace` is what an apply of `p` passes through from `s` to `t`: the scan, then a concurrent pass
      over the deferred writes. */
  ghost predicate Passes(g: Setting, p: Proposal, s: Store, t: Store, trace: seq<Store>) {
    exists path :: TracedBy(g, p, s, t, trace, path)
  }

  ghost predicate TracedBy(g: Setting, p: Proposal, s: Store, t: Store, trace: seq<Store>, path: seq<Store>) {
    var st := ScanTo(g, p, s, |p.items|);
    && trace == TraceTo(g, p, s, |p.items|) + path
    && TaskPath(g.svc, st.tasks, st.store, path)
    && t == Last(st.store, path)
  }

  /** The outcomes of an apply extend those of its scan. */
  ghost predicate Extends(g: Setting, p: Proposal, s: Store, log: map<nat, Outcome>) {
    var st := ScanTo(g, p, s, |p.items|);
    && (forall k :: k in st.outcomes ==> k in log && log[k] == st.outcomes[k])
    && (forall k :: k in log <==> 0 <= k < |p.items| && !Dropped(g, p.items[k]))
  }

  /** Every watched move keeps its movie in every store of `trace`, and is complete in `t` if `log`
      says it was applied. */
  ghost predicate MovesSafe(g: Setting, p: Proposal, s: Store, t: Store, trace: seq<Store>, log: map<nat, Outcome>) {
    forall pos | 0 <= pos < |p.items| && Watched(g, p, s, pos) ::
      && (forall u :: u in trace ==> Kept(g.svc, p.items[pos], u))
      && (AppliedAt(log, pos) ==> DestHolds(g.svc, p.items[pos], t) && Gone(p.items[pos], t))
  }

  lemma ApplyIsSafe(g: Setting, p: Proposal, s: Store, t: Store, trace: seq<Store>, log: map<nat, Outcome>)
    requires Passes(g, p, s, t, trace) && Extends(g, p, s, log)
    ensures MovesSafe(g, p, s, t, trace, log)
  {
    var path :| TracedBy(g, p, s, t, trace, path);
    forall pos | 0 <= pos < |p.items| && Watched(g, p, s, pos)
      ensures forall u :: u in trace ==> Kept(g.svc, p.items[pos], u)
      ensures AppliedAt(log, pos) ==> DestHolds(g.svc, p.items[pos], t) && Gone(p.items[pos], t)
    {
      NoMoveLosesItsMovie(g, p, s, path, pos);
      MovesAreDecided(g, p, s, pos);
    }
  }

  lemma MovesAreDecided(g: Setting, p: Proposal, s: Store, pos: nat)
    requires pos < |p.items| && p.items[pos].op.OpMove?
    ensures var st := ScanTo(g, p, s, |p.items|);
            pos in st.outcomes <==> !Dropped(g, p.items[pos])
  {
    ScanShape(g, p, s, |p.items|);
    var st := ScanTo(g, p, s, |p.items|);
    forall i | 0 <= i < |st.positions|
      ensures st.positions[i] != pos
    {
      assert TaskOf(p.items[st.positions[i]], st.tasks[i].req);
    }
  }
}
