/**
 When the deferred writes of a proposal are independent of each other, and why their order then
 does not matter.

 The footprint of an add or an update is the id it may write and every uniqueness key that id has
 or will have.  What the service does to a write depends only on the documents its footprint
 touches, and it touches no others.
 */
module Independence {
  import opened MovieStore
  import opened ToolCall

  datatype Footprint = Footprint(ids: set<Id>, keys: set<Key>)

  datatype Task = Task(req: Request, script: Script)

  predicate Deferrable(q: Request) {
    q.Add? || q.Update?
  }

  function Target(svc: Service, q: Request): Id
    requires Deferrable(q)
  {
    if q.Add? then svc.mint(q.idem) else q.movie
  }

  function NewKey(svc: Service, q: Request): Key
    requires Deferrable(q)
  {
    KeyOf(svc, q.coll, q.doc)
  }

  function FootprintOf(svc: Service, s: Store, q: Request): Footprint
    requires Deferrable(q)
  {
    var id := Target(svc, q);
    Footprint({id}, {NewKey(svc, q)} + if id in s.movies then {MovieKey(svc, s.movies[id])} else {})
  }

  predicate Disjoint(a: Footprint, b: Footprint) {
    a.ids !! b.ids && a.keys !! b.keys
  }

  predicate Touches(svc: Service, fp: Footprint, id: Id, m: Movie) {
    id in fp.ids || MovieKey(svc, m) in fp.keys
  }

  /** The documents of `s` a footprint touches. */
  function View(svc: Service, s: Store, fp: Footprint): map<Id, Movie> {
    map id | id in s.movies && Touches(svc, fp, id, s.movies[id]) :: s.movies[id]
  }

  predicate Covers(svc: Service, fp: Footprint, q: Request) {
    Deferrable(q) && fp.ids == {Target(svc, q)} && NewKey(svc, q) in fp.keys
  }

  /** The documents under the footprint's own ids have keys inside the footprint. */
  predicate Closed(svc: Service, s: Store, fp: Footprint) {
    forall id | id in fp.ids && id in s.movies :: MovieKey(svc, s.movies[id]) in fp.keys
  }

  lemma ViewContents(svc: Service, s: Store, fp: Footprint, id: Id)
    ensures id in View(svc, s, fp) <==> id in s.movies && Touches(svc, fp, id, s.movies[id])
    ensures id in View(svc, s, fp) ==> View(svc, s, fp)[id] == s.movies[id]
  {
  }

  /** Locality: two stores that agree on the footprint give the same reply. */
  lemma ServeReplyIsLocal(svc: Service, s: Store, t: Store, fp: Footprint, q: Request)
    requires Covers(svc, fp, q)
    requires s.collections == t.collections && View(svc, s, fp) == View(svc, t, fp)
    ensures Serve(svc, s, q).1 == Serve(svc, t, q).1
  {
    var k := NewKey(svc, q);
    forall id ensures (id in s.movies && MovieKey(svc, s.movies[id]) == k)
                 <==> (id in t.movies && MovieKey(svc, t.movies[id]) == k) {
      ViewContents(svc, s, fp, id);
      ViewContents(svc, t, fp, id);
    }
    var id := Target(svc, q);
    ViewContents(svc, s, fp, id);
    ViewContents(svc, t, fp, id);
  }

  /** A deferrable request writes at most one document, its target, under its new key. */
  lemma ServeShape(svc: Service, s: Store, q: Request)
    requires Deferrable(q)
    ensures var t := Serve(svc, s, q).0;
            t == if Serve(svc, s, q).1.Done?
                 then s.(movies := s.movies[Target(svc, q) := Movie(q.coll, q.doc)]) else s
  {
  }

  lemma ServeViewIsLocal(svc: Service, s: Store, t: Store, fp: Footprint, q: Request)
    requires Covers(svc, fp, q)
    requires s.collections == t.collections && View(svc, s, fp) == View(svc, t, fp)
    ensures View(svc, Serve(svc, s, q).0, fp) == View(svc, Serve(svc, t, q).0, fp)
  {
    ServeReplyIsLocal(svc, s, t, fp, q);
    ServeShape(svc, s, q);
    ServeShape(svc, t, q);
    var s', t' := Serve(svc, s, q).0, Serve(svc, t, q).0;
    forall id
      ensures id in View(svc, s', fp) <==> id in View(svc, t', fp)
      ensures id in View(svc, s', fp) ==> View(svc, s', fp)[id] == View(svc, t', fp)[id]
    {
      hide Serve;
      ViewContents(svc, s, fp, id);
      ViewContents(svc, t, fp, id);
    }
  }

  /** Framing: a footprint disjoint from the request's sees nothing of it. */
  lemma ServeFrame(svc: Service, s: Store, fp: Footprint, q: Request, other: Footprint)
    requires Covers(svc, fp, q) && Closed(svc, s, fp) && Disjoint(fp, other)
    ensures var t := Serve(svc, s, q).0;
            && t.collections == s.collections
            && View(svc, t, other) == View(svc, s, other)
            && (Closed(svc, s, other) ==> Closed(svc, t, other))
  {
    ServeShape(svc, s, q);
    var t := Serve(svc, s, q).0;
    var id := Target(svc, q);
    forall x
      ensures x in View(svc, t, other) <==> x in View(svc, s, other)
      ensures x in View(svc, t, other) ==> View(svc, t, other)[x] == View(svc, s, other)[x]
    {
      if x == id {
        assert x !in other.ids;
        assert x in t.movies ==> MovieKey(svc, t.movies[x]) in fp.keys;
        assert x in s.movies ==> MovieKey(svc, s.movies[x]) in fp.keys;
      }
    }
  }

  lemma ServeKeepsClosed(svc: Service, s: Store, fp: Footprint, q: Request)
    requires Covers(svc, fp, q) && Closed(svc, s, fp)
    ensures Closed(svc, Serve(svc, s, q).0, fp)
  {
    ServeShape(svc, s, q);
  }

  // ----- a batch of tasks -----

  function Prints(svc: Service, s0: Store, tasks: seq<Task>, i: nat): Footprint
    requires i < |tasks| && Deferrable(tasks[i].req)
  {
    FootprintOf(svc, s0, tasks[i].req)
  }

  /** All tasks are adds or updates, and no two of them can reach the same document or key. */
  predicate Independent(svc: Service, s0: Store, tasks: seq<Task>) {
    && (forall i | 0 <= i < |tasks| :: Deferrable(tasks[i].req))
    && (forall i, j | 0 <= i < j < |tasks| :: Disjoint(Prints(svc, s0, tasks, i), Prints(svc, s0, tasks, j)))
  }

  /** Store `s` and the private store of task `i` agree on what task `i` can see. */
  predicate Agrees(svc: Service, s0: Store, tasks: seq<Task>, s: Store, mine: Store, i: nat)
    requires i < |tasks| && Deferrable(tasks[i].req)
  {
    var fp := Prints(svc, s0, tasks, i);
    && mine.collections == s0.collections
    && View(svc, s, fp) == View(svc, mine, fp)
    && Closed(svc, s, fp)
    && Closed(svc, mine, fp)
  }

  predicate Outside(svc: Service, tasks: seq<Task>, id: Id)
    requires forall i | 0 <= i < |tasks| :: Deferrable(tasks[i].req)
  {
    forall i | 0 <= i < |tasks| :: Target(svc, tasks[i].req) != id
  }

  predicate SameAt(s: Store, t: Store, id: Id) {
    (id in s.movies <==> id in t.movies) && (id in s.movies ==> s.movies[id] == t.movies[id])
  }

  /** The shared store, seen through every footprint, is what each task would have made of the
      initial store had it run alone; elsewhere it is the initial store. */
  ghost predicate Progress(svc: Service, s0: Store, tasks: seq<Task>, s: Store, mine: seq<Store>) {
    && Independent(svc, s0, tasks)
    && |mine| == |tasks|
    && s.collections == s0.collections
    && (forall i | 0 <= i < |tasks| :: Agrees(svc, s0, tasks, s, mine[i], i))
    && (forall id | Outside(svc, tasks, id) :: SameAt(s, s0, id))
  }

  lemma ProgressStarts(svc: Service, s0: Store, tasks: seq<Task>)
    requires Independent(svc, s0, tasks)
    ensures Progress(svc, s0, tasks, s0, seq(|tasks|, _ => s0))
  {
  }

  lemma DisjointPair(svc: Service, s0: Store, tasks: seq<Task>, i: nat, j: nat)
    requires Independent(svc, s0, tasks) && i < |tasks| && j < |tasks| && i != j
    ensures Disjoint(Prints(svc, s0, tasks, i), Prints(svc, s0, tasks, j))
  {
    if i < j {
    } else {
      assert Disjoint(Prints(svc, s0, tasks, j), Prints(svc, s0, tasks, i));
    }
  }

  /** One execution of task `i`'s request, on the shared store and on its private one. */
  lemma ServeProgress(svc: Service, s0: Store, tasks: seq<Task>, s: Store, mine: seq<Store>, i: nat)
    requires Progress(svc, s0, tasks, s, mine) && i < |tasks|
    ensures var q := tasks[i].req;
            && Serve(svc, s, q).1 == Serve(svc, mine[i], q).1
            && Progress(svc, s0, tasks, Serve(svc, s, q).0, mine[i := Serve(svc, mine[i], q).0])
  {
    var q, fp := tasks[i].req, Prints(svc, s0, tasks, i);
    var t, m := Serve(svc, s, q).0, Serve(svc, mine[i], q).0;
    var mine' := mine[i := m];
    assert Agrees(svc, s0, tasks, s, mine[i], i);
    ServeReplyIsLocal(svc, s, mine[i], fp, q);
    ServeViewIsLocal(svc, s, mine[i], fp, q);
    ServeKeepsClosed(svc, s, fp, q);
    ServeKeepsClosed(svc, mine[i], fp, q);
    ServeShape(svc, s, q);
    ServeShape(svc, mine[i], q);
    hide Serve, View, Closed, FootprintOf;
    forall j | 0 <= j < |tasks|
      ensures Agrees(svc, s0, tasks, t, mine'[j], j)
    {
      assert Agrees(svc, s0, tasks, s, mine[j], j);
      if j != i {
        DisjointPair(svc, s0, tasks, i, j);
        ServeFrame(svc, s, fp, q, Prints(svc, s0, tasks, j));
      }
    }
    forall id | Outside(svc, tasks, id)
      ensures SameAt(t, s0, id)
    {
      assert SameAt(s, s0, id);
    }
  }

  lemma OnceProgress(svc: Service, s0: Store, tasks: seq<Task>, s: Store, mine: seq<Store>, i: nat, a: Attempt)
    requires Progress(svc, s0, tasks, s, mine) && i < |tasks|
    ensures var q := tasks[i].req;
            && Once(svc, s, q, a).1 == Once(svc, mine[i], q, a).1
            && Progress(svc, s0, tasks, Once(svc, s, q, a).0, mine[i := Once(svc, mine[i], q, a).0])
  {
    assert |mine| == |tasks|;
    hide Serve, Progress;
    ServeProgress(svc, s0, tasks, s, mine, i);
    assert mine[i := mine[i]] == mine;
  }

  lemma {:induction false} InvokeProgress(svc: Service, s0: Store, tasks: seq<Task>, s: Store, mine: seq<Store>,
                                          i: nat, k: nat, max: nat)
    requires Progress(svc, s0, tasks, s, mine) && i < |tasks| && k <= max
    ensures var r := Invoke(svc, s, tasks[i].req, tasks[i].script, k, max);
            var r' := Invoke(svc, mine[i], tasks[i].req, tasks[i].script, k, max);
            && r.seen == r'.seen
            && Progress(svc, s0, tasks, r.store, mine[i := r'.store])
    decreases max - k
  {
    assert |mine| == |tasks|;
    hide Serve, Progress, Once, Invoke;
    var q, script := tasks[i].req, tasks[i].script;
    OnceProgress(svc, s0, tasks, s, mine, i, script(k));
    LoopStep(svc, s, q, script, k, max);
    LoopStep(svc, mine[i], q, script, k, max);
    var (t, seen) := Once(svc, s, q, script(k));
    var m := Once(svc, mine[i], q, script(k)).0;
    if Transient(seen) && k < max {
      InvokeProgress(svc, s0, tasks, t, mine[i := m], i, k + 1, max);
      var m' := Invoke(svc, m, q, script, k + 1, max).store;
      assert mine[i := m][i := m'] == mine[i := m'];
    }
  }

  /** The views and the rest determine the whole store. */
  lemma ProgressDetermines(svc: Service, s0: Store, tasks: seq<Task>, s: Store, t: Store, mine: seq<Store>)
    requires Progress(svc, s0, tasks, s, mine) && Progress(svc, s0, tasks, t, mine)
    ensures s == t
  {
    forall id
      ensures id in s.movies <==> id in t.movies
      ensures id in s.movies ==> s.movies[id] == t.movies[id]
    {
      if Outside(svc, tasks, id) {
        assert SameAt(s, s0, id) && SameAt(t, s0, id);
      } else {
        var i :| 0 <= i < |tasks| && Target(svc, tasks[i].req) == id;
        assert Agrees(svc, s0, tasks, s, mine[i], i) && Agrees(svc, s0, tasks, t, mine[i], i);
        var fp := Prints(svc, s0, tasks, i);
        ViewContents(svc, s, fp, id);
        ViewContents(svc, t, fp, id);
      }
    }
    assert s.movies == t.movies;
  }

  // ----- the reference: one task after another -----

  /** The tasks run one by one, in list order. */
  function InOrder(svc: Service, s: Store, tasks: seq<Task>, max: nat): (r: (Store, seq<Outcome>))
    ensures |r.1| == |tasks|
  {
    if tasks == [] then (s, [])
    else
      var last := tasks[|tasks| - 1];
      var (t, outcomes) := InOrder(svc, s, tasks[..|tasks| - 1], max);
      var r := Invoke(svc, t, last.req, last.script, 0, max);
      (r.store, outcomes + [Executed(r)])
  }

  /** Task `i` on its own, started from the initial store. */
  function Alone(svc: Service, s0: Store, tasks: seq<Task>, i: nat, max: nat): Run
    requires i < |tasks|
  {
    Invoke(svc, s0, tasks[i].req, tasks[i].script, 0, max)
  }

  function AloneUpTo(svc: Service, s0: Store, tasks: seq<Task>, n: nat, max: nat): (mine: seq<Store>)
    requires n <= |tasks|
    ensures |mine| == |tasks|
  {
    seq(|tasks|, i requires 0 <= i < |tasks| => if i < n then Alone(svc, s0, tasks, i, max).store else s0)
  }

  lemma {:induction false} InOrderUpTo(svc: Service, s0: Store, tasks: seq<Task>, n: nat, max: nat)
    requires Independent(svc, s0, tasks) && n <= |tasks|
    ensures var (s, outcomes) := InOrder(svc, s0, tasks[..n], max);
            && Progress(svc, s0, tasks, s, AloneUpTo(svc, s0, tasks, n, max))
            && forall i | 0 <= i < n :: outcomes[i] == Executed(Alone(svc, s0, tasks, i, max))
  {
    if n == 0 {
      ProgressStarts(svc, s0, tasks);
      assert AloneUpTo(svc, s0, tasks, 0, max) == seq(|tasks|, _ => s0);
    } else {
      InOrderUpTo(svc, s0, tasks, n - 1, max);
      hide Serve, Progress, Invoke;
      var before := AloneUpTo(svc, s0, tasks, n - 1, max);
      var s := InOrder(svc, s0, tasks[..n - 1], max).0;
      InvokeProgress(svc, s0, tasks, s, before, n - 1, 0, max);
      assert tasks[..n][..n - 1] == tasks[..n - 1];
      assert AloneUpTo(svc, s0, tasks, n, max) == before[n - 1 := Alone(svc, s0, tasks, n - 1, max).store];
    }
  }
}
