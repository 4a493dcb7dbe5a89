/**
 What an apply of an organize plan does to each movie: a removal takes it out, an update changes what was asked
 and nothing else, and movies the plan does not name stay as they are.
 */
module PlanApplied {
  import opened Common
  import opened Text
  import opened MovieStore
  import opened ToolCall
  import opened Independence
  import opened ConcurrentApply
  import opened Proposals
  import opened ApplyGate
  import opened OrganizePlan
  import opened AddApplied

  /** The movie is as it was, there or not. */
  predicate Same(s: Store, t: Store, id: Id) {
    if id in s.movies then id in t.movies && t.movies[id] == s.movies[id] else id !in t.movies
  }

  /** A request for another movie. */
  predicate Spares(svc: Service, s: Store, q: Request, id: Id) {
    && (q.Remove? || q.Update? ==> q.movie != id)
    && (q.Add? && id !in s.movies ==> svc.mint(q.idem) != id)
  }

  lemma ServeSpares(svc: Service, s: Store, q: Request, id: Id)
    requires Spares(svc, s, q, id)
    ensures Same(s, Serve(svc, s, q).0, id)
    ensures !q.Create? ==> Serve(svc, s, q).0.collections == s.collections
  {
  }

  lemma ExecSpares(g: Setting, s: Store, q: Request, pos: nat, call: nat, id: Id)
    requires Spares(g.svc, s, q, id) && !q.Create? && Unique(g.svc, s)
    ensures var t := Exec(g, s, q, pos, call).0; Same(s, t, id) && t.collections == s.collections && Unique(g.svc, t)
  {
    EffectIsDecided(g.svc, s, q, g.env(pos, call), 0, g.max);
    ServeSpares(g.svc, s, q, id);
    ServeKeepsUnique(g.svc, s, q);
    hide Serve, Invoke, Reaches, Unique;
  }

  /** What the scan has made of a movie: nothing before its item is reached, nor while its update waits. */
  ghost predicate Fate(g: Setting, s: Store, t: Store, item: Item, pos: nat, reached: bool) {
    if reached && item.op.OpRemove? && Reaches(g.env(pos, 0), 0, g.max) then item.movie !in t.movies
    else (reached && item.op.OpMove?) || Same(s, t, item.movie)
  }

  /** The items of a plan: no creates and adds, the parts of each complete. */
  predicate PlannedItem(item: Item, src: Id) {
    && (item.op.OpRemove? || item.op.OpUpdate? || item.op.OpMove?)
    && item.coll == src && src != "" && item.movie != "" && item.tab == ""
    && (item.op.OpUpdate? || item.op.OpMove? ==> item.payload.Some?)
    && (item.op.OpMove? ==> item.dest != "" && item.dest != src)
  }

  /** The item of one movie leaves the others alone. */
  lemma ItemSpares(g: Setting, p: Proposal, st: Scan, pos: nat, src: Id, id: Id)
    requires pos < |p.items| && PlannedItem(p.items[pos], src) && !Dropped(g, p.items[pos]) && Unique(g.svc, st.store)
    requires p.items[pos].movie != id && (p.items[pos].op.OpMove? ==> g.svc.mint(p.items[pos].idem + ":add") != id)
    ensures var st' := ScanItem(g, p, st, pos);
            Same(st.store, st'.store, id) && st'.store.collections == st.store.collections && Unique(g.svc, st'.store)
  {
    hide Exec, Unique, Same, MoveOutcome, Spares;
    var item := p.items[pos];
    if item.op.OpRemove? {
      RemoveSpares(g.svc, st.store, src, item.movie, id);
      ExecSpares(g, st.store, Remove(src, item.movie), pos, 0, id);
    } else if item.op.OpMove? {
      AddSpares(g.svc, st.store, item, id);
      ExecSpares(g, st.store, MoveAdd(item), pos, 0, id);
      var s1 := Exec(g, st.store, MoveAdd(item), pos, 0).0;
      RemoveSpares(g.svc, s1, src, item.movie, id);
      ExecSpares(g, s1, MoveRemove(item), pos, 1, id);
      SameTwice(st.store, s1, Exec(g, s1, MoveRemove(item), pos, 1).0, id);
    } else {
      SameSelf(st.store, id);
    }
  }

  lemma RemoveSpares(svc: Service, s: Store, coll: Id, movie: Id, id: Id)
    requires movie != id
    ensures Spares(svc, s, Remove(coll, movie), id)
  {
  }

  lemma AddSpares(svc: Service, s: Store, item: Item, id: Id)
    requires item.payload.Some? && svc.mint(item.idem + ":add") != id
    ensures Spares(svc, s, MoveAdd(item), id)
  {
  }

  lemma SameTwice(s: Store, t: Store, u: Store, id: Id)
    requires Same(s, t, id) && Same(t, u, id)
    ensures Same(s, u, id)
  {
  }

  lemma SameSelf(s: Store, id: Id)
    ensures Same(s, s, id)
  {
  }

  /** A whole proposal of such items, each about a movie of its own. */
  ghost predicate Plan(g: Setting, p: Proposal, s: Store, src: Id) {
    && src in s.collections && Unique(g.svc, s) && "" !in g.excludedTabs
    && (forall i | 0 <= i < |p.items| ::
          && PlannedItem(p.items[i], src)
          && p.items[i].movie in s.movies && s.movies[p.items[i].movie].coll == src)
    && (forall i, j | 0 <= i < j < |p.items| :: p.items[i].movie != p.items[j].movie)
    && (forall i, j | 0 <= i < |p.items| && 0 <= j < |p.items| ::
          p.items[i].op.OpMove? ==> g.svc.mint(p.items[i].idem + ":add") != p.items[j].movie)
  }

  /** The removal of a movie the source holds. */
  lemma RemoveItem(g: Setting, p: Proposal, st: Scan, pos: nat, src: Id)
    requires pos < |p.items| && PlannedItem(p.items[pos], src) && !Dropped(g, p.items[pos]) && p.items[pos].op.OpRemove?
    requires src in st.store.collections && p.items[pos].movie in st.store.movies
             && st.store.movies[p.items[pos].movie].coll == src
    ensures var t, id := ScanItem(g, p, st, pos).store, p.items[pos].movie;
            if Reaches(g.env(pos, 0), 0, g.max) then id !in t.movies else Same(st.store, t, id)
  {
    EffectIsDecided(g.svc, st.store, Remove(src, p.items[pos].movie), g.env(pos, 0), 0, g.max);
    hide Invoke, Reaches;
  }

  lemma FateKept(g: Setting, s: Store, t: Store, u: Store, item: Item, pos: nat, reached: bool)
    requires Fate(g, s, t, item, pos, reached) && Same(t, u, item.movie)
    ensures Fate(g, s, u, item, pos, reached)
  {
  }

  lemma FateStarts(g: Setting, s: Store, item: Item, pos: nat)
    ensures Fate(g, s, s, item, pos, false)
  {
  }

  lemma FateDecided(g: Setting, p: Proposal, s: Store, st: Scan, pos: nat, src: Id)
    requires pos < |p.items| && PlannedItem(p.items[pos], src) && !Dropped(g, p.items[pos])
    requires src in st.store.collections && p.items[pos].movie in s.movies && s.movies[p.items[pos].movie].coll == src
    requires Fate(g, s, st.store, p.items[pos], pos, false)
    ensures Fate(g, s, ScanItem(g, p, st, pos).store, p.items[pos], pos, true)
  {
    var item := p.items[pos];
    if item.op.OpRemove? {
      RemoveItem(g, p, st, pos, src);
      hide ScanItem, Reaches;
    } else {
      hide Exec, Reaches;
    }
  }

  lemma ItemKeepsUnique(g: Setting, p: Proposal, st: Scan, pos: nat, src: Id)
    requires pos < |p.items| && PlannedItem(p.items[pos], src) && !Dropped(g, p.items[pos]) && Unique(g.svc, st.store)
    ensures var st' := ScanItem(g, p, st, pos);
            st'.store.collections == st.store.collections && Unique(g.svc, st'.store)
  {
    hide Exec, Unique, MoveOutcome;
    var item := p.items[pos];
    if item.op.OpRemove? {
      ExecKeepsUnique(g, st.store, Remove(src, item.movie), pos, 0);
    } else if item.op.OpMove? {
      ExecKeepsUnique(g, st.store, MoveAdd(item), pos, 0);
      ExecKeepsUnique(g, Exec(g, st.store, MoveAdd(item), pos, 0).0, MoveRemove(item), pos, 1);
    }
  }

  lemma ExecKeepsUnique(g: Setting, s: Store, q: Request, pos: nat, call: nat)
    requires !q.Create? && Unique(g.svc, s)
    ensures var t := Exec(g, s, q, pos, call).0; t.collections == s.collections && Unique(g.svc, t)
  {
    EffectIsDecided(g.svc, s, q, g.env(pos, call), 0, g.max);
    ServeKeepsUnique(g.svc, s, q);
    ServeKeepsCollections(g.svc, s, q);
    hide Serve, Invoke, Reaches, Unique;
  }

  lemma ServeKeepsCollections(svc: Service, s: Store, q: Request)
    ensures !q.Create? ==> Serve(svc, s, q).0.collections == s.collections
  {
  }

  /** The scan of the first `n` items: the fate of item `k`. */
  lemma {:induction false} ScanFate(g: Setting, p: Proposal, s: Store, n: nat, src: Id, k: nat)
    requires n <= |p.items| && k < |p.items| && Plan(g, p, s, src)
    ensures var t := ScanTo(g, p, s, n).store;
            && Fate(g, s, t, p.items[k], k, n > k)
            && Unique(g.svc, t) && t.collections == s.collections
  {
    hide Fate, ScanItem, Unique, PlannedItem;
    if n == 0 {
      FateStarts(g, s, p.items[k], k);
    } else {
      ScanFate(g, p, s, n - 1, src, k);
      var st := ScanTo(g, p, s, n - 1);
      assert PlannedItem(p.items[n - 1], src);
      NotDropped(g, p, s, src, n - 1);
      ItemKeepsUnique(g, p, st, n - 1, src);
      if n - 1 == k {
        FateDecided(g, p, s, st, k, src);
      } else {
        ItemSpares(g, p, st, n - 1, src, p.items[k].movie);
        FateKept(g, s, st.store, ScanItem(g, p, st, n - 1).store, p.items[k], k, n > k);
      }
    }
  }

  lemma NotDropped(g: Setting, p: Proposal, s: Store, src: Id, k: nat)
    requires Plan(g, p, s, src) && k < |p.items|
    ensures !Dropped(g, p.items[k])
  {
  }

  /** A movie none of the items from `m` to `n` names, and no move among them inserts. */
  ghost predicate Unnamed(g: Setting, p: Proposal, id: Id, m: nat, n: nat)
    requires n <= |p.items|
  {
    forall i | m <= i < n ::
      p.items[i].movie != id && (p.items[i].op.OpMove? ==> g.svc.mint(p.items[i].idem + ":add") != id)
  }

  lemma ScanStarts(g: Setting, p: Proposal, s: Store)
    ensures ScanTo(g, p, s, 0).store == s
  {
  }

  /** The items from `m` to `n` leave such a movie alone. */
  lemma {:induction false} SparedBetween(g: Setting, p: Proposal, s: Store, m: nat, n: nat, src: Id, id: Id)
    requires m <= n <= |p.items| && Plan(g, p, s, src) && Unnamed(g, p, id, m, n)
    ensures Same(ScanTo(g, p, s, m).store, ScanTo(g, p, s, n).store, id)
    decreases n
  {
    hide Same, ScanItem, Unique, PlannedItem;
    var st := ScanTo(g, p, s, m);
    if m == n {
      SameSelf(st.store, id);
    } else {
      SparedBetween(g, p, s, m, n - 1, src, id);
      var last := ScanTo(g, p, s, n - 1);
      assert PlannedItem(p.items[n - 1], src);
      NotDropped(g, p, s, src, n - 1);
      ScanFate(g, p, s, n - 1, src, n - 1);
      ItemSpares(g, p, last, n - 1, src, id);
      SameTwice(st.store, last.store, ScanItem(g, p, last, n - 1).store, id);
    }
  }

  // ----- the updates, after the scan -----

  /** An update of a stored movie that leaves its key alone. */
  predicate KeepsKey(svc: Service, s: Store, q: Request) {
    && q.Update? && q.coll in s.collections && q.movie in s.movies && s.movies[q.movie].coll == q.coll
    && KeyOf(svc, q.coll, q.doc) == MovieKey(svc, s.movies[q.movie])
  }

  lemma ServeKeepsKey(svc: Service, s: Store, q: Request)
    requires KeepsKey(svc, s, q) && Unique(svc, s)
    ensures var t := s.(movies := s.movies[q.movie := Movie(q.coll, q.doc)]);
            Serve(svc, s, q) == (t, Done(q.movie)) && MovieKey(svc, t.movies[q.movie]) == MovieKey(svc, s.movies[q.movie])
  {
  }

  lemma OtherKeepsKey(svc: Service, s: Store, t: Store, q: Request)
    requires KeepsKey(svc, s, q) && t.collections == s.collections
    requires q.movie in t.movies && t.movies[q.movie].coll == s.movies[q.movie].coll
             && MovieKey(svc, t.movies[q.movie]) == MovieKey(svc, s.movies[q.movie])
    ensures KeepsKey(svc, t, q)
  {
  }

  predicate Names(q: Request, id: Id) {
    q.Update? && q.movie == id
  }

  /** The update is in the store exactly when it reached the service. */
  ghost predicate UpdateDone(svc: Service, s: Store, t: Store, task: Task, max: nat) {
    && KeepsKey(svc, s, task.req) && task.req.movie in t.movies
    && t.movies[task.req.movie] == if Reaches(task.script, 0, max) then Movie(task.req.coll, task.req.doc)
                                   else s.movies[task.req.movie]
  }

  /** What the first `n` updates have made of the store. */
  ghost predicate Updated(svc: Service, s: Store, t: Store, tasks: seq<Task>, n: nat, max: nat)
    requires n <= |tasks|
  {
    && t.collections == s.collections && t.movies.Keys == s.movies.Keys
    && (forall id | id in s.movies :: MovieKey(svc, t.movies[id]) == MovieKey(svc, s.movies[id]))
    && (forall id | id in s.movies :: (forall i | 0 <= i < n :: !Names(tasks[i].req, id)) ==> t.movies[id] == s.movies[id])
    && (forall i | 0 <= i < n :: UpdateDone(svc, s, t, tasks[i], max))
  }

  ghost predicate DistinctUpdates(svc: Service, s: Store, tasks: seq<Task>) {
    && (forall i | 0 <= i < |tasks| :: KeepsKey(svc, s, tasks[i].req))
    && (forall i, j | 0 <= i < j < |tasks| :: Others(tasks[i].req, tasks[j].req))
  }

  predicate Others(q: Request, r: Request) {
    q.Update? && r.Update? ==> q.movie != r.movie
  }

  lemma UpdateStep(svc: Service, s: Store, t: Store, tasks: seq<Task>, n: nat, max: nat)
    requires n < |tasks| && DistinctUpdates(svc, s, tasks) && Updated(svc, s, t, tasks, n, max) && Unique(svc, s)
    ensures Updated(svc, s, Invoke(svc, t, tasks[n].req, tasks[n].script, 0, max).store, tasks, n + 1, max)
  {
    hide Reaches, Serve, Invoke, KeyOf, MovieKey;
    var q := tasks[n].req;
    assert KeepsKey(svc, s, q);
    SameKeysUnique(svc, s, t);
    KeyHasColl(svc, s.movies[q.movie], t.movies[q.movie]);
    OtherKeepsKey(svc, s, t, q);
    ServeKeepsKey(svc, t, q);
    EffectIsDecided(svc, t, q, tasks[n].script, 0, max);
    assert t.movies[q.movie] == s.movies[q.movie];
  }

  lemma KeyHasColl(svc: Service, a: Movie, b: Movie)
    requires MovieKey(svc, a) == MovieKey(svc, b)
    ensures a.coll == b.coll
  {
  }

  lemma SameKeysUnique(svc: Service, s: Store, t: Store)
    requires Unique(svc, s) && t.movies.Keys == s.movies.Keys
    requires forall id | id in s.movies :: MovieKey(svc, t.movies[id]) == MovieKey(svc, s.movies[id])
    ensures Unique(svc, t)
  {
    hide MovieKey;
    forall a, b | a in t.movies && b in t.movies && MovieKey(svc, t.movies[a]) == MovieKey(svc, t.movies[b])
      ensures a == b
    {
      assert a in s.movies && b in s.movies;
    }
  }

  lemma {:induction false} UpdatesRun(svc: Service, s: Store, tasks: seq<Task>, n: nat, max: nat)
    requires n <= |tasks| && DistinctUpdates(svc, s, tasks) && Unique(svc, s)
    ensures Updated(svc, s, InOrder(svc, s, tasks[..n], max).0, tasks, n, max)
  {
    if n == 0 {
      hide KeepsKey;
    } else {
      hide Updated, KeepsKey, Unique, Reaches, Invoke;
      UpdatesRun(svc, s, tasks, n - 1, max);
      assert tasks[..n][..n - 1] == tasks[..n - 1];
      UpdateStep(svc, s, InOrder(svc, s, tasks[..n - 1], max).0, tasks, n - 1, max);
    }
  }

  lemma UpdatesAreIndependent(svc: Service, s: Store, tasks: seq<Task>)
    requires DistinctUpdates(svc, s, tasks) && Unique(svc, s)
    ensures Independent(svc, s, tasks)
  {
    hide KeyOf, MovieKey;
    forall i, j | 0 <= i < j < |tasks|
      ensures Deferrable(tasks[i].req) && Deferrable(tasks[j].req)
      ensures Disjoint(Prints(svc, s, tasks, i), Prints(svc, s, tasks, j))
    {
      assert KeepsKey(svc, s, tasks[i].req) && KeepsKey(svc, s, tasks[j].req);
    }
    forall i | 0 <= i < |tasks| ensures Deferrable(tasks[i].req) {
      assert KeepsKey(svc, s, tasks[i].req);
    }
  }

  // ----- the whole plan -----

  /** The documents of the updates leave the keys of their movies alone. */
  ghost predicate UpdatesKeepKeys(g: Setting, p: Proposal, s: Store) {
    forall i | 0 <= i < |p.items| && p.items[i].op.OpUpdate? :: CarriesItsKey(g.svc, p.items[i], s)
  }

  predicate CarriesItsKey(svc: Service, item: Item, s: Store) {
    && item.payload.Some? && item.movie in s.movies
    && KeyOf(svc, item.coll, item.payload.value) == MovieKey(svc, s.movies[item.movie])
  }

  function UpdateOf(item: Item): Request
    requires item.payload.Some?
  {
    Update(item.coll, item.movie, item.payload.value)
  }

  /** What waits after the scan is the update of an item. */
  lemma TaskOfPlan(g: Setting, p: Proposal, s: Store, src: Id, i: nat)
    requires Plan(g, p, s, src) && UpdatesKeepKeys(g, p, s) && i < |ScanTo(g, p, s, |p.items|).tasks|
    ensures var st := ScanTo(g, p, s, |p.items|);
            && |st.positions| == |st.tasks| && st.positions[i] < |p.items|
            && var item := p.items[st.positions[i]];
               && item.op.OpUpdate? && item.payload.Some?
               && st.tasks[i] == Task(UpdateOf(item), g.env(st.positions[i], 0))
               && KeepsKey(g.svc, st.store, st.tasks[i].req)
               && item.movie in s.movies && st.store.movies[item.movie] == s.movies[item.movie]
  {
    hide ScanTo, Unique, KeyOf, MovieKey;
    ScanShape(g, p, s, |p.items|);
    var st := ScanTo(g, p, s, |p.items|);
    var k := st.positions[i];
    assert TaskOf(p.items[k], st.tasks[i].req);
    assert PlannedItem(p.items[k], src);
    ScanFate(g, p, s, |p.items|, src, k);
    assert CarriesItsKey(g.svc, p.items[k], s);
  }

  lemma TasksOfPlan(g: Setting, p: Proposal, s: Store, src: Id)
    requires Plan(g, p, s, src) && UpdatesKeepKeys(g, p, s)
    ensures var st := ScanTo(g, p, s, |p.items|);
            && DistinctUpdates(g.svc, st.store, st.tasks) && Unique(g.svc, st.store)
            && Independent(g.svc, st.store, st.tasks)
  {
    var st := ScanTo(g, p, s, |p.items|);
    forall i | 0 <= i < |st.tasks|
      ensures KeepsKey(g.svc, st.store, st.tasks[i].req)
    {
      TaskOfPlan(g, p, s, src, i);
    }
    forall i, j | 0 <= i < j < |st.tasks|
      ensures Others(st.tasks[i].req, st.tasks[j].req)
    {
      TaskOfPlan(g, p, s, src, i);
      TaskOfPlan(g, p, s, src, j);
      PlacesAscend(g, p, s, i, j);
    }
    StoreOfScan(g, p, s, src);
    UpdatesAreIndependent(g.svc, st.store, st.tasks);
  }

  lemma PlacesAscend(g: Setting, p: Proposal, s: Store, i: nat, j: nat)
    requires i < j < |ScanTo(g, p, s, |p.items|).tasks|
    ensures var st := ScanTo(g, p, s, |p.items|); |st.tasks| == |st.positions| && st.positions[i] < st.positions[j]
  {
    ScanShape(g, p, s, |p.items|);
  }

  lemma {:induction false} StoreOfScan(g: Setting, p: Proposal, s: Store, src: Id)
    requires Plan(g, p, s, src)
    ensures Unique(g.svc, ScanTo(g, p, s, |p.items|).store)
  {
    if |p.items| > 0 {
      ScanFate(g, p, s, |p.items|, src, 0);
    }
  }

  /** The place of a result in the merged outcomes. */
  lemma {:induction false} MergeAt(outcomes: map<nat, Outcome>, positions: seq<nat>, results: seq<Outcome>, i: nat)
    requires |positions| == |results| && i < |positions|
    requires forall a, b | 0 <= a < b < |positions| :: positions[a] < positions[b]
    ensures var log := Merge(outcomes, positions, results); positions[i] in log && log[positions[i]] == results[i]
  {
    var n := |positions| - 1;
    if i < n {
      MergeAt(outcomes, positions[..n], results[..n], i);
    }
  }

  lemma UpdateItem(g: Setting, p: Proposal, st: Scan, n: nat, src: Id)
    requires n < |p.items| && PlannedItem(p.items[n], src) && p.items[n].op.OpUpdate? && !Dropped(g, p.items[n])
    requires |st.tasks| == |st.positions| && n !in st.outcomes
    ensures WaitsAs(g, ScanItem(g, p, st, n), n, UpdateOf(p.items[n]))
  {
    var item, st' := p.items[n], ScanItem(g, p, st, n);
    assert st'.positions[|st.positions|] == n;
    assert st'.tasks[|st.tasks|] == Task(UpdateOf(item), g.env(n, 0));
  }

  /** Every update of the plan is sent. */
  lemma UpdateIsSent(g: Setting, p: Proposal, s: Store, src: Id, k: nat)
    requires Plan(g, p, s, src) && k < |p.items| && p.items[k].op.OpUpdate?
    ensures p.items[k].payload.Some? && WaitsAs(g, ScanTo(g, p, s, |p.items|), k, UpdateOf(p.items[k]))
  {
    hide ScanItem, StartScan, WaitsAs, Deferrable, TaskOf, Unique;
    assert PlannedItem(p.items[k], src);
    NotDropped(g, p, s, src, k);
    ScanShape(g, p, s, k);
    UpdateItem(g, p, ScanTo(g, p, s, k), k, src);
    WaitsOn(g, p, s, k + 1, |p.items|, k, UpdateOf(p.items[k]));
  }

  /** An update of the plan: the movie is stored with its new document exactly when some attempt reached the
      service, and as it was otherwise; it is listed as applied exactly when it was answered. */
  lemma UpdateOfPlan(g: Setting, p: Proposal, s: Store, src: Id, k: nat)
    requires Plan(g, p, s, src) && UpdatesKeepKeys(g, p, s) && k < |p.items| && p.items[k].op.OpUpdate?
    ensures var (t, log) := Sequentially(g, p, s);
            var item, script := p.items[k], g.env(k, 0);
            && item.payload.Some? && item.movie in s.movies && item.movie in t.movies && k in log
            && t.movies[item.movie] == (if Reaches(script, 0, g.max) then Movie(src, item.payload.value)
                                        else s.movies[item.movie])
            && (log[k].Applied? <==> Answered(script, 0, g.max))
  {
    hide ScanTo, Unique, Independent, KeyOf, MovieKey, Reaches, Answered, AnsweredAtOnce, Invoke, Serve;
    var n, item := |p.items|, p.items[k];
    var st := ScanTo(g, p, s, n);
    UpdateIsSent(g, p, s, src, k);
    var i :| 0 <= i < |st.tasks| && i < |st.positions| && st.positions[i] == k
             && st.tasks[i] == Task(UpdateOf(item), g.env(k, 0));
    TaskOfPlan(g, p, s, src, i);
    TasksOfPlan(g, p, s, src);
    var results := InOrder(g.svc, st.store, st.tasks, g.max).1;
    TaskIsDone(g.svc, st.store, st.tasks, i, g.max);
    ScanShape(g, p, s, n);
    MergeAt(st.outcomes, st.positions, results, i);
    assert PlannedItem(item, src);
    hide Sorted, Plan, UpdatesKeepKeys, PlannedItem, InOrder, Merge, DistinctUpdates;
  }

  /** One of the updates, run among the others. */
  lemma TaskIsDone(svc: Service, s: Store, tasks: seq<Task>, i: nat, max: nat)
    requires i < |tasks| && DistinctUpdates(svc, s, tasks) && Unique(svc, s)
    ensures var (t, results) := InOrder(svc, s, tasks, max);
            && UpdateDone(svc, s, t, tasks[i], max)
            && (results[i].Applied? <==> Answered(tasks[i].script, 0, max))
  {
    hide Reaches, Answered, Serve, Invoke, KeyOf, MovieKey, Unique, KeepsKey;
    assert tasks[..|tasks|] == tasks;
    UpdatesRun(svc, s, tasks, |tasks|, max);
    UpdatesAreIndependent(svc, s, tasks);
    InOrderUpTo(svc, s, tasks, |tasks|, max);
    assert KeepsKey(svc, s, tasks[i].req);
    UpdateIsReported(svc, s, tasks[i].req, tasks[i].script, max);
    hide Independent, DistinctUpdates, InOrder, Progress;
  }

  lemma UpdateIsReported(svc: Service, s: Store, q: Request, script: Script, max: nat)
    requires KeepsKey(svc, s, q) && Unique(svc, s)
    ensures Executed(Invoke(svc, s, q, script, 0, max)).Applied? <==> Answered(script, 0, max)
  {
    hide Reaches, Answered, Serve, Invoke, KeyOf, MovieKey;
    ServeKeepsKey(svc, s, q);
    var t := Serve(svc, s, q).0;
    ServeKeepsUnique(svc, s, q);
    OtherKeepsKey(svc, s, t, q);
    ServeKeepsKey(svc, t, q);
    assert t.movies[q.movie := Movie(q.coll, q.doc)] == t.movies;
    RepeatIsReported(svc, s, q, q.movie, script, 0, max);
  }

  lemma RemovalOutcome(g: Setting, p: Proposal, st: Scan, k: nat, src: Id)
    requires k < |p.items| && PlannedItem(p.items[k], src) && p.items[k].op.OpRemove? && !Dropped(g, p.items[k])
    requires src in st.store.collections && p.items[k].movie in st.store.movies
             && st.store.movies[p.items[k].movie].coll == src
    ensures var outcomes, script := ScanItem(g, p, st, k).outcomes, g.env(k, 0);
            && k in outcomes
            && (outcomes[k].Applied? <==> AnsweredAtOnce(script, 0, g.max))
            && (outcomes[k].SkippedMissing? <==> Answered(script, 0, g.max) && !AnsweredAtOnce(script, 0, g.max))
  {
    var q := Remove(src, p.items[k].movie);
    RemovesOnce(g.svc, st.store, src, p.items[k].movie);
    OnceIsReported(g.svc, st.store, q, p.items[k].movie, 404, g.env(k, 0), 0, g.max);
    hide Serve, Invoke, Reaches, Answered, AnsweredAtOnce;
  }

  lemma RemovesOnce(svc: Service, s: Store, src: Id, movie: Id)
    requires src in s.collections && movie in s.movies && s.movies[movie].coll == src
    ensures var (t, r) := Serve(svc, s, Remove(src, movie));
            r == Done(movie) && Serve(svc, t, Remove(src, movie)) == (t, Status(404))
  {
  }

  /** A removal of the plan: the movie is gone exactly when some attempt reached the service, and as it was
      otherwise; it is listed as applied exactly when it was answered at once, as missing when it was answered after
      an attempt that had removed it already. */
  lemma RemovalOfPlan(g: Setting, p: Proposal, s: Store, src: Id, k: nat)
    requires Plan(g, p, s, src) && UpdatesKeepKeys(g, p, s) && k < |p.items| && p.items[k].op.OpRemove?
    ensures var (t, log) := Sequentially(g, p, s);
            var id, script := p.items[k].movie, g.env(k, 0);
            && (if Reaches(script, 0, g.max) then id !in t.movies else Same(s, t, id))
            && k in log
            && (log[k].Applied? <==> AnsweredAtOnce(script, 0, g.max))
            && (log[k].SkippedMissing? <==> Answered(script, 0, g.max) && !AnsweredAtOnce(script, 0, g.max))
  {
    hide ScanItem, StartScan, Unique, Independent, KeyOf, MovieKey, Reaches, Answered, AnsweredAtOnce, Serve, Invoke,
        InOrder, Merge, DistinctUpdates, Same, Deferrable, TaskOf;
    var n, item := |p.items|, p.items[k];
    var before, st := ScanTo(g, p, s, k), ScanTo(g, p, s, n);
    assert PlannedItem(item, src);
    NotDropped(g, p, s, src, k);
    ScanFate(g, p, s, k, src, k);
    AsStored(g, s, before.store, item, k);
    RemovalOutcome(g, p, before, k, src);
    ScanGrows(g, p, s, k + 1, n);
    ScanFate(g, p, s, n, src, k);
    OthersAreSpared(g, p, s, src, k);
    ScanShape(g, p, s, n);
    MergeKeys(st.outcomes, st.positions, InOrder(g.svc, st.store, st.tasks, g.max).1);
    if !Reaches(g.env(k, 0), 0, g.max) {
      SameTwice(s, st.store, Sequentially(g, p, s).0, item.movie);
    }
    hide Sorted, Plan, UpdatesKeepKeys, PlannedItem, Grows;
  }

  lemma AsStored(g: Setting, s: Store, t: Store, item: Item, pos: nat)
    requires Fate(g, s, t, item, pos, false) && item.movie in s.movies
    ensures item.movie in t.movies && t.movies[item.movie] == s.movies[item.movie]
  {
  }

  lemma SpareOthers(svc: Service, s: Store, t: Store, tasks: seq<Task>, max: nat, id: Id)
    requires Updated(svc, s, t, tasks, |tasks|, max) && forall i | 0 <= i < |tasks| :: !Names(tasks[i].req, id)
    ensures Same(s, t, id) && (id in s.movies <==> id in t.movies)
  {
    hide KeepsKey, Names, Reaches, MovieKey;
    assert id in s.movies ==> t.movies[id] == s.movies[id];
  }

  /** The updates leave the movie of a removal alone. */
  lemma OthersAreSpared(g: Setting, p: Proposal, s: Store, src: Id, k: nat)
    requires Plan(g, p, s, src) && UpdatesKeepKeys(g, p, s) && k < |p.items| && !p.items[k].op.OpUpdate?
    ensures var st, id := ScanTo(g, p, s, |p.items|), p.items[k].movie;
            var t := InOrder(g.svc, st.store, st.tasks, g.max).0;
            Same(st.store, t, id) && (id in st.store.movies <==> id in t.movies)
  {
    hide ScanTo, Unique, Updated, DistinctUpdates, InOrder, KeyOf, MovieKey, Same, KeepsKey;
    var st, id := ScanTo(g, p, s, |p.items|), p.items[k].movie;
    TasksOfPlan(g, p, s, src);
    assert st.tasks[..|st.tasks|] == st.tasks;
    UpdatesRun(g.svc, st.store, st.tasks, |st.tasks|, g.max);
    forall i | 0 <= i < |st.tasks|
      ensures !Names(st.tasks[i].req, id)
    {
      TaskOfPlan(g, p, s, src, i);
    }
    SpareOthers(g.svc, st.store, InOrder(g.svc, st.store, st.tasks, g.max).0, st.tasks, g.max, id);
  }

  /** A movie no item names, and no move inserts, stays as it is. */
  lemma UnnamedIsSpared(g: Setting, p: Proposal, s: Store, src: Id, id: Id)
    requires Plan(g, p, s, src) && UpdatesKeepKeys(g, p, s) && Unnamed(g, p, id, 0, |p.items|)
    ensures Same(s, Sequentially(g, p, s).0, id)
  {
    hide ScanTo, Unique, Updated, DistinctUpdates, InOrder, KeyOf, MovieKey, Same, KeepsKey, Merge;
    var st := ScanTo(g, p, s, |p.items|);
    TasksOfPlan(g, p, s, src);
    assert st.tasks[..|st.tasks|] == st.tasks;
    UpdatesRun(g.svc, st.store, st.tasks, |st.tasks|, g.max);
    forall i | 0 <= i < |st.tasks|
      ensures !Names(st.tasks[i].req, id)
    {
      TaskOfPlan(g, p, s, src, i);
    }
    var t := InOrder(g.svc, st.store, st.tasks, g.max).0;
    SpareOthers(g.svc, st.store, t, st.tasks, g.max, id);
    ScanStarts(g, p, s);
    SparedBetween(g, p, s, 0, |p.items|, src, id);
    SameTwice(s, st.store, t, id);
    ScanShape(g, p, s, |p.items|);
    hide Plan, UpdatesKeepKeys, Unnamed;
  }
}
