/**
 What an apply of an organize plan does to the movies it moves: where each of them is afterwards, and what is
 reported of it, follow from the store and the faults.
 */
module PlanMoves {
  import opened Common
  import opened Text
  import opened MovieStore
  import opened ToolCall
  import opened Independence
  import opened Proposals
  import opened ApplyGate
  import opened AddApplied
  import opened PlanApplied

  /** The key the movie has where it goes. */
  function DestKey(svc: Service, item: Item): Key
    requires item.payload.Some?
  {
    KeyOf(svc, item.dest, item.payload.value)
  }

  lemma AtOnceIsAnswered(script: Script, max: nat)
    ensures AnsweredAtOnce(script, 0, max) ==> Answered(script, 0, max)
  {
    if AnsweredAtOnce(script, 0, max) {
      var j: nat :| j <= max && FirstFruitful(script, 0, j) && script(j).Delivered?;
      assert FirstFinal(script, 0, j);
    }
  }

  /** The add half. */
  lemma AddHalf(g: Setting, s: Store, item: Item, pos: nat)
    requires item.payload.Some? && item.dest in s.collections && g.svc.mint(item.idem + ":add") !in s.movies
    ensures var (t, o) := Exec(g, s, MoveAdd(item), pos, 0);
            var key, id := DestKey(g.svc, item), g.svc.mint(item.idem + ":add");
            && (Landed(o) <==> Answered(g.env(pos, 0), 0, g.max))
            && t == (if !Holds(g.svc, s, key) && Reaches(g.env(pos, 0), 0, g.max)
                     then s.(movies := s.movies[id := Movie(item.dest, item.payload.value)]) else s)
            && (Holds(g.svc, t, key) <==> Holds(g.svc, s, key) || Reaches(g.env(pos, 0), 0, g.max))
  {
    hide Invoke, Reaches, Answered, AnsweredAtOnce, Holds, KeyOf;
    AddIsReported(g.svc, s, item.dest, item.payload.value, item.idem + ":add", g.env(pos, 0), g.max);
    AtOnceIsAnswered(g.env(pos, 0), g.max);
    FilmIsHeld(g.svc, s, g.svc.mint(item.idem + ":add"), item.dest, item.payload.value);
  }

  /** A move to a collection that is not there. */
  lemma AddNowhere(g: Setting, s: Store, item: Item, pos: nat)
    requires item.payload.Some? && item.dest !in s.collections
    ensures var (t, o) := Exec(g, s, MoveAdd(item), pos, 0);
            t == s && !Landed(o) && !o.Applied? && (o.SkippedMissing? <==> Answered(g.env(pos, 0), 0, g.max))
  {
    hide Invoke, Reaches, Answered, AnsweredAtOnce, Holds, KeyOf;
    AddIsReported(g.svc, s, item.dest, item.payload.value, item.idem + ":add", g.env(pos, 0), g.max);
    var q := MoveAdd(item);
    IdleAnswer(g.svc, s, q, g.env(pos, 0), 0, g.max);
  }

  /** The remove half. */
  lemma RemoveHalf(g: Setting, s: Store, item: Item, pos: nat)
    requires item.coll in s.collections && item.movie in s.movies && s.movies[item.movie].coll == item.coll
    ensures var (t, o) := Exec(g, s, MoveRemove(item), pos, 1);
            && t == (if Reaches(g.env(pos, 1), 0, g.max) then s.(movies := s.movies - {item.movie}) else s)
            && (o.Applied? || o.SkippedMissing? <==> Answered(g.env(pos, 1), 0, g.max))
  {
    hide Invoke, Reaches, Answered, AnsweredAtOnce;
    var q := MoveRemove(item);
    RemovesOnce(g.svc, s, item.coll, item.movie);
    OnceIsReported(g.svc, s, q, item.movie, 404, g.env(pos, 1), 0, g.max);
    EffectIsDecided(g.svc, s, q, g.env(pos, 1), 0, g.max);
    AtOnceIsAnswered(g.env(pos, 1), g.max);
  }

  /** A key of another collection, after a removal. */
  lemma RemovalKeepsKey(svc: Service, s: Store, movie: Id, key: Key)
    requires movie in s.movies && s.movies[movie].coll != key.coll
    ensures Holds(svc, s.(movies := s.movies - {movie}), key) <==> Holds(svc, s, key)
  {
    var t := s.(movies := s.movies - {movie});
    if Holds(svc, s, key) {
      var id :| id in s.movies && MovieKey(svc, s.movies[id]) == key;
      assert id in t.movies && MovieKey(svc, t.movies[id]) == key;
    }
  }

  /** What the two halves of a move make of a store and of the movie. */
  ghost predicate Moved(g: Setting, item: Item, s: Store, t: Store, pos: nat, o: Outcome)
    requires item.payload.Some?
  {
    var add, remove := g.env(pos, 0), g.env(pos, 1);
    var key, id := DestKey(g.svc, item), g.svc.mint(item.idem + ":add");
    if item.dest in s.collections then
      && (Holds(g.svc, t, key) <==> Holds(g.svc, s, key) || Reaches(add, 0, g.max))
      && (!Holds(g.svc, s, key) && Reaches(add, 0, g.max) ==>
            id in t.movies && t.movies[id] == Movie(item.dest, item.payload.value))
      && (if Answered(add, 0, g.max) && Reaches(remove, 0, g.max) then item.movie !in t.movies else Same(s, t, item.movie))
      && (o.Applied? <==> Answered(add, 0, g.max) && Answered(remove, 0, g.max))
    else
      && Same(s, t, item.movie) && !o.Applied? && (o.SkippedMissing? <==> Answered(add, 0, g.max))
  }

  lemma MoveItem(g: Setting, p: Proposal, st: Scan, pos: nat, src: Id)
    requires pos < |p.items| && PlannedItem(p.items[pos], src) && p.items[pos].op.OpMove? && !Dropped(g, p.items[pos])
    requires src in st.store.collections && g.svc.mint(p.items[pos].idem + ":add") !in st.store.movies
    requires p.items[pos].movie in st.store.movies && st.store.movies[p.items[pos].movie].coll == src
    ensures var st' := ScanItem(g, p, st, pos);
            pos in st'.outcomes && Moved(g, p.items[pos], st.store, st'.store, pos, st'.outcomes[pos])
  {
    hide Exec, Reaches, Answered, KeyOf, Holds;
    var item, s := p.items[pos], st.store;
    if item.dest in s.collections {
      AddHalf(g, s, item, pos);
      var s1 := Exec(g, s, MoveAdd(item), pos, 0).0;
      RemoveHalf(g, s1, item, pos);
      KeyColl(g.svc, item);
      RemovalKeepsKey(g.svc, s1, item.movie, DestKey(g.svc, item));
    } else {
      AddNowhere(g, s, item, pos);
    }
  }

  lemma KeyColl(svc: Service, item: Item)
    requires item.payload.Some?
    ensures DestKey(svc, item).coll == item.dest
  {
  }

  // ----- a key of another collection, during the scan -----

  lemma ServeSparesKey(svc: Service, s: Store, q: Request, key: Key)
    requires (q.Remove? && q.coll != key.coll) || (q.Add? && KeyOf(svc, q.coll, q.doc) != key)
    ensures Holds(svc, Serve(svc, s, q).0, key) <==> Holds(svc, s, key)
  {
    var t := Serve(svc, s, q).0;
    if Holds(svc, s, key) {
      var id :| id in s.movies && MovieKey(svc, s.movies[id]) == key;
      assert id in t.movies && MovieKey(svc, t.movies[id]) == key;
    }
    if Holds(svc, t, key) {
      var id :| id in t.movies && MovieKey(svc, t.movies[id]) == key;
      assert id in s.movies && MovieKey(svc, s.movies[id]) == key;
    }
  }

  lemma ExecSparesKey(g: Setting, s: Store, q: Request, pos: nat, call: nat, key: Key)
    requires (q.Remove? && q.coll != key.coll) || (q.Add? && KeyOf(g.svc, q.coll, q.doc) != key)
    ensures Holds(g.svc, Exec(g, s, q, pos, call).0, key) <==> Holds(g.svc, s, key)
  {
    EffectIsDecided(g.svc, s, q, g.env(pos, call), 0, g.max);
    ServeSparesKey(g.svc, s, q, key);
    hide Serve, Invoke, Reaches, Holds;
  }

  lemma ItemSparesKey(g: Setting, p: Proposal, st: Scan, pos: nat, src: Id, key: Key)
    requires pos < |p.items| && PlannedItem(p.items[pos], src) && !Dropped(g, p.items[pos]) && key.coll != src
    requires p.items[pos].op.OpMove? ==> DestKey(g.svc, p.items[pos]) != key
    ensures Holds(g.svc, ScanItem(g, p, st, pos).store, key) <==> Holds(g.svc, st.store, key)
  {
    hide Exec, KeyOf, Holds;
    var item := p.items[pos];
    if item.op.OpRemove? {
      ExecSparesKey(g, st.store, Remove(src, item.movie), pos, 0, key);
    } else if item.op.OpMove? {
      ExecSparesKey(g, st.store, MoveAdd(item), pos, 0, key);
      ExecSparesKey(g, Exec(g, st.store, MoveAdd(item), pos, 0).0, MoveRemove(item), pos, 1, key);
    }
  }

  lemma PartsOfPlan(g: Setting, p: Proposal, s: Store, src: Id, k: nat)
    requires Plan(g, p, s, src) && k < |p.items|
    ensures PlannedItem(p.items[k], src) && !Dropped(g, p.items[k]) && src in s.collections
    ensures p.items[k].movie in s.movies && s.movies[p.items[k].movie].coll == src
  {
  }

  /** No move among the items from `m` to `n` inserts a movie with that key. */
  ghost predicate KeyUnused(g: Setting, p: Proposal, key: Key, m: nat, n: nat)
    requires n <= |p.items|
  {
    forall i | m <= i < n && p.items[i].op.OpMove? :: p.items[i].payload.Some? ==> DestKey(g.svc, p.items[i]) != key
  }

  lemma KeySparedAt(g: Setting, p: Proposal, s: Store, pos: nat, src: Id, key: Key)
    requires pos < |p.items| && Plan(g, p, s, src) && KeyUnused(g, p, key, pos, pos + 1) && key.coll != src
    ensures Holds(g.svc, ScanTo(g, p, s, pos + 1).store, key) <==> Holds(g.svc, ScanTo(g, p, s, pos).store, key)
  {
    hide ScanItem, Plan, Holds, DestKey;
    PartsOfPlan(g, p, s, src, pos);
    ItemSparesKey(g, p, ScanTo(g, p, s, pos), pos, src, key);
  }

  lemma {:induction false} KeySparedBetween(g: Setting, p: Proposal, s: Store, m: nat, n: nat, src: Id, key: Key)
    requires m <= n <= |p.items| && Plan(g, p, s, src) && KeyUnused(g, p, key, m, n) && key.coll != src
    ensures Holds(g.svc, ScanTo(g, p, s, n).store, key) <==> Holds(g.svc, ScanTo(g, p, s, m).store, key)
    decreases n
  {
    hide ScanTo, Plan, Holds, DestKey;
    if m < n {
      KeySparedBetween(g, p, s, m, n - 1, src, key);
      KeySparedAt(g, p, s, n - 1, src, key);
    }
  }

  // ----- a move among the other items of its plan -----

  /** Moves carry the keys of their movies. */
  ghost predicate MovesKeepKeys(g: Setting, p: Proposal, s: Store) {
    forall i | 0 <= i < |p.items| && p.items[i].op.OpMove? :: CarriesItsKey(g.svc, p.items[i], s)
  }

  /** Each insert gets an id of its own, not in use. */
  ghost predicate InsertsDiffer(g: Setting, p: Proposal, s: Store) {
    && (forall i | 0 <= i < |p.items| && p.items[i].op.OpMove? :: g.svc.mint(p.items[i].idem + ":add") !in s.movies)
    && (forall i, j | 0 <= i < |p.items| && 0 <= j < |p.items| && i != j && p.items[i].op.OpMove? && p.items[j].op.OpMove? ::
          g.svc.mint(p.items[i].idem + ":add") != g.svc.mint(p.items[j].idem + ":add"))
  }

  lemma InsertIsUnnamed(g: Setting, p: Proposal, s: Store, src: Id, k: nat, m: nat, n: nat)
    requires Plan(g, p, s, src) && InsertsDiffer(g, p, s) && k < |p.items| && p.items[k].op.OpMove?
    requires m <= n <= |p.items| && !(m <= k < n)
    ensures Unnamed(g, p, g.svc.mint(p.items[k].idem + ":add"), m, n)
  {
    hide Unique, PlannedItem;
  }

  lemma MovieIsUnnamed(g: Setting, p: Proposal, s: Store, src: Id, k: nat, m: nat, n: nat)
    requires Plan(g, p, s, src) && k < |p.items| && m <= n <= |p.items| && !(m <= k < n)
    ensures Unnamed(g, p, p.items[k].movie, m, n)
  {
    hide Unique, PlannedItem;
    forall i | m <= i < n
      ensures p.items[i].movie != p.items[k].movie
    {
      if i < k {
      } else {
        assert k < i;
      }
    }
  }

  /** Two movies of the source with different keys have different keys wherever they go. */
  lemma KeysStayApart(svc: Service, s: Store, a: Item, b: Item)
    requires CarriesItsKey(svc, a, s) && CarriesItsKey(svc, b, s) && a.coll == b.coll
    requires Unique(svc, s) && a.movie != b.movie
    ensures DestKey(svc, a) != DestKey(svc, b)
  {
  }

  lemma KeyIsUnused(g: Setting, p: Proposal, s: Store, src: Id, k: nat, m: nat, n: nat)
    requires Plan(g, p, s, src) && MovesKeepKeys(g, p, s) && k < |p.items| && p.items[k].op.OpMove?
    requires m <= n <= |p.items| && !(m <= k < n)
    ensures CarriesItsKey(g.svc, p.items[k], s) && KeyUnused(g, p, DestKey(g.svc, p.items[k]), m, n)
  {
    hide Unique, DestKey, CarriesItsKey;
    assert CarriesItsKey(g.svc, p.items[k], s) && PlannedItem(p.items[k], src);
    PayloadIsThere(g.svc, p.items[k], s);
    forall i | m <= i < n && p.items[i].op.OpMove?
      ensures p.items[i].payload.Some? ==> DestKey(g.svc, p.items[i]) != DestKey(g.svc, p.items[k])
    {
      assert CarriesItsKey(g.svc, p.items[i], s) && PlannedItem(p.items[i], src);
      MovieIsUnnamed(g, p, s, src, k, m, n);
      KeysStayApart(g.svc, s, p.items[i], p.items[k]);
    }
  }

  lemma PayloadIsThere(svc: Service, item: Item, s: Store)
    requires CarriesItsKey(svc, item, s)
    ensures item.payload.Some?
  {
  }

  /** The store before the move is reached is, for this move, the store of the start. */
  lemma BeforeMove(g: Setting, p: Proposal, s: Store, src: Id, k: nat)
    requires Plan(g, p, s, src) && MovesKeepKeys(g, p, s) && InsertsDiffer(g, p, s)
    requires k < |p.items| && p.items[k].op.OpMove?
    ensures var t, item := ScanTo(g, p, s, k).store, p.items[k];
            && item.payload.Some? && t.collections == s.collections
            && g.svc.mint(item.idem + ":add") !in t.movies && g.svc.mint(item.idem + ":add") !in s.movies
            && Same(s, t, item.movie)
            && (Holds(g.svc, t, DestKey(g.svc, item)) <==> Holds(g.svc, s, DestKey(g.svc, item)))
  {
    hide ScanItem, Unique, Holds, KeyUnused, Unnamed, CarriesItsKey;
    var item := p.items[k];
    ScanStarts(g, p, s);
    ScanFate(g, p, s, k, src, k);
    InsertIsUnnamed(g, p, s, src, k, 0, k);
    SparedBetween(g, p, s, 0, k, src, g.svc.mint(item.idem + ":add"));
    MovieIsUnnamed(g, p, s, src, k, 0, k);
    SparedBetween(g, p, s, 0, k, src, item.movie);
    KeyIsUnused(g, p, s, src, k, 0, k);
    PayloadIsThere(g.svc, item, s);
    assert PlannedItem(item, src);
    KeyColl(g.svc, item);
    KeySparedBetween(g, p, s, 0, k, src, DestKey(g.svc, item));
  }

  /** What is done to a move's movie and key in between keeps what the move has made of them. */
  lemma MovedOn(g: Setting, item: Item, s: Store, s': Store, t: Store, t': Store, pos: nat, o: Outcome)
    requires item.payload.Some? && Moved(g, item, s', t, pos, o)
    requires s.collections == s'.collections && Same(s, s', item.movie) && item.movie in s.movies
    requires Holds(g.svc, s', DestKey(g.svc, item)) <==> Holds(g.svc, s, DestKey(g.svc, item))
    requires Same(t, t', item.movie) && Same(t, t', g.svc.mint(item.idem + ":add"))
    requires Holds(g.svc, t', DestKey(g.svc, item)) <==> Holds(g.svc, t, DestKey(g.svc, item))
    ensures Moved(g, item, s, t', pos, o)
  {
    hide Holds, Reaches, Answered, DestKey;
  }

  /** The updates keep every key. */
  lemma UpdatesKeepHeld(svc: Service, s: Store, t: Store, tasks: seq<Task>, max: nat, key: Key)
    requires Updated(svc, s, t, tasks, |tasks|, max)
    ensures Holds(svc, t, key) <==> Holds(svc, s, key)
  {
    hide KeepsKey, Names, Reaches, MovieKey;
    if Holds(svc, s, key) {
      var id :| id in s.movies && MovieKey(svc, s.movies[id]) == key;
      assert id in t.movies && MovieKey(svc, t.movies[id]) == key;
    }
    if Holds(svc, t, key) {
      var id :| id in t.movies && MovieKey(svc, t.movies[id]) == key;
      assert id in s.movies && MovieKey(svc, s.movies[id]) == key;
    }
  }

  /** The store after the move is, for this move, the store of the end. */
  lemma AfterMove(g: Setting, p: Proposal, s: Store, src: Id, k: nat)
    requires Plan(g, p, s, src) && MovesKeepKeys(g, p, s) && InsertsDiffer(g, p, s) && UpdatesKeepKeys(g, p, s)
    requires k < |p.items| && p.items[k].op.OpMove?
    ensures var t, u, item := ScanTo(g, p, s, k + 1).store, Sequentially(g, p, s).0, p.items[k];
            && item.payload.Some?
            && Same(t, u, item.movie) && Same(t, u, g.svc.mint(item.idem + ":add"))
            && (Holds(g.svc, u, DestKey(g.svc, item)) <==> Holds(g.svc, t, DestKey(g.svc, item)))
  {
    hide ScanItem, Unique, Holds, KeyUnused, Unnamed, CarriesItsKey, InOrder, Merge, Updated, DistinctUpdates, Same,
        KeepsKey, Independent;
    var n, item := |p.items|, p.items[k];
    var insert := g.svc.mint(item.idem + ":add");
    var after, st := ScanTo(g, p, s, k + 1).store, ScanTo(g, p, s, n);
    var u := InOrder(g.svc, st.store, st.tasks, g.max).0;
    InsertIsUnnamed(g, p, s, src, k, k + 1, n);
    SparedBetween(g, p, s, k + 1, n, src, insert);
    MovieIsUnnamed(g, p, s, src, k, k + 1, n);
    SparedBetween(g, p, s, k + 1, n, src, item.movie);
    KeyIsUnused(g, p, s, src, k, k + 1, n);
    PayloadIsThere(g.svc, item, s);
    assert PlannedItem(item, src);
    KeyColl(g.svc, item);
    KeySparedBetween(g, p, s, k + 1, n, src, DestKey(g.svc, item));
    TasksOfPlan(g, p, s, src);
    assert st.tasks[..|st.tasks|] == st.tasks;
    UpdatesRun(g.svc, st.store, st.tasks, |st.tasks|, g.max);
    UpdatesKeepHeld(g.svc, st.store, u, st.tasks, g.max, DestKey(g.svc, item));
    forall i | 0 <= i < |st.tasks|
      ensures !Names(st.tasks[i].req, insert) && !Names(st.tasks[i].req, item.movie)
    {
      TaskOfPlan(g, p, s, src, i);
    }
    SpareOthers(g.svc, st.store, u, st.tasks, g.max, insert);
    SpareOthers(g.svc, st.store, u, st.tasks, g.max, item.movie);
    SameTwice(after, st.store, u, insert);
    SameTwice(after, st.store, u, item.movie);
    ScanShape(g, p, s, n);
  }

  /**
   A move of the plan.  The movie's key is in the collection it goes to exactly when it was there or some attempt
   to add it reached the service, and then with the very document it had; it is gone from the collection it came
   from exactly when the add was answered and some attempt to remove it reached the service; and the move is listed
   as applied exactly when both were answered.
   */
  lemma MoveOfPlan(g: Setting, p: Proposal, s: Store, src: Id, k: nat)
    requires Plan(g, p, s, src) && MovesKeepKeys(g, p, s) && InsertsDiffer(g, p, s) && UpdatesKeepKeys(g, p, s)
    requires k < |p.items| && p.items[k].op.OpMove?
    ensures var (t, log) := Sequentially(g, p, s);
            p.items[k].payload.Some? && k in log && Moved(g, p.items[k], s, t, k, log[k])
  {
    hide ScanItem, StartScan, Unique, Moved, Holds, Independent, Same, InOrder, Merge, Plan, MovesKeepKeys,
        UpdatesKeepKeys, InsertsDiffer, Deferrable, TaskOf, PlannedItem;
    var n, item := |p.items|, p.items[k];
    var before, after, st := ScanTo(g, p, s, k), ScanTo(g, p, s, k + 1), ScanTo(g, p, s, n);
    PartsOfPlan(g, p, s, src, k);
    BeforeMove(g, p, s, src, k);
    SameThere(s, before.store, item.movie);
    MoveItem(g, p, before, k, src);
    AfterMove(g, p, s, src, k);
    MovedOn(g, item, s, before.store, after.store, Sequentially(g, p, s).0, k, after.outcomes[k]);
    ScanGrows(g, p, s, k + 1, n);
    ScanShape(g, p, s, n);
    MergeKeys(st.outcomes, st.positions, InOrder(g.svc, st.store, st.tasks, g.max).1);
  }

  lemma SameThere(s: Store, t: Store, id: Id)
    requires Same(s, t, id) && id in s.movies
    ensures id in t.movies && t.movies[id] == s.movies[id]
  {
  }
}
