/**
 The writes of an import as the approval gate runs them: they cannot get in each other's way, and
 whatever replies are lost, what is stored afterwards is what some of the planned writes leave.
 */
module ImportApplied {
  import opened Common
  import opened Text
  import opened TitleMatch
  import opened MovieStore
  import opened ToolCall
  import opened Independence
  import opened Proposals
  import R = Reimport

  /** Titled movies the service calls duplicates are the same film to the planner. */
  lemma SameKeySameFilm(svc: Service, a: Movie, b: Movie)
    requires R.FoldRefines(svc) && "title" in a.attrs && "title" in b.attrs
    requires MovieKey(svc, a) == MovieKey(svc, b)
    ensures R.FilmIn(a) == R.FilmIn(b)
  {
    hide NormalizeTitle;
    var s, t := a.attrs["title"], b.attrs["title"];
    assert FoldTitle(svc, s) == FoldTitle(svc, t);
    assert Field(a.attrs, "year") == Field(b.attrs, "year");
    if s.Text? {
      assert svc.fold(s.s) == svc.fold(t.s);
    }
  }

  /** A movie standing for a wanted film has a title. */
  lemma WantedIsTitled(m: Movie, w: R.Want)
    requires R.Proper(w.row) && R.FilmIn(m) == R.Wanted(w)
    ensures "title" in m.attrs
  {
    NonBlankHasKey(w.row["title"].s);
    hide NormalizeTitle, Blank;
    assert R.Wanted(w).title == NormalizeTitle(w.row["title"].s);
    if "title" !in m.attrs {
      EmptyHasNoKey();
    }
  }

  lemma EmptyHasNoKey()
    ensures NormalizeTitle("") == ""
  {
  }

  /** Every movie a planned write reads or leaves behind stands for its film. */
  ghost predicate StandsFor(svc: Service, s: Store, w: R.Want, q: Request) {
    && Deferrable(q)
    && R.FilmIn(Movie(q.coll, q.doc)) == R.Wanted(w)
    && (Target(svc, q) in s.movies ==> R.FilmIn(s.movies[Target(svc, q)]) == R.Wanted(w))
  }

  lemma PlannedStandsFor(svc: Service, s: Store, targets: set<Id>, w: R.Want, q: Request)
    requires R.Clean(s, targets) && w.coll in targets && R.Proper(w.row) && R.PlannedAt(s, w, q)
    requires q.Add? ==> svc.mint(q.idem) !in s.movies
    ensures StandsFor(svc, s, w, q)
  {
    hide R.Target, R.FilmIn, R.Proper;
    var stored := R.Stored(s, R.Wanted(w));
    if stored.None? {
      R.TargetKeepsFilm(None, w);
    } else {
      var m := s.movies[q.movie];
      R.SameColl(m, w);
      R.StoredIs(s, targets, q.movie);
      assert m == Movie(w.coll, m.attrs);
      DocumentedHasNoIds(s, targets, q.movie);
      R.TargetKeepsFilm(stored, w);
    }
  }

  lemma DocumentedHasNoIds(s: Store, targets: set<Id>, id: Id)
    requires R.Clean(s, targets) && id in s.movies && s.movies[id].coll in targets
    ensures s.movies[id].attrs.Keys !! MOVIE_ID_FIELDS
  {
  }

  /** The keys a write may touch belong to movies of its own film. */
  lemma KeysOfFilm(svc: Service, s: Store, w: R.Want, q: Request, k: Key) returns (m: Movie)
    requires StandsFor(svc, s, w, q) && k in FootprintOf(svc, s, q).keys
    ensures MovieKey(svc, m) == k && R.FilmIn(m) == R.Wanted(w)
  {
    hide R.FilmIn, R.Wanted;
    if k == NewKey(svc, q) {
      m := Movie(q.coll, q.doc);
    } else {
      m := s.movies[Target(svc, q)];
    }
  }

  lemma DifferentFilmsAreDisjoint(svc: Service, s: Store, w: R.Want, q: Request, w': R.Want, q': Request)
    requires R.FoldRefines(svc) && R.Proper(w.row) && R.Proper(w'.row) && R.Wanted(w) != R.Wanted(w')
    requires Deferrable(q) && Deferrable(q') && StandsFor(svc, s, w, q) && StandsFor(svc, s, w', q')
    requires Target(svc, q) != Target(svc, q')
    ensures Disjoint(FootprintOf(svc, s, q), FootprintOf(svc, s, q'))
  {
    hide R.FoldRefines, R.Proper, R.FilmIn, R.Wanted, StandsFor;
    var a, b := FootprintOf(svc, s, q), FootprintOf(svc, s, q');
    forall k | k in a.keys
      ensures k !in b.keys
    {
      if k in b.keys {
        var m := KeysOfFilm(svc, s, w, q, k);
        var n := KeysOfFilm(svc, s, w', q', k);
        WantedIsTitled(m, w);
        WantedIsTitled(n, w');
        SameKeySameFilm(svc, m, n);
      }
    }
  }

  /** Each task is the write planned at a place of its own, in whatever order and however few of them. */
  ghost predicate Carry(tasks: seq<Task>, plan: seq<Request>, places: seq<nat>) {
    && |places| == |tasks|
    && (forall i | 0 <= i < |tasks| :: places[i] < |plan| && tasks[i].req == plan[places[i]])
    && (forall i, j | 0 <= i < j < |places| :: places[i] != places[j])
  }

  lemma DifferentTargets(svc: Service, s: Store, w: R.Want, q: Request, w': R.Want, q': Request)
    requires StandsFor(svc, s, w, q) && StandsFor(svc, s, w', q') && R.Wanted(w) != R.Wanted(w')
    requires q.Add? ==> Target(svc, q) !in s.movies
    requires q'.Add? ==> Target(svc, q') !in s.movies
    requires q.Add? && q'.Add? ==> svc.mint(q.idem) != svc.mint(q'.idem)
    requires q.Update? ==> Target(svc, q) in s.movies
    requires q'.Update? ==> Target(svc, q') in s.movies
    ensures Target(svc, q) != Target(svc, q')
  {
    hide R.FilmIn, R.Wanted;
  }

  lemma PlannedTargets(svc: Service, s: Store, w: R.Want, q: Request)
    requires R.PlannedAt(s, w, q)
    ensures q.Add? || q.Update?
    ensures q.Update? ==> q.movie in s.movies
  {
    hide R.FilmIn, R.Wanted, R.Target;
  }

  /** Two planned writes cannot get in each other's way. */
  lemma PlannedAreDisjoint(svc: Service, s: Store, targets: set<Id>, wants: seq<R.Want>, plan: seq<Request>, i: nat, j: nat)
    requires R.Ready(svc, s, targets, wants, plan) && i < j < |plan|
    ensures Deferrable(plan[i]) && Deferrable(plan[j])
    ensures Disjoint(FootprintOf(svc, s, plan[i]), FootprintOf(svc, s, plan[j]))
  {
    hide R.FoldRefines, R.Clean, R.Proper, R.PlannedAt, StandsFor, R.Wanted, FootprintOf, Disjoint, Target;
    PlaceStandsFor(svc, s, targets, wants, plan, i);
    PlaceStandsFor(svc, s, targets, wants, plan, j);
    assert wants[i] in wants && wants[j] in wants;
    TargetsOf(svc, plan[i]);
    TargetsOf(svc, plan[j]);
    DifferentTargets(svc, s, wants[i], plan[i], wants[j], plan[j]);
    DifferentFilmsAreDisjoint(svc, s, wants[i], plan[i], wants[j], plan[j]);
  }

  lemma PlaceStandsFor(svc: Service, s: Store, targets: set<Id>, wants: seq<R.Want>, plan: seq<Request>, i: nat)
    requires R.Ready(svc, s, targets, wants, plan) && i < |plan|
    ensures StandsFor(svc, s, wants[i], plan[i]) && Deferrable(plan[i]) && (plan[i].Update? ==> plan[i].movie in s.movies)
  {
    hide R.FoldRefines, R.Clean, R.Proper, R.PlannedAt, R.Wanted, Target, R.FilmIn;
    assert wants[i] in wants && R.PlannedAt(s, wants[i], plan[i]);
    PlannedTargets(svc, s, wants[i], plan[i]);
    PlannedStandsFor(svc, s, targets, wants[i], plan[i]);
  }

  /** The writes of an import are independent, so the concurrent pass runs them as if one by one. */
  lemma ImportIsIndependent(svc: Service, s: Store, targets: set<Id>, wants: seq<R.Want>, plan: seq<Request>,
      tasks: seq<Task>, places: seq<nat>)
    requires R.Ready(svc, s, targets, wants, plan) && Carry(tasks, plan, places)
    ensures Independent(svc, s, tasks)
  {
    hide R.Ready, FootprintOf, Disjoint;
    assert |plan| == |wants| by { AsManyPlanned(svc, s, targets, wants, plan); }
    forall i | 0 <= i < |tasks|
      ensures Deferrable(tasks[i].req)
    {
      PlaceStandsFor(svc, s, targets, wants, plan, places[i]);
    }
    forall i, j | 0 <= i < j < |tasks|
      ensures Disjoint(FootprintOf(svc, s, tasks[i].req), FootprintOf(svc, s, tasks[j].req))
    {
      if places[i] < places[j] {
        PlannedAreDisjoint(svc, s, targets, wants, plan, places[i], places[j]);
      } else {
        PlannedAreDisjoint(svc, s, targets, wants, plan, places[j], places[i]);
        DisjointIsMutual(FootprintOf(svc, s, tasks[i].req), FootprintOf(svc, s, tasks[j].req));
      }
    }
  }

  lemma DisjointIsMutual(a: Footprint, b: Footprint)
    ensures Disjoint(a, b) <==> Disjoint(b, a)
  {
  }

  lemma AsManyPlanned(svc: Service, s: Store, targets: set<Id>, wants: seq<R.Want>, plan: seq<Request>)
    requires R.Ready(svc, s, targets, wants, plan)
    ensures |plan| == |wants|
  {
  }

  lemma TargetsOf(svc: Service, q: Request)
    requires Deferrable(q)
    ensures Target(svc, q) == if q.Add? then svc.mint(q.idem) else q.movie
  {
  }

  // ----- lost replies leave some of the planned writes -----

  /** The places whose write reaches the service, in the order the tasks run. */
  ghost function Arrived(tasks: seq<Task>, places: seq<nat>, max: nat): (steps: seq<nat>)
    requires |places| == |tasks|
    ensures forall k | 0 <= k < |steps| :: steps[k] in places
  {
    if tasks == [] then []
    else
      var n := |tasks| - 1;
      Arrived(tasks[..n], places[..n], max) + if Reaches(tasks[n].script, 0, max) then [places[n]] else []
  }

  lemma AppliedSnoc(svc: Service, s: Store, plan: seq<Request>, steps: seq<nat>, i: nat)
    requires i < |plan| && forall k | 0 <= k < |steps| :: steps[k] < |plan|
    ensures R.Applied(svc, s, plan, steps + [i]) == Serve(svc, R.Applied(svc, s, plan, steps), plan[i]).0
  {
    hide Serve;
    assert (steps + [i])[..|steps|] == steps;
  }

  /** Whatever calls fail, with or without effect: the store is the one the writes that reached the service
      leave, and which those are is known from the faults alone. */
  lemma {:induction false} InOrderIsApplied(svc: Service, s: Store, plan: seq<Request>, tasks: seq<Task>,
                                            places: seq<nat>, max: nat)
    requires Carry(tasks, plan, places)
    ensures InOrder(svc, s, tasks, max).0 == R.Applied(svc, s, plan, Arrived(tasks, places, max))
    decreases |tasks|
  {
    hide Serve, Invoke, Reaches;
    if tasks != [] {
      var n := |tasks| - 1;
      InOrderIsApplied(svc, s, plan, tasks[..n], places[..n], max);
      var t := InOrder(svc, s, tasks[..n], max).0;
      EffectIsDecided(svc, t, plan[places[n]], tasks[n].script, 0, max);
      AppliedSnoc(svc, s, plan, Arrived(tasks[..n], places[..n], max), places[n]);
      assert Arrived(tasks[..n], places[..n], max) + [] == Arrived(tasks[..n], places[..n], max);
    }
  }

  /** When every write reaches the service, all places are among them. */
  lemma {:induction false} AllArrive(tasks: seq<Task>, places: seq<nat>, max: nat)
    requires |places| == |tasks|
    requires forall i | 0 <= i < |tasks| :: Reaches(tasks[i].script, 0, max)
    ensures Arrived(tasks, places, max) == places
  {
    hide Reaches;
    if tasks != [] {
      var n := |tasks| - 1;
      AllArrive(tasks[..n], places[..n], max);
      assert places[..n] + [places[n]] == places;
    }
  }

  /**
   An import of which some writes were left out, failed, or failed only to report: planning the same rows
   again and applying that plan gives the movies of one import without faults.
   */
  lemma FaultyImportConverges(svc: Service, s: Store, targets: set<Id>, wants: seq<R.Want>,
                              listing: R.Reads, keys: R.Keys, tasks: seq<Task>, places: seq<nat>, max: nat,
                              listing': R.Reads, keys': R.Keys, again: seq<nat>, full: seq<nat>)
    requires R.FoldRefines(svc) && R.Clean(s, targets) && targets <= s.collections.Keys
    requires R.ProperWants(wants) && (forall w | w in wants :: w.coll in targets)
    requires R.AllRead(s, targets, listing) && R.FreshMints(svc, s, R.Plan(wants, listing, keys))
    requires Carry(tasks, R.Plan(wants, listing, keys), places)
    requires forall k | 0 <= k < |again| :: again[k] < |wants|
    requires forall k | 0 <= k < |full| :: full[k] < |wants|
    requires R.Covers(again, |wants|) && R.Covers(full, |wants|)
    requires var t := InOrder(svc, s, tasks, max).0;
             R.AllRead(t, targets, listing') && R.FreshMints(svc, t, R.Plan(wants, listing', keys'))
    ensures var t := InOrder(svc, s, tasks, max).0;
            R.SameMovies(R.Applied(svc, t, R.Plan(wants, listing', keys'), again),
                         R.Applied(svc, s, R.Plan(wants, listing, keys), full))
  {
    hide R.FoldRefines, R.Clean, R.AllRead, R.FreshMints, R.ProperWants, R.Covers, R.SameMovies, R.Applied, InOrder,
        Arrived;
    var plan := R.Plan(wants, listing, keys);
    InOrderIsApplied(svc, s, plan, tasks, places, max);
    R.ReimportConverges(svc, s, targets, wants, listing, keys, Arrived(tasks, places, max), listing', keys', again, full);
  }
}
