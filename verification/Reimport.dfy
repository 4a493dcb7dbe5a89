/**
 Importing again after an interruption.  A plan's writes may be applied in any order, partly, and more
 than once; planning the same rows again from what is then stored and applying that plan ends with the
 same movies as one uninterrupted import.
 */
module Reimport {
  import opened Common
  import opened Text
  import opened TitleMatch
  import opened MovieStore
  import opened Proposals
  import opened ImportPlan

  /** One row bound for a collection. */
  datatype Want = Want(coll: Id, row: Attrs)

  /** How the planner tells films apart. */
  datatype Film = Film(coll: Id, title: string, year: Option<int>)

  function FilmIn(m: Movie): Film {
    Film(m.coll, NormalizeTitle(TitleOf(m.attrs)), YearOf(m.attrs))
  }

  function Wanted(w: Want): Film {
    FilmIn(Movie(w.coll, w.row))
  }

  /** A row that passed the required-field check. */
  ghost predicate Proper(row: Attrs) {
    && "title" in row && row["title"].Text? && !Blank(row["title"].s)
    && "year" in row && row["year"].Num?
    && row.Keys !! MOVIE_ID_FIELDS
  }

  ghost predicate ProperWants(wants: seq<Want>) {
    && (forall w | w in wants :: Proper(w.row))
    && (forall i, j | 0 <= i < j < |wants| :: Wanted(wants[i]) != Wanted(wants[j]))
  }

  /** In the collections concerned, every movie has a year, no two movies are the same film, and no
      document carries an id field. */
  ghost predicate Clean(s: Store, targets: set<Id>) {
    Documented(s, targets) && NoTwins(s, targets)
  }

  ghost predicate Documented(s: Store, targets: set<Id>) {
    forall id | id in s.movies && s.movies[id].coll in targets ::
      YearOf(s.movies[id].attrs).Some? && s.movies[id].attrs.Keys !! MOVIE_ID_FIELDS
  }

  ghost predicate NoTwins(s: Store, targets: set<Id>) {
    forall a, b | a in s.movies && b in s.movies && s.movies[a].coll in targets ::
      FilmIn(s.movies[a]) == FilmIn(s.movies[b]) ==> a == b
  }

  /** Titles the service calls equal are equal to the planner. */
  ghost predicate FoldRefines(svc: Service) {
    forall a, b :: svc.fold(a) == svc.fold(b) ==> NormalizeTitle(a) == NormalizeTitle(b)
  }

  /** A case-insensitive service is such a service. */
  lemma CaseFoldRefines(svc: Service)
    requires forall t :: svc.fold(t) == Lower(t)
    ensures FoldRefines(svc)
  {
    forall a, b | svc.fold(a) == svc.fold(b)
      ensures NormalizeTitle(a) == NormalizeTitle(b)
    {
      CaseDoesNotMatter(a, b);
    }
  }

  // ----- reading and planning -----

  type Reads = map<Id, seq<Attrs>>

  function ReadsOf(listing: Reads, c: Id): seq<Attrs> {
    if c in listing then listing[c] else []
  }

  /** `docs` lists the movies of collection `c`, each once. */
  ghost predicate ReadOf(s: Store, c: Id, docs: seq<Attrs>) {
    && (forall i | 0 <= i < |docs| :: IsReadOf(s, c, docs[i]))
    && (forall id | id in s.movies && s.movies[id].coll == c :: AsRead(id, s.movies[id]) in docs)
    && (forall i, j | 0 <= i < j < |docs| :: docs[i] != docs[j])
  }

  ghost predicate IsReadOf(s: Store, c: Id, doc: Attrs) {
    exists id :: id in s.movies && s.movies[id].coll == c && doc == AsRead(id, s.movies[id])
  }

  ghost predicate AllRead(s: Store, targets: set<Id>, listing: Reads) {
    forall c | c in targets :: ReadOf(s, c, ReadsOf(listing, c))
  }

  function RequestFor(coll: Id, item: PlanItem): Request {
    if item.movieId.None? then Add(coll, item.payload, item.idem)
    else Update(coll, item.movieId.value, item.payload)
  }

  function PlanWant(w: Want, listing: Reads, idem: string -> string): Request {
    RequestFor(w.coll, PlanRow(w.row, ReadsOf(listing, w.coll), idem))
  }

  /** How each row names its idempotency key: a hash over its thread, its tab and the name of the item. */
  type Keys = nat -> string -> string

  function Plan(wants: seq<Want>, listing: Reads, keys: Keys): (plan: seq<Request>)
    ensures |plan| == |wants|
    ensures forall i | 0 <= i < |wants| :: plan[i] == PlanWant(wants[i], listing, keys(i))
  {
    seq(|wants|, i requires 0 <= i < |wants| => PlanWant(wants[i], listing, keys(i)))
  }

  /** What a row makes of what is stored for its film. */
  function Target(stored: Option<Attrs>, row: Attrs): Attrs {
    if stored.None? then Completed(row) else Overlaid(stored.value, row)
  }

  /** What is stored for a film. */
  ghost function Stored(s: Store, f: Film): (r: Option<Attrs>)
    ensures r.None? <==> forall id | id in s.movies :: FilmIn(s.movies[id]) != f
    ensures r.Some? ==> exists id :: id in s.movies && FilmIn(s.movies[id]) == f && s.movies[id].attrs == r.value
  {
    if exists id :: id in s.movies && FilmIn(s.movies[id]) == f then
      var id :| id in s.movies && FilmIn(s.movies[id]) == f;
      Some(s.movies[id].attrs)
    else None
  }

  /** A row laid twice over a document is the row laid once. */
  lemma TargetTwice(stored: Option<Attrs>, row: Attrs)
    ensures Target(Some(Target(stored, row)), row) == Target(stored, row)
  {
    hide IsBlank, DefaultsFor, DefaultedNames, Default;
  }

  lemma TargetKeepsFilm(stored: Option<Attrs>, w: Want)
    requires Proper(w.row)
    requires stored.Some? ==> FilmIn(Movie(w.coll, stored.value)) == Wanted(w) && stored.value.Keys !! MOVIE_ID_FIELDS
    ensures var doc := Target(stored, w.row);
            && FilmIn(Movie(w.coll, doc)) == Wanted(w)
            && doc.Keys !! MOVIE_ID_FIELDS
            && "title" in doc && doc["title"] == w.row["title"]
            && "year" in doc && doc["year"] == w.row["year"]
  {
    hide NormalizeTitle, Blank;
    NoIdDefaults();
    hide DefaultsFor, DefaultedNames;
  }

  lemma NoIdDefaults()
    ensures CreateDefaults().Keys !! MOVIE_ID_FIELDS
  {
    DefaultIsNoId("movieId");
    DefaultIsNoId("collectionId");
    DefaultIsNoId("_id");
    DefaultIsNoId("id");
    hide Default, DefaultedNames;
    assert forall a | a in CreateDefaults() :: Default(a).Some?;
  }

  lemma DefaultIsNoId(a: string)
    ensures a == "movieId" || a == "collectionId" || a == "_id" || a == "id" ==> Default(a).None?
  {
  }

  lemma ReadAgrees(id: Id, m: Movie, w: Want)
    requires Proper(w.row) && YearOf(m.attrs).Some? && m.coll == w.coll
    ensures Denotes(NormalizeTitle(TitleOf(w.row)), AsInt(Field(w.row, "year")))(AsRead(id, m))
            <==> FilmIn(m) == Wanted(w)
  {
    hide NormalizeTitle, Blank;
    assert TitleOf(AsRead(id, m)) == TitleOf(m.attrs);
    assert YearOf(AsRead(id, m)) == YearOf(m.attrs);
  }

  lemma SameRead(a: Id, m: Movie, b: Id, n: Movie)
    requires AsRead(a, m) == AsRead(b, n)
    ensures a == b
  {
    assert AsRead(a, m)["movieId"] == Value.Text(a) && AsRead(b, n)["movieId"] == Value.Text(b);
  }

  lemma SamePlace<T>(xs: seq<T>, i: nat, j: nat)
    requires i < |xs| && j < |xs| && xs[i] == xs[j]
    requires forall a, b | 0 <= a < b < |xs| :: xs[a] != xs[b]
    ensures i == j
  {
  }

  lemma MatchesStored(s: Store, docs: seq<Attrs>, targets: set<Id>, w: Want, id: Id)
    requires Clean(s, targets) && w.coll in targets && ReadOf(s, w.coll, docs) && Proper(w.row)
    requires id in s.movies && FilmIn(s.movies[id]) == Wanted(w)
    ensures MatchScan(TitleOf(w.row), Field(w.row, "year"), docs) == Some(AsRead(id, s.movies[id]))
  {
    var m := s.movies[id];
    var title, year := TitleOf(w.row), Field(w.row, "year");
    assert m.coll == w.coll && !Blank(title);
    NonBlankHasKey(title);
    hide Denotes, FilmIn, AsRead, Proper, Blank, TitleOf, Field;
    assert AsRead(id, m) in docs;
    var i :| 0 <= i < |docs| && docs[i] == AsRead(id, m);
    forall j | 0 <= j < |docs|
      ensures Denotes(NormalizeTitle(title), AsInt(year))(docs[j]) <==> j == i
    {
      assert IsReadOf(s, w.coll, docs[j]);
      var b :| b in s.movies && s.movies[b].coll == w.coll && docs[j] == AsRead(b, s.movies[b]);
      ReadAgrees(b, s.movies[b], w);
      if docs[j] == docs[i] {
        SamePlace(docs, i, j);
        SameRead(id, m, b, s.movies[b]);
      }
    }
    MatchIsTheOnlyOne(title, year, docs, i);
  }

  lemma PlansUpdate(s: Store, docs: seq<Attrs>, targets: set<Id>, w: Want, id: Id, idem: string -> string)
    requires Clean(s, targets) && w.coll in targets && ReadOf(s, w.coll, docs) && Proper(w.row)
    requires id in s.movies && FilmIn(s.movies[id]) == Wanted(w)
    ensures RequestFor(w.coll, PlanRow(w.row, docs, idem))
            == Update(w.coll, id, Target(Some(s.movies[id].attrs), w.row))
  {
    var m := s.movies[id];
    assert m.coll == w.coll && m.attrs.Keys !! MOVIE_ID_FIELDS;
    MatchesStored(s, docs, targets, w, id);
    ComposeUnchanged(id, m);
    assert Field(AsRead(id, m), "movieId") == Value.Text(id);
    hide MatchScan, Completed, ItemId, ComposePayload, Overlaid, ReadOf, Clean, AsRead, TitleOf, Proper, FilmIn;
  }

  lemma PlansCreate(s: Store, docs: seq<Attrs>, targets: set<Id>, w: Want, idem: string -> string)
    requires Clean(s, targets) && w.coll in targets && ReadOf(s, w.coll, docs) && Proper(w.row)
    requires forall id | id in s.movies :: FilmIn(s.movies[id]) != Wanted(w)
    ensures RequestFor(w.coll, PlanRow(w.row, docs, idem)) == Add(w.coll, Target(None, w.row), idem(ItemId(w.row)))
  {
    var title, year := TitleOf(w.row), Field(w.row, "year");
    forall doc | doc in docs
      ensures !Denotes(NormalizeTitle(title), AsInt(year))(doc)
    {
      hide Denotes, FilmIn, AsRead, Proper;
      assert IsReadOf(s, w.coll, doc);
      var b :| b in s.movies && s.movies[b].coll == w.coll && doc == AsRead(b, s.movies[b]);
      ReadAgrees(b, s.movies[b], w);
    }
    NoMatch(title, year, docs);
    hide MatchScan, Completed, ItemId;
  }

  // ----- applying -----

  /** The writes at the given places of the plan, in that order. */
  function Applied(svc: Service, s: Store, plan: seq<Request>, steps: seq<nat>): Store
    requires forall k | 0 <= k < |steps| :: steps[k] < |plan|
  {
    if steps == [] then s
    else
      var n := |steps| - 1;
      Serve(svc, Applied(svc, s, plan, steps[..n]), plan[steps[n]]).0
  }

  /** Ids the service would hand out to this plan's creates are new and different. */
  ghost predicate FreshMints(svc: Service, s: Store, plan: seq<Request>) {
    && (forall i | 0 <= i < |plan| && plan[i].Add? :: svc.mint(plan[i].idem) !in s.movies)
    && (forall i, j | 0 <= i < j < |plan| && plan[i].Add? && plan[j].Add? ::
          svc.mint(plan[i].idem) != svc.mint(plan[j].idem))
  }

  /** What the plan asks for at place `i`. */
  ghost predicate PlannedAt(s: Store, w: Want, q: Request) {
    if Stored(s, Wanted(w)).None? then q.Add? && q.coll == w.coll && q.doc == Target(None, w.row)
    else
      && q.Update? && q.coll == w.coll && q.movie in s.movies
      && FilmIn(s.movies[q.movie]) == Wanted(w)
      && q.doc == Target(Stored(s, Wanted(w)), w.row)
  }

  ghost predicate PlannedFrom(s: Store, wants: seq<Want>, plan: seq<Request>) {
    |plan| == |wants| && forall i | 0 <= i < |wants| :: PlannedAt(s, wants[i], plan[i])
  }

  lemma WantIsPlanned(s: Store, targets: set<Id>, docs: seq<Attrs>, w: Want, idem: string -> string)
    requires Clean(s, targets) && ReadOf(s, w.coll, docs) && Proper(w.row) && w.coll in targets
    ensures PlannedAt(s, w, RequestFor(w.coll, PlanRow(w.row, docs, idem)))
  {
    hide Clean, ReadOf, Proper, Target, FilmIn, PlanRow, RequestFor, Wanted;
    if Stored(s, Wanted(w)).None? {
      PlansCreate(s, docs, targets, w, idem);
    } else {
      var id :| id in s.movies && FilmIn(s.movies[id]) == Wanted(w)
                && s.movies[id].attrs == Stored(s, Wanted(w)).value;
      PlansUpdate(s, docs, targets, w, id, idem);
    }
  }

  lemma PlanIsPlanned(s: Store, targets: set<Id>, listing: Reads, wants: seq<Want>, keys: Keys)
    requires Clean(s, targets) && AllRead(s, targets, listing) && ProperWants(wants)
    requires forall w | w in wants :: w.coll in targets
    ensures PlannedFrom(s, wants, Plan(wants, listing, keys))
  {
    hide Clean, ReadOf, Proper, PlannedAt, PlanRow, RequestFor, Wanted;
    forall i | 0 <= i < |wants|
      ensures PlannedAt(s, wants[i], PlanWant(wants[i], listing, keys(i)))
    {
      assert wants[i] in wants;
      WantIsPlanned(s, targets, ReadsOf(listing, wants[i].coll), wants[i], keys(i));
    }
  }

  /** The films wanted are as the applied writes leave them ... */
  ghost predicate WantsMet(s: Store, t: Store, wants: seq<Want>, steps: seq<nat>) {
    forall i | 0 <= i < |wants| :: Met(s, t, wants[i], i in steps)
  }

  ghost predicate Met(s: Store, t: Store, w: Want, applied: bool) {
    Stored(t, Wanted(w)) == if applied then Some(Target(Stored(s, Wanted(w)), w.row)) else Stored(s, Wanted(w))
  }

  /** ... and the others as they were. */
  ghost predicate RestKept(s: Store, t: Store, targets: set<Id>, wants: seq<Want>) {
    forall f: Film | f.coll in targets && (forall w | w in wants :: Wanted(w) != f) :: Stored(t, f) == Stored(s, f)
  }

  /** The ids in use: those from before, still with their films, and those given to applied creates. */
  ghost predicate Housed(svc: Service, s: Store, t: Store, plan: seq<Request>, steps: seq<nat>) {
    && t.collections == s.collections
    && (forall id | id in s.movies :: id in t.movies && FilmIn(t.movies[id]) == FilmIn(s.movies[id]))
    && (forall id | id in t.movies && id !in s.movies ::
          exists i :: i in steps && i < |plan| && plan[i].Add? && id == svc.mint(plan[i].idem))
  }

  /** Movies outside the collections concerned are as they were. */
  ghost predicate OthersKept(s: Store, t: Store, targets: set<Id>) {
    forall id ::
      (id in s.movies && s.movies[id].coll !in targets) || (id in t.movies && t.movies[id].coll !in targets)
      ==> id in s.movies && id in t.movies && s.movies[id] == t.movies[id]
  }

  lemma StoredIs(s: Store, targets: set<Id>, id: Id)
    requires Clean(s, targets) && id in s.movies && s.movies[id].coll in targets
    ensures Stored(s, FilmIn(s.movies[id])) == Some(s.movies[id].attrs)
  {
  }

  lemma PutKeepsNoTwins(t: Store, t': Store, targets: set<Id>, id: Id, m: Movie)
    requires NoTwins(t, targets) && m.coll in targets
    requires id in t.movies ==> FilmIn(t.movies[id]) == FilmIn(m) && t.movies[id].coll == m.coll
    requires id !in t.movies ==> forall a | a in t.movies :: FilmIn(t.movies[a]) != FilmIn(m)
    requires t' == t.(movies := t.movies[id := m])
    ensures NoTwins(t', targets)
  {
    hide FilmIn;
  }

  lemma PutKeepsClean(t: Store, t': Store, targets: set<Id>, id: Id, m: Movie)
    requires Clean(t, targets) && m.coll in targets && YearOf(m.attrs).Some? && m.attrs.Keys !! MOVIE_ID_FIELDS
    requires if id in t.movies then FilmIn(t.movies[id]) == FilmIn(m) else Stored(t, FilmIn(m)).None?
    requires t' == t.(movies := t.movies[id := m])
    ensures Clean(t', targets)
  {
    if id in t.movies { SameFilmSameColl(t.movies[id], m); }
    hide FilmIn, YearOf, NoTwins, MOVIE_ID_FIELDS;
    PutKeepsNoTwins(t, t', targets, id, m);
  }

  lemma OtherFilm(t: Store, t': Store, targets: set<Id>, id: Id, m: Movie, f: Film)
    requires Clean(t, targets) && Clean(t', targets) && f.coll in targets && f != FilmIn(m)
    requires id in t.movies ==> FilmIn(t.movies[id]) == FilmIn(m)
    requires t' == t.(movies := t.movies[id := m])
    ensures Stored(t', f) == Stored(t, f)
  {
    assert forall n: Movie :: FilmIn(n).coll == n.coll;
    hide FilmIn, Clean;
    if a :| a in t.movies && FilmIn(t.movies[a]) == f {
      assert a != id && t'.movies[a] == t.movies[a];
      StoredIs(t, targets, a);
      StoredIs(t', targets, a);
    }
  }

  /** Writing a document for a film changes what is stored for that film and for no other. */
  lemma PutFilm(t: Store, t': Store, targets: set<Id>, id: Id, m: Movie)
    requires Clean(t, targets) && m.coll in targets && YearOf(m.attrs).Some? && m.attrs.Keys !! MOVIE_ID_FIELDS
    requires if id in t.movies then FilmIn(t.movies[id]) == FilmIn(m) else Stored(t, FilmIn(m)).None?
    requires t' == t.(movies := t.movies[id := m])
    ensures Clean(t', targets)
    ensures Stored(t', FilmIn(m)) == Some(m.attrs)
    ensures forall f: Film | f.coll in targets && f != FilmIn(m) :: Stored(t', f) == Stored(t, f)
  {
    PutKeepsClean(t, t', targets, id, m);
    StoredIs(t', targets, id);
    hide FilmIn, Clean, YearOf, Stored;
    forall f: Film | f.coll in targets && f != FilmIn(m)
      ensures Stored(t', f) == Stored(t, f)
    {
      OtherFilm(t, t', targets, id, m, f);
    }
  }

  /** A movie the service calls a duplicate of the document is the same film. */
  lemma TwinIsSameFilm(svc: Service, other: Movie, m: Movie)
    requires FoldRefines(svc)
    requires "title" in m.attrs && m.attrs["title"].Text? && "year" in m.attrs && m.attrs["year"].Num?
    requires MovieKey(svc, other) == MovieKey(svc, m)
    ensures FilmIn(other) == FilmIn(m)
  {
    hide NormalizeTitle;
    assert Field(m.attrs, "title") == m.attrs["title"] && Field(m.attrs, "year") == m.attrs["year"];
    assert "title" in other.attrs && other.attrs["title"].Text?;
    assert svc.fold(other.attrs["title"].s) == svc.fold(m.attrs["title"].s);
  }

  /** The state of an interrupted import. */
  ghost predicate Reached(svc: Service, s: Store, t: Store, targets: set<Id>, wants: seq<Want>,
                          plan: seq<Request>, steps: seq<nat>)
  {
    && Clean(t, targets)
    && WantsMet(s, t, wants, steps)
    && RestKept(s, t, targets, wants)
    && Housed(svc, s, t, plan, steps)
    && OthersKept(s, t, targets)
  }

  /** What an import is run against. */
  ghost predicate Ready(svc: Service, s: Store, targets: set<Id>, wants: seq<Want>, plan: seq<Request>) {
    && FoldRefines(svc)
    && Clean(s, targets) && targets <= s.collections.Keys
    && ProperWants(wants) && (forall w | w in wants :: w.coll in targets)
    && PlannedFrom(s, wants, plan)
    && FreshMints(svc, s, plan)
  }

  lemma ServeUpdate(svc: Service, t: Store, targets: set<Id>, id: Id, m: Movie)
    requires FoldRefines(svc) && Clean(t, targets) && m.coll in targets && m.coll in t.collections
    requires "title" in m.attrs && m.attrs["title"].Text? && "year" in m.attrs && m.attrs["year"].Num?
    requires id in t.movies && FilmIn(t.movies[id]) == FilmIn(m)
    ensures Serve(svc, t, Update(m.coll, id, m.attrs)).0 == t.(movies := t.movies[id := m])
  {
    assert t.movies[id].coll == m.coll;
    if TakenByOther(svc, t, KeyOf(svc, m.coll, m.attrs), id) {
      var other :| other in t.movies && other != id && MovieKey(svc, t.movies[other]) == KeyOf(svc, m.coll, m.attrs);
      TwinIsSameFilm(svc, t.movies[other], m);
      hide FilmIn;
      assert false;
    }
  }

  lemma ServeCreate(svc: Service, t: Store, targets: set<Id>, m: Movie, idem: string)
    requires FoldRefines(svc) && Clean(t, targets) && m.coll in targets && m.coll in t.collections
    requires "title" in m.attrs && m.attrs["title"].Text? && "year" in m.attrs && m.attrs["year"].Num?
    requires Stored(t, FilmIn(m)).None? && svc.mint(idem) !in t.movies
    ensures Serve(svc, t, Add(m.coll, m.attrs, idem)).0 == t.(movies := t.movies[svc.mint(idem) := m])
  {
    if Holds(svc, t, KeyOf(svc, m.coll, m.attrs)) {
      var other :| other in t.movies && MovieKey(svc, t.movies[other]) == KeyOf(svc, m.coll, m.attrs);
      TwinIsSameFilm(svc, t.movies[other], m);
      hide FilmIn;
      assert false;
    }
  }

  lemma OthersStep(s: Store, t: Store, t': Store, targets: set<Id>, id: Id, m: Movie)
    requires OthersKept(s, t, targets) && m.coll in targets && t' == t.(movies := t.movies[id := m])
    requires id in t.movies ==> t.movies[id].coll == m.coll
    requires id in s.movies ==> id in t.movies && t.movies[id].coll == s.movies[id].coll
    ensures OthersKept(s, t', targets)
  {
  }

  lemma HousedStep(svc: Service, s: Store, t: Store, t': Store, plan: seq<Request>, steps: seq<nat>,
                   i: nat, id: Id, m: Movie)
    requires Housed(svc, s, t, plan, steps) && i < |plan| && t' == t.(movies := t.movies[id := m])
    requires id in t.movies ==> FilmIn(t.movies[id]) == FilmIn(m)
    requires id in s.movies || (plan[i].Add? && id == svc.mint(plan[i].idem))
    ensures Housed(svc, s, t', plan, steps + [i])
  {
    hide FilmIn;
    assert forall k :: k in steps ==> k in steps + [i];
    assert i in steps + [i];
  }

  lemma MetStep(s: Store, t: Store, t': Store, targets: set<Id>, wants: seq<Want>, steps: seq<nat>, i: nat, doc: Attrs)
    requires WantsMet(s, t, wants, steps) && ProperWants(wants) && i < |wants|
    requires forall w | w in wants :: w.coll in targets
    requires doc == Target(Stored(s, Wanted(wants[i])), wants[i].row)
    requires Stored(t', Wanted(wants[i])) == Some(doc)
    requires forall f: Film | f.coll in targets && f != Wanted(wants[i]) :: Stored(t', f) == Stored(t, f)
    ensures WantsMet(s, t', wants, steps + [i])
  {
    hide Target, FilmIn, Proper, Stored, Wanted;
    forall k | 0 <= k < |wants|
      ensures Met(s, t', wants[k], k in steps + [i])
    {
      assert wants[k] in wants && Met(s, t, wants[k], k in steps);
      WantedColl(wants[k]);
    }
  }

  lemma RestStep(s: Store, t: Store, t': Store, targets: set<Id>, wants: seq<Want>, i: nat)
    requires RestKept(s, t, targets, wants) && i < |wants|
    requires forall f: Film | f.coll in targets && f != Wanted(wants[i]) :: Stored(t', f) == Stored(t, f)
    ensures RestKept(s, t', targets, wants)
  {
    hide Stored, Wanted;
    assert wants[i] in wants;
  }

  lemma ReachedAfter(svc: Service, s: Store, t: Store, t': Store, targets: set<Id>, wants: seq<Want>,
                     plan: seq<Request>, steps: seq<nat>, i: nat, id: Id, m: Movie)
    requires Ready(svc, s, targets, wants, plan) && Reached(svc, s, t, targets, wants, plan, steps)
    requires i < |wants| && m.coll == wants[i].coll
    requires FilmIn(m) == Wanted(wants[i]) && m.attrs == Target(Stored(s, Wanted(wants[i])), wants[i].row)
    requires YearOf(m.attrs).Some? && m.attrs.Keys !! MOVIE_ID_FIELDS
    requires if id in t.movies then FilmIn(t.movies[id]) == FilmIn(m) else Stored(t, FilmIn(m)).None?
    requires id in s.movies || (plan[i].Add? && id == svc.mint(plan[i].idem))
    requires t' == t.(movies := t.movies[id := m])
    ensures Reached(svc, s, t', targets, wants, plan, steps + [i])
  {
    hide FilmIn, Target, YearOf, FoldRefines, PlannedAt, Proper, FreshMints, Clean, WantsMet, RestKept, OthersKept,
         ProperWants, Wanted, Stored;
    assert wants[i] in wants && m.coll in targets;
    PutFilm(t, t', targets, id, m);
    if id in t.movies { SameFilmSameColl(t.movies[id], m); }
    if id in s.movies { SameFilmSameColl(t.movies[id], s.movies[id]); }
    OthersStep(s, t, t', targets, id, m);
    HousedStep(svc, s, t, t', plan, steps, i, id, m);
    MetStep(s, t, t', targets, wants, steps, i, m.attrs);
    RestStep(s, t, t', targets, wants, i);
  }

  lemma SameColl(m: Movie, w: Want)
    requires FilmIn(m) == Wanted(w)
    ensures m.coll == w.coll
  {
  }

  lemma SameFilmSameColl(m: Movie, n: Movie)
    requires FilmIn(m) == FilmIn(n)
    ensures m.coll == n.coll
  {
  }

  lemma WantedColl(w: Want)
    ensures Wanted(w).coll == w.coll
  {
  }

  lemma StepUpdate(svc: Service, s: Store, t: Store, targets: set<Id>, wants: seq<Want>,
                   plan: seq<Request>, steps: seq<nat>, i: nat)
    requires Ready(svc, s, targets, wants, plan) && Reached(svc, s, t, targets, wants, plan, steps)
    requires i < |wants| && Stored(s, Wanted(wants[i])).Some?
    ensures Reached(svc, s, Serve(svc, t, plan[i]).0, targets, wants, plan, steps + [i])
  {
    var w := wants[i];
    assert w in wants;
    assert PlannedAt(s, w, plan[i]);
    hide FilmIn, Target, YearOf, FoldRefines, FreshMints, Serve, WantsMet, RestKept, OthersKept;
    var id := plan[i].movie;
    SameColl(s.movies[id], w);
    StoredIs(s, targets, id);
    var m := Movie(w.coll, plan[i].doc);
    assert s.movies[id] == Movie(w.coll, s.movies[id].attrs);
    TargetKeepsFilm(Stored(s, Wanted(w)), w);
    YearKnown(m.attrs, w.row);
    ServeUpdate(svc, t, targets, id, m);
    ReachedAfter(svc, s, t, Serve(svc, t, plan[i]).0, targets, wants, plan, steps, i, id, m);
  }

  lemma YearKnown(doc: Attrs, row: Attrs)
    requires Proper(row) && "year" in doc && doc["year"] == row["year"]
    ensures YearOf(doc).Some?
  {
  }

  lemma AlreadyThere(svc: Service, t: Store, f: Film, coll: Id, doc: Attrs, idem: string)
    requires Stored(t, f) == Some(doc) && f.coll == coll && coll in t.collections
    ensures Serve(svc, t, Add(coll, doc, idem)).0 == t
  {
    var id :| id in t.movies && FilmIn(t.movies[id]) == f && t.movies[id].attrs == doc;
    assert MovieKey(svc, t.movies[id]) == KeyOf(svc, coll, doc);
  }

  lemma StepCreate(svc: Service, s: Store, t: Store, targets: set<Id>, wants: seq<Want>,
                   plan: seq<Request>, steps: seq<nat>, i: nat)
    requires Ready(svc, s, targets, wants, plan) && Reached(svc, s, t, targets, wants, plan, steps)
    requires i < |wants| && Stored(s, Wanted(wants[i])).None?
    ensures Reached(svc, s, Serve(svc, t, plan[i]).0, targets, wants, plan, steps + [i])
  {
    var w := wants[i];
    assert w in wants;
    assert PlannedAt(s, w, plan[i]) && Met(s, t, w, i in steps);
    WantedColl(w);
    hide FilmIn, Target, YearOf, FoldRefines, Serve, RestKept, OthersKept, PlannedAt, Wanted;
    if i in steps {
      AlreadyThere(svc, t, Wanted(w), w.coll, plan[i].doc, plan[i].idem);
      assert forall k :: k in steps + [i] <==> k in steps;
      SameSteps(svc, s, t, targets, wants, plan, steps, i);
    } else {
      var m := Movie(w.coll, plan[i].doc);
      TargetKeepsFilm(None, w);
      YearKnown(m.attrs, w.row);
      var id := svc.mint(plan[i].idem);
      assert id !in t.movies by { NewId(svc, s, t, plan, steps, i); }
      ServeCreate(svc, t, targets, m, plan[i].idem);
      ReachedAfter(svc, s, t, Serve(svc, t, plan[i]).0, targets, wants, plan, steps, i, id, m);
    }
  }

  lemma NewId(svc: Service, s: Store, t: Store, plan: seq<Request>, steps: seq<nat>, i: nat)
    requires FreshMints(svc, s, plan) && Housed(svc, s, t, plan, steps)
    requires i < |plan| && plan[i].Add? && i !in steps
    ensures svc.mint(plan[i].idem) !in t.movies
  {
  }

  lemma SameSteps(svc: Service, s: Store, t: Store, targets: set<Id>, wants: seq<Want>,
                  plan: seq<Request>, steps: seq<nat>, i: nat)
    requires Reached(svc, s, t, targets, wants, plan, steps) && i in steps
    ensures Reached(svc, s, t, targets, wants, plan, steps + [i])
  {
    hide Clean, RestKept, OthersKept, Met;
    assert forall k :: k in steps + [i] <==> k in steps;
  }

  /** Any order, any part of the plan, any step more than once. */
  lemma {:induction false} AppliedReaches(svc: Service, s: Store, targets: set<Id>, wants: seq<Want>,
                                          plan: seq<Request>, steps: seq<nat>)
    requires Ready(svc, s, targets, wants, plan)
    requires forall k | 0 <= k < |steps| :: steps[k] < |wants|
    ensures Reached(svc, s, Applied(svc, s, plan, steps), targets, wants, plan, steps)
  {
    if steps == [] {
      hide FilmIn, Target, Clean, PlannedAt, FreshMints, FoldRefines, ProperWants, Wanted, Serve;
    } else {
      hide Reached, Serve, Stored, Wanted, FilmIn, Clean, FoldRefines, PlannedAt, ProperWants, FreshMints;
      var n := |steps| - 1;
      var i := steps[n];
      AppliedReaches(svc, s, targets, wants, plan, steps[..n]);
      var t := Applied(svc, s, plan, steps[..n]);
      assert steps == steps[..n] + [i];
      if Stored(s, Wanted(wants[i])).None? {
        StepCreate(svc, s, t, targets, wants, plan, steps[..n], i);
      } else {
        StepUpdate(svc, s, t, targets, wants, plan, steps[..n], i);
      }
    }
  }

  ghost predicate Has(s: Store, m: Movie) {
    exists id :: id in s.movies && s.movies[id] == m
  }

  /** The same movies, whatever their ids. */
  ghost predicate SameMovies(s: Store, t: Store) {
    s.collections == t.collections && forall m: Movie :: Has(s, m) <==> Has(t, m)
  }

  predicate Covers(steps: seq<nat>, n: nat) {
    forall i | 0 <= i < n :: i in steps
  }

  lemma HasIsStored(s: Store, targets: set<Id>, m: Movie)
    requires Clean(s, targets) && m.coll in targets
    ensures Has(s, m) <==> Stored(s, FilmIn(m)) == Some(m.attrs)
  {
    if Has(s, m) {
      var id :| id in s.movies && s.movies[id] == m;
      StoredIs(s, targets, id);
    }
    if Stored(s, FilmIn(m)) == Some(m.attrs) {
      var id :| id in s.movies && FilmIn(s.movies[id]) == FilmIn(m) && s.movies[id].attrs == m.attrs;
      SameFilmSameColl(s.movies[id], m);
      assert s.movies[id] == m;
    }
  }

  lemma OthersHas(s: Store, t: Store, targets: set<Id>, m: Movie)
    requires OthersKept(s, t, targets) && m.coll !in targets
    ensures Has(s, m) <==> Has(t, m)
  {
    if Has(s, m) {
      var id :| id in s.movies && s.movies[id] == m;
      assert t.movies[id] == m;
    }
    if Has(t, m) {
      var id :| id in t.movies && t.movies[id] == m;
      assert s.movies[id] == m;
    }
  }

  lemma SameStoredSameMovies(u: Store, v: Store, s: Store, t: Store, targets: set<Id>)
    requires Clean(u, targets) && Clean(v, targets) && u.collections == v.collections
    requires forall f: Film | f.coll in targets :: Stored(u, f) == Stored(v, f)
    requires OthersKept(t, u, targets) && OthersKept(s, t, targets) && OthersKept(s, v, targets)
    ensures SameMovies(u, v)
  {
    forall m: Movie
      ensures Has(u, m) <==> Has(v, m)
    {
      hide Clean, Stored, OthersKept, Has;
      if m.coll in targets {
        HasIsStored(u, targets, m);
        HasIsStored(v, targets, m);
        WantedColl(Want(m.coll, m.attrs));
      } else {
        OthersHas(t, u, targets, m);
        OthersHas(s, t, targets, m);
        OthersHas(s, v, targets, m);
      }
    }
  }

  lemma ReadyFor(svc: Service, s: Store, targets: set<Id>, wants: seq<Want>, listing: Reads, keys: Keys)
    requires FoldRefines(svc) && Clean(s, targets) && targets <= s.collections.Keys
    requires ProperWants(wants) && (forall w | w in wants :: w.coll in targets)
    requires AllRead(s, targets, listing) && FreshMints(svc, s, Plan(wants, listing, keys))
    ensures Ready(svc, s, targets, wants, Plan(wants, listing, keys))
  {
    hide Plan, FoldRefines, Clean, ProperWants, AllRead, FreshMints, PlannedFrom;
    PlanIsPlanned(s, targets, listing, wants, keys);
  }

  lemma SameStored(s: Store, t: Store, u: Store, v: Store, targets: set<Id>, wants: seq<Want>,
                   steps: seq<nat>, again: seq<nat>, full: seq<nat>, f: Film)
    requires f.coll in targets && Covers(again, |wants|) && Covers(full, |wants|)
    requires WantsMet(s, t, wants, steps) && RestKept(s, t, targets, wants)
    requires WantsMet(t, u, wants, again) && RestKept(t, u, targets, wants)
    requires WantsMet(s, v, wants, full) && RestKept(s, v, targets, wants)
    ensures Stored(u, f) == Stored(v, f)
  {
    hide Stored, Target, FilmIn, Wanted;
    if i :| 0 <= i < |wants| && Wanted(wants[i]) == f {
      assert Met(s, t, wants[i], i in steps) && Met(t, u, wants[i], i in again) && Met(s, v, wants[i], i in full);
      TargetTwice(Stored(s, f), wants[i].row);
    }
  }

  lemma CreatesWhatIsMissing(svc: Service, s: Store, t: Store, wants: seq<Want>, plan: seq<Request>,
                             again: seq<Request>, steps: seq<nat>)
    requires PlannedFrom(s, wants, plan) && PlannedFrom(t, wants, again) && WantsMet(s, t, wants, steps)
    ensures forall i | 0 <= i < |wants| :: again[i].Add? <==> plan[i].Add? && i !in steps
  {
    hide Stored, Target, FilmIn, Wanted;
    forall i | 0 <= i < |wants|
      ensures again[i].Add? <==> plan[i].Add? && i !in steps
    {
      assert PlannedAt(s, wants[i], plan[i]) && PlannedAt(t, wants[i], again[i]) && Met(s, t, wants[i], i in steps);
    }
  }

  /**
   An import cut off after the writes `steps`, planned again from what was then stored and applied
   completely, ends with the same movies as one complete import; and the second plan creates exactly
   the creates the first one had not got to.
   */
  lemma ReimportConverges(svc: Service, s: Store, targets: set<Id>, wants: seq<Want>,
                          listing: Reads, keys: Keys, steps: seq<nat>,
                          listing': Reads, keys': Keys, again: seq<nat>, full: seq<nat>)
    requires FoldRefines(svc) && Clean(s, targets) && targets <= s.collections.Keys
    requires ProperWants(wants) && (forall w | w in wants :: w.coll in targets)
    requires AllRead(s, targets, listing) && FreshMints(svc, s, Plan(wants, listing, keys))
    requires forall k | 0 <= k < |steps| :: steps[k] < |wants|
    requires forall k | 0 <= k < |again| :: again[k] < |wants|
    requires forall k | 0 <= k < |full| :: full[k] < |wants|
    requires Covers(again, |wants|) && Covers(full, |wants|)
    requires var t := Applied(svc, s, Plan(wants, listing, keys), steps);
             AllRead(t, targets, listing') && FreshMints(svc, t, Plan(wants, listing', keys'))
    ensures var plan, plan' := Plan(wants, listing, keys), Plan(wants, listing', keys');
            var t := Applied(svc, s, plan, steps);
            && SameMovies(Applied(svc, t, plan', again), Applied(svc, s, plan, full))
            && forall i | 0 <= i < |wants| :: plan'[i].Add? <==> plan[i].Add? && i !in steps
  {
    hide FoldRefines, Clean, AllRead, FreshMints, ProperWants, PlannedFrom, Covers, WantsMet, RestKept, OthersKept,
         SameMovies, Applied, Serve, Stored;
    var plan, plan' := Plan(wants, listing, keys), Plan(wants, listing', keys');
    ReadyFor(svc, s, targets, wants, listing, keys);
    AppliedReaches(svc, s, targets, wants, plan, steps);
    AppliedReaches(svc, s, targets, wants, plan, full);
    var t := Applied(svc, s, plan, steps);
    ReadyFor(svc, t, targets, wants, listing', keys');
    AppliedReaches(svc, t, targets, wants, plan', again);
    var u, v := Applied(svc, t, plan', again), Applied(svc, s, plan, full);
    forall f: Film | f.coll in targets
      ensures Stored(u, f) == Stored(v, f)
    {
      SameStored(s, t, u, v, targets, wants, steps, again, full, f);
    }
    SameStoredSameMovies(u, v, s, t, targets);
    CreatesWhatIsMissing(svc, s, t, wants, plan, plan', steps);
  }
}
