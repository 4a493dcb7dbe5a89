/**
 Planning the writes of one sheet: rows without duplicates, each matched against the movies already
 stored through an index, and turned into a create or an update.
 */
module ImportPlan {
  import opened Common
  import opened Text
  import opened TitleMatch
  import opened MovieStore
  import opened Proposals

  /** `str` of a value, as far as titles, years and ids need it. */
  function ValueText(v: Value): string {
    match v
    case Null => "None"
    case Flag(b) => if b then "True" else "False"
    case Num(n) => IntText(n)
    case Text(s) => s
    case Many(_) => "[...]"
    case Links(_) => "[...]"
  }

  function TitleOf(doc: Attrs): string {
    if "title" in doc then ValueText(doc["title"]) else ""
  }

  function AsInt(v: Value): Option<int> {
    match v
    case Num(n) => Some(n)
    case Text(s) => var (ok, n) := ParseInt(s); if ok then Some(n) else None
    case _ => None
  }

  function YearOf(doc: Attrs): Option<int> {
    AsInt(Field(doc, "year"))
  }

  // ----- matching -----

  predicate SameTitle(key: string, doc: Attrs) {
    NormalizeTitle(TitleOf(doc)) == key
  }

  predicate YearAgrees(year: Option<int>, doc: Attrs) {
    year.None? || YearOf(doc).None? || YearOf(doc) == year
  }

  function Titled(key: string): Attrs -> bool {
    doc => SameTitle(key, doc)
  }

  function Dated(year: Option<int>): Attrs -> bool {
    doc => YearAgrees(year, doc)
  }

  function Denotes(key: string, year: Option<int>): Attrs -> bool {
    doc => SameTitle(key, doc) && YearAgrees(year, doc)
  }

  /** The rule: the one stored movie with the row's title and no other year; none when several fit. */
  function MatchScan(title: string, year: Value, existing: seq<Attrs>): Option<Attrs> {
    var key := NormalizeTitle(title);
    var matches := Filter(Denotes(key, AsInt(year)), existing);
    if key != "" && |matches| == 1 then Some(matches[0]) else None
  }

  lemma {:induction false} FilterTwice(key: string, year: Option<int>, docs: seq<Attrs>)
    ensures Filter(Dated(year), Filter(Titled(key), docs)) == Filter(Denotes(key, year), docs)
  {
    if docs != [] {
      FilterTwice(key, year, docs[1..]);
      hide SameTitle, YearAgrees;
      if Titled(key)(docs[0]) {
        var rest := Filter(Titled(key), docs[1..]);
        assert ([docs[0]] + rest)[1..] == rest;
      }
    }
  }

  function BucketIn(byTitle: map<string, seq<Attrs>>, key: string): seq<Attrs> {
    if key in byTitle then byTitle[key] else []
  }

  /** The buckets hold, under each usable title, the movies with that title in list order. */
  ghost predicate Indexes(byTitle: map<string, seq<Attrs>>, movies: seq<Attrs>) {
    "" !in byTitle && forall key :: key != "" ==> BucketIn(byTitle, key) == Filter(Titled(key), movies)
  }

  lemma IndexNone()
    ensures Indexes(map[], [])
  {
  }

  lemma IndexStep(byTitle: map<string, seq<Attrs>>, movies: seq<Attrs>, movie: Attrs)
    requires Indexes(byTitle, movies)
    ensures var key := NormalizeTitle(TitleOf(movie));
            Indexes(if key == "" then byTitle else byTitle[key := BucketIn(byTitle, key) + [movie]], movies + [movie])
  {
    hide NormalizeTitle, TitleOf;
    var key := NormalizeTitle(TitleOf(movie));
    var after := if key == "" then byTitle else byTitle[key := BucketIn(byTitle, key) + [movie]];
    forall k | k != ""
      ensures BucketIn(after, k) == Filter(Titled(k), movies + [movie])
    {
      FilterSnoc(Titled(k), movies, movie);
      assert Titled(k)(movie) == (key == k);
      assert BucketIn(byTitle, k) == Filter(Titled(k), movies);
      hide Filter, Titled;
    }
  }

  class ExistingMovieIndex {
    var byTitle: map<string, seq<Attrs>>
    ghost var movies: seq<Attrs>

    ghost predicate Valid()
      reads this
    {
      Indexes(byTitle, movies)
    }

    constructor (existing: seq<Attrs>)
      ensures Valid() && movies == existing
    {
      byTitle, movies := map[], [];
      new;
      hide NormalizeTitle, TitleOf, BucketIn, Indexes;
      IndexNone();
      for i := 0 to |existing|
        invariant Indexes(byTitle, movies) && movies == existing[..i]
      {
        var movie := existing[i];
        var key := NormalizeTitle(TitleOf(movie));
        IndexStep(byTitle, movies, movie);
        assert existing[..i + 1] == existing[..i] + [movie];
        movies := movies + [movie];
        if key != "" {
          byTitle := byTitle[key := BucketIn(byTitle, key) + [movie]];
        }
      }
      assert existing[..|existing|] == existing;
    }

    function Candidates(title: string): seq<Attrs>
      reads this
    {
      var target := NormalizeTitle(title);
      if target != "" then BucketIn(byTitle, target) else []
    }

    /** The answer of the index is the answer of the scan over the whole list. */
    method MatchExistingIndexed(title: string, year: Value) returns (r: Option<Attrs>)
      requires Valid()
      ensures r == MatchScan(title, year, movies)
    {
      hide NormalizeTitle;
      if NormalizeTitle(title) == "" {
        return None;
      }
      FilterTwice(NormalizeTitle(title), AsInt(year), movies);
      var matches := Filter(Dated(AsInt(year)), Candidates(title));
      r := if |matches| == 1 then Some(matches[0]) else None;
    }
  }

  /** What the match means, without filtering: a movie of the list that fits, and no other position
      of the list fits. */
  lemma MatchIsTheOnlyOne(title: string, year: Value, existing: seq<Attrs>, i: nat)
    requires i < |existing| && NormalizeTitle(title) != ""
    requires forall j | 0 <= j < |existing| :: Denotes(NormalizeTitle(title), AsInt(year))(existing[j]) <==> j == i
    ensures MatchScan(title, year, existing) == Some(existing[i])
  {
    hide SameTitle, YearAgrees, NormalizeTitle;
    var fits := Denotes(NormalizeTitle(title), AsInt(year));
    var before, after := existing[..i], existing[i + 1..];
    assert existing == before + ([existing[i]] + after);
    FilterAppend(fits, before, [existing[i]] + after);
    FilterAppend(fits, [existing[i]], after);
    FilterNone(fits, before);
    FilterNone(fits, after);
    assert Filter(fits, [existing[i]]) == [existing[i]];
  }

  lemma FilterNone<T(!new)>(keep: T -> bool, xs: seq<T>)
    requires forall x | x in xs :: !keep(x)
    ensures Filter(keep, xs) == []
  {
  }

  lemma NoMatch(title: string, year: Value, existing: seq<Attrs>)
    requires forall doc | doc in existing :: !Denotes(NormalizeTitle(title), AsInt(year))(doc)
    ensures MatchScan(title, year, existing) == None
  {
    FilterNone(Denotes(NormalizeTitle(title), AsInt(year)), existing);
  }

  /** The stored movie has the title, and no other year than the one asked for, as far as both are known. */
  predicate Fits(title: string, year: Value, doc: Attrs) {
    && NormalizeTitle(TitleOf(doc)) == NormalizeTitle(title)
    && var asked, stored := AsInt(year), AsInt(Field(doc, "year"));
       asked.None? || stored.None? || asked.value == stored.value
  }

  ghost predicate OnlyFit(title: string, year: Value, existing: seq<Attrs>, i: nat) {
    i < |existing| && Fits(title, year, existing[i])
    && forall j | 0 <= j < |existing| && j != i :: !Fits(title, year, existing[j])
  }

  /** A row updates a stored movie exactly when that is the only one it can mean; a year unknown on either side does
      not tell two movies apart. */
  lemma MatchIffOnlyOne(title: string, year: Value, existing: seq<Attrs>)
    ensures MatchScan(title, year, existing).Some?
            <==> NormalizeTitle(title) != "" && exists i: nat :: OnlyFit(title, year, existing, i)
    ensures forall i: nat | NormalizeTitle(title) != "" && OnlyFit(title, year, existing, i) ::
              MatchScan(title, year, existing) == Some(existing[i])
  {
    var fits := Denotes(NormalizeTitle(title), AsInt(year));
    forall doc ensures fits(doc) == Fits(title, year, doc) {
      hide NormalizeTitle, TitleOf, AsInt;
    }
    hide Fits, NormalizeTitle, Filter, SameTitle, YearAgrees;
    FilterLeavesOne(fits, existing);
    forall i: nat ensures OnlyAt(fits, existing, i) <==> OnlyFit(title, year, existing, i) {
    }
  }

  // ----- duplicates inside the file -----

  type FilmKey = (string, Option<int>)

  function FilmOf(row: Attrs): FilmKey {
    (NormalizeTitle(TitleOf(row)), YearOf(row))
  }

  predicate IsFirst(rows: seq<Attrs>, i: nat)
    requires i < |rows|
  {
    forall j | 0 <= j < i :: FilmOf(rows[j]) != FilmOf(rows[i])
  }

  /** The rows below `n` that are (or are not) the first to name their film. */
  function Firsts(rows: seq<Attrs>, n: nat, first: bool): seq<Attrs>
    requires n <= |rows|
  {
    if n == 0 then []
    else Firsts(rows, n - 1, first) + if IsFirst(rows, n - 1) == first then [rows[n - 1]] else []
  }

  ghost predicate DistinctFilms(rows: seq<Attrs>) {
    forall i, j | 0 <= i < j < |rows| :: FilmOf(rows[i]) != FilmOf(rows[j])
  }

  lemma FirstsStep(rows: seq<Attrs>, n: nat)
    requires 0 < n <= |rows|
    ensures if IsFirst(rows, n - 1) then
              && Firsts(rows, n, true) == Firsts(rows, n - 1, true) + [rows[n - 1]]
              && Firsts(rows, n, false) == Firsts(rows, n - 1, false)
            else
              && Firsts(rows, n, true) == Firsts(rows, n - 1, true)
              && Firsts(rows, n, false) == Firsts(rows, n - 1, false) + [rows[n - 1]]
  {
    hide FilmOf, IsFirst;
  }

  lemma {:induction false} FirstsComeFrom(rows: seq<Attrs>, n: nat, first: bool)
    requires n <= |rows|
    ensures forall u | u in Firsts(rows, n, first) :: exists j | 0 <= j < n :: rows[j] == u
  {
    if n > 0 {
      FirstsComeFrom(rows, n - 1, first);
      FirstsStep(rows, n);
      hide *;
    }
  }

  lemma FirstsNone(rows: seq<Attrs>)
    ensures Firsts(rows, 0, true) == [] && Firsts(rows, 0, false) == []
  {
  }

  lemma NoneAreDistinct()
    ensures DistinctFilms([])
  {
  }

  lemma DistinctSnoc(unique: seq<Attrs>, row: Attrs)
    requires DistinctFilms(unique) && forall u | u in unique :: FilmOf(u) != FilmOf(row)
    ensures DistinctFilms(unique + [row])
  {
    hide FilmOf;
  }

  lemma NewFilm(rows: seq<Attrs>, n: nat, u: Attrs)
    requires n < |rows| && IsFirst(rows, n) && exists j | 0 <= j < n :: rows[j] == u
    ensures FilmOf(u) != FilmOf(rows[n])
  {
    hide FilmOf;
  }

  lemma {:induction false} FirstsAreDistinct(rows: seq<Attrs>, n: nat)
    requires n <= |rows|
    ensures DistinctFilms(Firsts(rows, n, true))
  {
    hide *;
    if n == 0 {
      FirstsNone(rows);
      NoneAreDistinct();
    } else {
      FirstsAreDistinct(rows, n - 1);
      FirstsComeFrom(rows, n - 1, true);
      FirstsStep(rows, n);
      var unique := Firsts(rows, n - 1, true);
      if IsFirst(rows, n - 1) {
        forall u | u in unique
          ensures FilmOf(u) != FilmOf(rows[n - 1])
        {
          NewFilm(rows, n - 1, u);
        }
        DistinctSnoc(unique, rows[n - 1]);
      }
    }
  }

  lemma {:induction false} FirstsCoverFilms(rows: seq<Attrs>, n: nat, i: nat)
    requires i < n <= |rows|
    ensures exists u | u in Firsts(rows, n, true) :: FilmOf(u) == FilmOf(rows[i])
    decreases n
  {
    hide FilmOf;
    if IsFirst(rows, i) && i == n - 1 {
      assert rows[i] in Firsts(rows, n, true);
    } else {
      var j := if i < n - 1 then i else var j :| 0 <= j < i && FilmOf(rows[j]) == FilmOf(rows[i]); j;
      FirstsCoverFilms(rows, n - 1, j);
      var u :| u in Firsts(rows, n - 1, true) && FilmOf(u) == FilmOf(rows[j]);
      assert u in Firsts(rows, n, true);
    }
  }

  /** Every row is on exactly one side. */
  lemma {:induction false} FirstsPartition(rows: seq<Attrs>, n: nat, all: seq<Attrs>)
    requires n <= |rows| && all == rows[..n]
    ensures multiset(Firsts(rows, n, true)) + multiset(Firsts(rows, n, false)) == multiset(all)
  {
    hide *;
    FirstsNone(rows);
    if n > 0 {
      var u, d, r, x := Firsts(rows, n - 1, true), Firsts(rows, n - 1, false), rows[..n - 1], rows[n - 1];
      FirstsPartition(rows, n - 1, r);
      assert all == r + [x];
      FirstsStep(rows, n);
      OneMore(u, d, r, x);
    }
  }

  lemma {:induction false} FirstsCount(rows: seq<Attrs>, n: nat)
    requires n <= |rows|
    ensures |Firsts(rows, n, true)| + |Firsts(rows, n, false)| == n
  {
    if n > 0 {
      FirstsCount(rows, n - 1);
      FirstsStep(rows, n);
      hide *;
    }
  }

  /** First occurrence wins; every row ends up on exactly one side. */
  method DedupImportRows(rows: seq<Attrs>) returns (unique: seq<Attrs>, duplicates: seq<Attrs>)
    ensures unique == Firsts(rows, |rows|, true) && duplicates == Firsts(rows, |rows|, false)
  {
    hide FilmOf;
    var seen: set<FilmKey> := {};
    unique, duplicates := [], [];
    for i := 0 to |rows|
      invariant unique == Firsts(rows, i, true) && duplicates == Firsts(rows, i, false)
      invariant forall f :: f in seen <==> exists j | 0 <= j < i :: FilmOf(rows[j]) == f
    {
      var film := FilmOf(rows[i]);
      if film in seen {
        duplicates := duplicates + [rows[i]];
      } else {
        seen := seen + {film};
        unique := unique + [rows[i]];
      }
    }
  }

  // ----- payloads -----

  const CREATE_FLAGS := ["owned", "ripped", "childrens"]
  const CREATE_LISTS := ["directors", "actors", "genres", "tags", "ownedMedia", "ripQuality"]
  const CREATE_NULLS :=
    ["language", "originalTitle", "releaseDate", "outline", "plot", "runtime", "rated", "movieSet"]

  function Default(attribute: string): Option<Value> {
    if attribute in CREATE_FLAGS then Some(Flag(false))
    else if attribute == "externalIds" then Some(Links([]))
    else if attribute in CREATE_LISTS then Some(Many([]))
    else if attribute in CREATE_NULLS then Some(Null)
    else None
  }

  function DefaultedNames(): seq<string> {
    CREATE_FLAGS + CREATE_LISTS + ["externalIds"] + CREATE_NULLS
  }

  function DefaultsFor(names: seq<string>): Attrs {
    map a | a in names && Default(a).Some? :: Default(a).value
  }

  function CreateDefaults(): Attrs {
    DefaultsFor(DefaultedNames())
  }

  /** A row completed for a create: its own values over the defaults. */
  function Completed(supplied: Attrs): Attrs {
    CreateDefaults() + supplied
  }

  predicate OneOf(a: string, names: seq<string>) {
    a in names
  }

  predicate NullByDefault(a: string) {
    || a == "language" || a == "originalTitle" || a == "releaseDate" || a == "outline"
    || a == "plot" || a == "runtime" || a == "rated" || a == "movieSet"
  }

  lemma DefaultIs(a: string)
    ensures Default(a)
            == if a == "owned" || a == "ripped" || a == "childrens" then Some(Flag(false))
               else if OneOf(a, ["directors", "actors", "genres", "tags", "ownedMedia", "ripQuality"]) then Some(Many([]))
               else if a == "externalIds" then Some(Links([]))
               else if NullByDefault(a) then Some(Null) else None
    ensures Default(a).Some? ==> a in DefaultedNames()
  {
    assert a in CREATE_NULLS <==> NullByDefault(a);
  }

  /** A created film is not owned, not ripped and not a children's film unless its row says so; its lists are empty
      and its other texts and numbers unknown; it has no further attributes. */
  lemma CreatedDocument(supplied: Attrs, a: string)
    ensures var doc := Completed(supplied);
            if a in supplied then a in doc && doc[a] == supplied[a]
            else if a == "owned" || a == "ripped" || a == "childrens" then a in doc && doc[a] == Flag(false)
            else if OneOf(a, ["directors", "actors", "genres", "tags", "ownedMedia", "ripQuality"]) then
              a in doc && doc[a] == Many([])
            else if a == "externalIds" then a in doc && doc[a] == Links([])
            else if NullByDefault(a) then a in doc && doc[a] == Null
            else a !in doc
  {
    DefaultIs(a);
    hide Default, DefaultedNames, OneOf, NullByDefault;
  }

  lemma DefaultsStep(names: seq<string>, a: string)
    ensures DefaultsFor(names + [a])
            == if Default(a).Some? then DefaultsFor(names)[a := Default(a).value] else DefaultsFor(names)
  {
    hide Default;
  }

  method ApplyCreateDefaults(supplied: Attrs) returns (payload: Attrs)
    ensures payload == Completed(supplied)
  {
    hide Default, DefaultsFor, DefaultedNames;
    payload := supplied;
    var names := DefaultedNames();
    assert DefaultsFor([]) == map[] by { DefaultsForNone(); }
    for i := 0 to |names|
      invariant payload == DefaultsFor(names[..i]) + supplied
    {
      var attribute := names[i];
      DefaultsStep(names[..i], attribute);
      assert names[..i + 1] == names[..i] + [attribute];
      if attribute !in payload && Default(attribute).Some? {
        payload := payload[attribute := Default(attribute).value];
      }
      DefaultsKnown(names[..i], attribute);
    }
    assert names[..|names|] == names;
  }

  lemma DefaultsForNone()
    ensures DefaultsFor([]) == map[]
  {
  }

  lemma DefaultsKnown(names: seq<string>, a: string)
    ensures a in DefaultsFor(names) ==> Default(a).Some? && DefaultsFor(names)[a] == Default(a).value
  {
  }

  predicate IsBlank(v: Value) {
    match v
    case Null => true
    case Text(s) => Blank(s)
    case Many(items) => items == []
    case Links(ids) => ids == []
    case _ => false
  }

  function NonBlank(supplied: Attrs, names: set<string>): Attrs {
    map a | a in supplied && a in names && !IsBlank(supplied[a]) :: supplied[a]
  }

  /** The stored document with the row's non-blank values laid over it. */
  function Overlaid(doc: Attrs, supplied: Attrs): Attrs {
    doc + NonBlank(supplied, supplied.Keys)
  }

  /** Nothing in the cell, as opposed to a no or a zero. */
  predicate Empty(v: Value) {
    v == Null || v == Many([]) || v == Links([]) || (v.Text? && Strip(v.s) == "")
  }

  function ImportPayload(existing: Option<Attrs>, supplied: Attrs): Attrs {
    if existing.None? then supplied else Overlaid(ComposePayload(existing.value, NO_CHANGES), supplied)
  }

  lemma NonBlankStep(supplied: Attrs, names: set<string>, a: string)
    requires a in supplied
    ensures NonBlank(supplied, names + {a})
            == if IsBlank(supplied[a]) then NonBlank(supplied, names) else NonBlank(supplied, names)[a := supplied[a]]
  {
    hide IsBlank;
  }

  method ComposeImportPayload(existing: Option<Attrs>, supplied: Attrs) returns (payload: Attrs)
    ensures payload == ImportPayload(existing, supplied)
  {
    hide IsBlank, ComposePayload, NonBlank;
    if existing.None? {
      return supplied;
    }
    var doc := ComposePayload(existing.value, NO_CHANGES);
    payload := doc;
    var rest := supplied.Keys;
    NonBlankNone(supplied);
    assert supplied.Keys - rest == {};
    while rest != {}
      invariant rest <= supplied.Keys
      invariant payload == doc + NonBlank(supplied, supplied.Keys - rest)
      decreases |rest|
    {
      var a :| a in rest;
      NonBlankStep(supplied, supplied.Keys - rest, a);
      assert supplied.Keys - rest + {a} == supplied.Keys - (rest - {a});
      MergeUpdate(doc, NonBlank(supplied, supplied.Keys - rest), a, supplied[a]);
      if !IsBlank(supplied[a]) {
        payload := payload[a := supplied[a]];
      }
      rest := rest - {a};
    }
    assert supplied.Keys - {} == supplied.Keys;
  }

  lemma MergeUpdate<K, V>(under: map<K, V>, over: map<K, V>, k: K, v: V)
    ensures (under + over)[k := v] == under + over[k := v]
  {
  }

  lemma NonBlankNone(supplied: Attrs)
    ensures NonBlank(supplied, {}) == map[]
  {
  }

  /** A row's value takes the place of the stored one unless there is nothing in the cell, so an update with blank
      columns never blanks a stored attribute. */
  lemma OverlayKeeps(doc: Attrs, supplied: Attrs, a: string)
    ensures var r := Overlaid(doc, supplied);
            && (if a in supplied && !Empty(supplied[a]) then a in r && r[a] == supplied[a]
                else (a in r <==> a in doc) && (a in doc ==> r[a] == doc[a]))
            && (a in doc && !Empty(doc[a]) ==> a in r && !Empty(r[a]))
  {
    hide Strip;
  }

  // ----- the plan -----

  datatype PlanItem = PlanItem(title: string, movieId: Option<Id>, payload: Attrs, idem: string)

  function ItemId(supplied: Attrs): string {
    TitleOf(supplied) + ":" + ValueText(Field(supplied, "year"))
  }

  lemma LastColon(a: string, b: string, x: string, y: string)
    requires a + ":" + x == b + ":" + y && ':' !in x && ':' !in y
    ensures a == b && x == y
  {
    var s := a + ":" + x;
    assert s[|a|] == ':' && s[|b|] == ':';
    forall j | |a| < j < |s| ensures s[j] != ':' { assert s[j] == x[j - |a| - 1]; }
    forall j | |b| < j < |s| ensures s[j] != ':' { assert s[j] == y[j - |b| - 1]; }
    assert s[..|a|] == a && s[..|b|] == b && s[|a| + 1..] == x && s[|b| + 1..] == y;
  }

  lemma NoColonInNumber(n: int)
    ensures ':' !in IntText(n)
  {
    var t := NatText(if n < 0 then -n else n);
    assert forall c | c in t :: Digit(c);
  }

  /** Rows naming different films are written under different names, so under different idempotency keys. */
  lemma ItemIdsDiffer(a: Attrs, b: Attrs)
    requires "title" in a && a["title"].Text? && "year" in a && a["year"].Num?
    requires "title" in b && b["title"].Text? && "year" in b && b["year"].Num?
    requires FilmOf(a) != FilmOf(b)
    ensures ItemId(a) != ItemId(b)
  {
    hide NormalizeTitle, IntText;
    NoColonInNumber(a["year"].n);
    NoColonInNumber(b["year"].n);
    ParseIntText(a["year"].n);
    ParseIntText(b["year"].n);
    if ItemId(a) == ItemId(b) {
      LastColon(a["title"].s, b["title"].s, IntText(a["year"].n), IntText(b["year"].n));
    }
  }

  /** The write planned for one row; `idem` hashes the item's name within its thread and tab. */
  function PlanRow(supplied: Attrs, existing: seq<Attrs>, idem: string -> string): PlanItem {
    var m := MatchScan(TitleOf(supplied), Field(supplied, "year"), existing);
    if m.None? then PlanItem(TitleOf(supplied), None, Completed(supplied), idem(ItemId(supplied)))
    else PlanItem(TitleOf(supplied), Some(ValueText(Field(m.value, "movieId"))), ImportPayload(m, supplied),
                  idem(ItemId(supplied)))
  }

  /** A planned row shows its own title, is written under its own name, and updates the movie it matches. */
  lemma PlannedFor(supplied: Attrs, existing: seq<Attrs>, idem: string -> string)
    ensures var item := PlanRow(supplied, existing, idem);
            var m := MatchScan(TitleOf(supplied), Field(supplied, "year"), existing);
            && item.title == TitleOf(supplied) && item.idem == idem(ItemId(supplied))
            && (item.movieId.None? <==> m.None?)
            && (m.Some? && "movieId" in m.value && m.value["movieId"].Text? ==>
                  item.movieId == Some(m.value["movieId"].s))
  {
    hide MatchScan, Completed, ImportPayload;
  }

  function PlanRows(rows: seq<Attrs>, existing: seq<Attrs>, idem: string -> string): (plan: seq<PlanItem>)
    ensures |plan| == |rows|
  {
    seq(|rows|, i requires 0 <= i < |rows| => PlanRow(rows[i], existing, idem))
  }

  function IsCreate(): PlanItem -> bool {
    (item: PlanItem) => item.movieId.None?
  }

  function IsUpdate(): PlanItem -> bool {
    (item: PlanItem) => item.movieId.Some?
  }

  method PlanWrites(rows: seq<Attrs>, existing: seq<Attrs>, idem: string -> string)
      returns (creates: seq<PlanItem>, updates: seq<PlanItem>)
    ensures creates == Filter(IsCreate(), PlanRows(rows, existing, idem))
    ensures updates == Filter(IsUpdate(), PlanRows(rows, existing, idem))
  {
    hide MatchScan, ItemId, ImportPayload, Completed;
    var index := new ExistingMovieIndex(existing);
    creates, updates := [], [];
    ghost var plan := PlanRows(rows, existing, idem);
    for i := 0 to |rows|
      invariant index.Valid() && index.movies == existing
      invariant creates == Filter(IsCreate(), plan[..i])
      invariant updates == Filter(IsUpdate(), plan[..i])
    {
      var supplied := rows[i];
      var title := TitleOf(supplied);
      var m := index.MatchExistingIndexed(title, Field(supplied, "year"));
      var key := idem(ItemId(supplied));
      PlanStep(plan, i);
      if m.None? {
        var payload := ApplyCreateDefaults(supplied);
        creates := creates + [PlanItem(title, None, payload, key)];
      } else {
        var payload := ComposeImportPayload(m, supplied);
        updates := updates + [PlanItem(title, Some(ValueText(Field(m.value, "movieId"))), payload, key)];
      }
    }
    assert plan[..|rows|] == plan;
  }

  lemma PlanStep(plan: seq<PlanItem>, i: nat)
    requires i < |plan|
    ensures Filter(IsCreate(), plan[..i + 1])
            == Filter(IsCreate(), plan[..i]) + if plan[i].movieId.None? then [plan[i]] else []
    ensures Filter(IsUpdate(), plan[..i + 1])
            == Filter(IsUpdate(), plan[..i]) + if plan[i].movieId.None? then [] else [plan[i]]
  {
    assert plan[..i + 1] == plan[..i] + [plan[i]];
    FilterSnoc(IsCreate(), plan[..i], plan[i]);
    FilterSnoc(IsUpdate(), plan[..i], plan[i]);
    hide Filter;
  }

  /** Every row becomes one create or one update. */
  lemma CreatesAndUpdates(plan: seq<PlanItem>)
    ensures multiset(Filter(IsCreate(), plan)) + multiset(Filter(IsUpdate(), plan)) == multiset(plan)
    ensures |Filter(IsCreate(), plan)| + |Filter(IsUpdate(), plan)| == |plan|
  {
    hide Filter;
    FilterPartition(IsCreate(), IsUpdate(), plan);
  }
}
