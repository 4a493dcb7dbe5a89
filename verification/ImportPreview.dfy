/**
 The import preview: every sheet's rows sorted into creates, updates and skips, and the one proposal
 made of them.
 */
module ImportPreview {
  import opened Common
  import opened Text
  import opened MovieStore
  import opened ImportRows
  import opened Proposals
  import opened ImportPlan
  import opened Reimport
  import TitleMatch
  import opened ApplyGate
  import opened Independence
  import opened ToolCall

  datatype Tab = Tab(name: string, eligible: bool, columns: seq<Column>, rows: seq<Row>)

  /** The member's answers so far: tab to collection id, header to attribute, title to title. */
  datatype Resolutions = Resolutions(
    collection: map<string, Id>, column: map<string, string>, article: map<string, string>)

  /** A row left out: which required fields it lacks; none for a row repeating an earlier film. */
  datatype Skip = Skip(payload: Attrs, missing: seq<string>)

  datatype TabPlan = TabPlan(
    name: string, target: Option<Collection>, creates: seq<PlanItem>, updates: seq<PlanItem>,
    skipped: seq<Skip>, options: seq<Collection>, excluded: bool, mappings: seq<ColumnMapping>)

  datatype Preview = Preview(tabs: seq<TabPlan>, ignored: seq<string>)

  // ----- which collection -----

  function Named(folded: string): Collection -> bool {
    (c: Collection) => Lower(Strip(c.name)) == folded
  }

  function ResolveTabCollection(name: string, collections: seq<Collection>): (Option<Collection>, seq<Collection>) {
    var matches := Filter(Named(Lower(Strip(name))), collections);
    if |matches| == 1 then (Some(matches[0]), [])
    else if |matches| > 1 then (None, matches)
    else (None, collections)
  }

  predicate BearsName(c: Collection, name: string) {
    Lower(Strip(c.name)) == Lower(Strip(name))
  }

  /** `i` is the only collection of that name. */
  ghost predicate OnlyNamed(name: string, collections: seq<Collection>, i: nat) {
    i < |collections| && BearsName(collections[i], name)
    && forall j | 0 <= j < |collections| && j != i :: !BearsName(collections[j], name)
  }

  /** A tab goes to the one collection that bears its name, up to case and white space around it.  When there is none
      the member is asked among all collections, and when there are several among those. */
  lemma TabGoesToItsNamesake(name: string, collections: seq<Collection>)
    ensures var (target, options) := ResolveTabCollection(name, collections);
            && (target.Some? <==> exists i: nat :: OnlyNamed(name, collections, i))
            && (forall i: nat :: OnlyNamed(name, collections, i) ==> target == Some(collections[i]) && options == [])
            && (target.None? ==>
                  if exists c | c in collections :: BearsName(c, name) then
                    forall c :: c in options <==> c in collections && BearsName(c, name)
                  else options == collections)
  {
    var keep := Named(Lower(Strip(name)));
    forall c ensures keep(c) == BearsName(c, name) {
    }
    FilterLeavesOne(keep, collections);
    hide Lower, Strip, BearsName;
    forall i: nat ensures OnlyAt(keep, collections, i) <==> OnlyNamed(name, collections, i) {
    }
    var found := Filter(keep, collections);
    assert found == [] <==> !exists c | c in collections :: BearsName(c, name) by {
      if found != [] { assert found[0] in found; }
    }
    OfferedAre(name, collections);
    hide Filter, ResolveTabCollection, Named, OnlyNamed, OnlyAt;
  }

  lemma OfferedAre(name: string, collections: seq<Collection>)
    ensures var found := Filter(Named(Lower(Strip(name))), collections);
            ResolveTabCollection(name, collections)
            == if |found| == 1 then (Some(found[0]), []) else (None, if found == [] then collections else found)
  {
    hide Filter, Named, Lower, Strip;
  }

  /** The collection with an id; a later one hides an earlier one. */
  function ById(collections: seq<Collection>, id: Id): (r: Option<Collection>)
    ensures r.Some? ==> r.value in collections && r.value.id == id
    ensures r.None? ==> forall c | c in collections :: c.id != id
  {
    if collections == [] then None
    else if collections[|collections| - 1].id == id then Some(collections[|collections| - 1])
    else ById(collections[..|collections| - 1], id)
  }

  function TargetOf(name: string, collections: seq<Collection>, res: Resolutions): (Option<Collection>, seq<Collection>) {
    if name in res.collection && ById(collections, res.collection[name]).Some? then
      (ById(collections, res.collection[name]), [])
    else ResolveTabCollection(name, collections)
  }

  // ----- which columns -----

  function Overridden(m: ColumnMapping, answers: map<string, string>): ColumnMapping {
    if m.header in answers then Override(m.header, answers[m.header]) else m
  }

  function MappingsOf(columns: seq<Column>, answers: map<string, string>): (r: seq<ColumnMapping>)
    ensures |r| == |columns|
  {
    seq(|columns|, i requires 0 <= i < |columns| => Overridden(ResolveColumn(columns[i]), answers))
  }

  method ApplyColumnOverrides(mappings: seq<ColumnMapping>, answers: map<string, string>)
      returns (result: seq<ColumnMapping>)
    ensures |result| == |mappings|
    ensures forall i | 0 <= i < |mappings| :: result[i] == Overridden(mappings[i], answers)
  {
    result := [];
    for i := 0 to |mappings|
      invariant |result| == i
      invariant forall k | 0 <= k < i :: result[k] == Overridden(mappings[k], answers)
    {
      if mappings[i].header in answers {
        result := result + [Override(mappings[i].header, answers[mappings[i].header])];
      } else {
        result := result + [mappings[i]];
      }
    }
  }

  // ----- which rows -----

  function Missing(payload: Attrs): (r: seq<string>)
    ensures r == [] <==> Importable(payload)
    ensures "title" in r <==> !Present(Field(payload, "title"))
    ensures "year" in r <==> !Present(Field(payload, "year"))
    ensures "contentType" in r <==> !Present(Field(payload, "contentType"))
  {
    (if Present(Field(payload, "title")) then [] else ["title"])
    + (if Present(Field(payload, "year")) then [] else ["year"])
    + (if Present(Field(payload, "contentType")) then [] else ["contentType"])
  }

  function Payloads(rows: seq<Row>, mappings: seq<ColumnMapping>, articles: map<string, string>): (r: seq<Attrs>)
    ensures |r| == |rows|
  {
    seq(|rows|, i requires 0 <= i < |rows| => RowPayload(rows[i], mappings, articles))
  }

  function IsImportable(): Attrs -> bool {
    (p: Attrs) => Importable(p)
  }

  function Lacking(payloads: seq<Attrs>): seq<Skip> {
    if payloads == [] then []
    else Lacking(payloads[..|payloads| - 1])
         + if Importable(payloads[|payloads| - 1]) then []
           else [Skip(payloads[|payloads| - 1], Missing(payloads[|payloads| - 1]))]
  }

  function Repeats(duplicates: seq<Attrs>): (r: seq<Skip>)
    ensures |r| == |duplicates|
  {
    seq(|duplicates|, i requires 0 <= i < |duplicates| => Skip(duplicates[i], []))
  }

  function TabPayloads(tab: Tab, res: Resolutions): seq<Attrs> {
    Payloads(tab.rows, MappingsOf(tab.columns, res.column), res.article)
  }

  function Accepted(tab: Tab, res: Resolutions): seq<Attrs> {
    Filter(IsImportable(), TabPayloads(tab, res))
  }

  /** The rows of a tab that are planned, one for each film. */
  function UniqueRows(tab: Tab, res: Resolutions): seq<Attrs> {
    Firsts(Accepted(tab, res), |Accepted(tab, res)|, true)
  }

  function SkippedRows(tab: Tab, res: Resolutions): seq<Skip> {
    Lacking(TabPayloads(tab, res)) + Repeats(Firsts(Accepted(tab, res), |Accepted(tab, res)|, false))
  }

  type Idem = (string, string) -> string

  function ForTab(idem: Idem, tab: string): string -> string {
    item => idem(tab, item)
  }

  function PlanTab(tab: Tab, collections: seq<Collection>, existing: Reads, idem: Idem, res: Resolutions): TabPlan {
    var (target, options) := TargetOf(tab.name, collections, res);
    var mappings := MappingsOf(tab.columns, res.column);
    if target.None? then TabPlan(tab.name, None, [], [], SkippedRows(tab, res), options, false, mappings)
    else
      var plan := PlanRows(UniqueRows(tab, res), ReadsOf(existing, target.value.id), ForTab(idem, tab.name));
      TabPlan(tab.name, target, Filter(IsCreate(), plan), Filter(IsUpdate(), plan), SkippedRows(tab, res), [], false,
              mappings)
  }

  /** The preview of the first `n` tabs. */
  /** A tab without a collection of its own plans nothing, and offers those the member can choose from. */
  lemma TabAsks(tab: Tab, collections: seq<Collection>, existing: Reads, idem: Idem, res: Resolutions)
    requires tab.name !in res.collection
    ensures var plan := PlanTab(tab, collections, existing, idem, res);
            && plan.name == tab.name
            && (plan.target.Some? <==> exists i: nat :: OnlyNamed(tab.name, collections, i))
            && (plan.target.None? ==>
                  && plan.creates == plan.updates == []
                  && (if exists c | c in collections :: BearsName(c, tab.name) then
                        forall c :: c in plan.options <==> c in collections && BearsName(c, tab.name)
                      else plan.options == collections))
  {
    TabGoesToItsNamesake(tab.name, collections);
    hide ResolveTabCollection, MappingsOf, SkippedRows, UniqueRows, PlanRows, BearsName, OnlyNamed;
  }

  function PreviewOf(tabs: seq<Tab>, collections: seq<Collection>, existing: Reads, idem: Idem, res: Resolutions): Preview {
    if tabs == [] then Preview([], [])
    else
      var n := |tabs| - 1;
      var before := PreviewOf(tabs[..n], collections, existing, idem, res);
      if tabs[n].eligible then
        before.(tabs := before.tabs + [PlanTab(tabs[n], collections, existing, idem, res)])
      else before.(ignored := before.ignored + [tabs[n].name])
  }

  lemma PayloadStep(rows: seq<Row>, mappings: seq<ColumnMapping>, articles: map<string, string>, i: nat)
    requires i < |rows|
    ensures var before, here := Payloads(rows, mappings, articles)[..i], RowPayload(rows[i], mappings, articles);
            var after := Payloads(rows, mappings, articles)[..i + 1];
            && after == before + [here]
            && Filter(IsImportable(), after)
               == Filter(IsImportable(), before) + (if Importable(here) then [here] else [])
            && Lacking(after) == Lacking(before) + (if Importable(here) then [] else [Skip(here, Missing(here))])
  {
    hide RowPayload, Importable, Missing;
    var all := Payloads(rows, mappings, articles);
    var before, here := all[..i], all[i];
    assert all[..i + 1] == before + [here];
    FilterSnoc(IsImportable(), before, here);
    hide Filter;
    assert (before + [here])[..i] == before;
  }

  /** One tab's rows, sorted. */
  method SortRows(tab: Tab, mappings: seq<ColumnMapping>, res: Resolutions)
      returns (unique: seq<Attrs>, skipped: seq<Skip>)
    requires mappings == MappingsOf(tab.columns, res.column)
    ensures unique == UniqueRows(tab, res) && skipped == SkippedRows(tab, res)
  {
    hide RowPayload, Importable, Firsts, MappingsOf, Missing;
    var supplied: seq<Attrs> := [];
    skipped := [];
    ghost var all := Payloads(tab.rows, mappings, res.article);
    for i := 0 to |tab.rows|
      invariant supplied == Filter(IsImportable(), all[..i])
      invariant skipped == Lacking(all[..i])
    {
      hide Filter, Lacking;
      PayloadStep(tab.rows, mappings, res.article, i);
      var payload := BuildRowPayload(tab.rows[i], mappings, res.article);
      var missing := Missing(payload);
      if missing != [] {
        skipped := skipped + [Skip(payload, missing)];
      } else {
        supplied := supplied + [payload];
      }
    }
    hide *;
    assert all[..|tab.rows|] == all;
    var duplicates;
    unique, duplicates := DedupImportRows(supplied);
    ghost var lacking := skipped;
    for i := 0 to |duplicates|
      invariant skipped == lacking + Repeats(duplicates[..i])
    {
      assert Repeats(duplicates[..i + 1]) == Repeats(duplicates[..i]) + [Skip(duplicates[i], [])];
      skipped := skipped + [Skip(duplicates[i], [])];
    }
    assert duplicates[..|duplicates|] == duplicates;
  }

  method BuildImportPreview(tabs: seq<Tab>, collections: seq<Collection>, existing: Reads, idem: Idem, res: Resolutions)
      returns (preview: Preview)
    ensures preview == PreviewOf(tabs, collections, existing, idem, res)
  {
    var plans: seq<TabPlan>, ignored: seq<string> := [], [];
    for i := 0 to |tabs|
      invariant Preview(plans, ignored) == PreviewOf(tabs[..i], collections, existing, idem, res)
    {
      var tab := tabs[i];
      assert tabs[..i + 1][..i] == tabs[..i];
      if !tab.eligible {
        ignored := ignored + [tab.name];
        continue;
      }
      hide PlanRows, UniqueRows, SkippedRows, TargetOf, IsCreate, IsUpdate, Filter;
      var (target, options) := TargetOf(tab.name, collections, res);
      var mappings := ApplyColumnOverrides(ResolveColumns(tab.columns), res.column);
      assert mappings == MappingsOf(tab.columns, res.column);
      var unique, skipped := SortRows(tab, mappings, res);
      if target.None? {
        plans := plans + [TabPlan(tab.name, None, [], [], skipped, options, false, mappings)];
      } else {
        var creates, updates := PlanWrites(unique, ReadsOf(existing, target.value.id), ForTab(idem, tab.name));
        plans := plans + [TabPlan(tab.name, target, creates, updates, skipped, [], false, mappings)];
      }
    }
    assert tabs[..|tabs|] == tabs;
    preview := Preview(plans, ignored);
  }

  // ----- nothing is lost -----

  function SkippedPayloads(skipped: seq<Skip>): (r: seq<Attrs>)
    ensures |r| == |skipped|
  {
    seq(|skipped|, i requires 0 <= i < |skipped| => skipped[i].payload)
  }

  lemma LackingStep(before: seq<Attrs>, x: Attrs)
    ensures SkippedPayloads(Lacking(before + [x]))
            == SkippedPayloads(Lacking(before)) + if Importable(x) then [] else [x]
  {
    hide Importable, Missing;
    assert (before + [x])[..|before|] == before;
  }

  /** The importable rows and the others are all rows. */
  ghost predicate Shared(payloads: seq<Attrs>) {
    multiset(Filter(IsImportable(), payloads)) + multiset(SkippedPayloads(Lacking(payloads))) == multiset(payloads)
  }

  lemma NoneShared()
    ensures Shared([])
  {
    assert Filter(IsImportable(), []) == [] && SkippedPayloads(Lacking([])) == [];
  }

  lemma SharedStep(before: seq<Attrs>, x: Attrs)
    requires Shared(before)
    ensures Shared(before + [x])
  {
    LackingStep(before, x);
    FilterSnoc(IsImportable(), before, x);
    assert IsImportable()(x) == Importable(x);
    hide Filter, IsImportable, Importable, SkippedPayloads, Lacking;
    var kept, out := Filter(IsImportable(), before), SkippedPayloads(Lacking(before));
    OneMore(kept, out, before, x);
    assert kept + [] == kept && out + [] == out;
  }

  lemma {:induction false} LackingPartition(payloads: seq<Attrs>)
    ensures Shared(payloads)
  {
    hide *;
    if payloads == [] {
      NoneShared();
    } else {
      var n := |payloads| - 1;
      LackingPartition(payloads[..n]);
      SharedStep(payloads[..n], payloads[n]);
      assert payloads == payloads[..n] + [payloads[n]];
    }
  }

  lemma SkippedAppend(a: seq<Skip>, b: seq<Skip>)
    ensures SkippedPayloads(a + b) == SkippedPayloads(a) + SkippedPayloads(b)
  {
  }

  lemma MultisetUnion<T>(all: seq<T>, kept: seq<T>, out: seq<T>, first: seq<T>, again: seq<T>)
    requires multiset(kept) + multiset(out) == multiset(all)
    requires multiset(first) + multiset(again) == multiset(kept)
    ensures multiset(first) + multiset(out + again) == multiset(all)
    ensures |all| == |first| + |out + again|
  {
    assert |multiset(all)| == |all| && |multiset(kept)| == |kept| && |multiset(out)| == |out|;
    assert |multiset(first)| == |first| && |multiset(again)| == |again|;
  }

  /** Every row of a tab is planned or reported as skipped, and no row is both. */
  lemma RowsAreKept(tab: Tab, res: Resolutions)
    ensures multiset(UniqueRows(tab, res)) + multiset(SkippedPayloads(SkippedRows(tab, res)))
            == multiset(TabPayloads(tab, res))
    ensures |UniqueRows(tab, res)| + |SkippedRows(tab, res)| == |tab.rows|
  {
    hide RowPayload, MappingsOf, Importable, Firsts, Missing, Lacking;
    var payloads, supplied := TabPayloads(tab, res), Accepted(tab, res);
    LackingPartition(payloads);
    assert supplied == supplied[..|supplied|];
    FirstsPartition(supplied, |supplied|, supplied);
    var duplicates := Firsts(supplied, |supplied|, false);
    SkippedAppend(Lacking(payloads), Repeats(duplicates));
    assert SkippedPayloads(Repeats(duplicates)) == duplicates;
    MultisetUnion(payloads, supplied, SkippedPayloads(Lacking(payloads)), UniqueRows(tab, res), duplicates);
  }

  /** Rows are creates plus updates plus skips; while the collection is unknown nothing is planned. */
  lemma TabIsConserved(tab: Tab, collections: seq<Collection>, existing: Reads, idem: Idem, res: Resolutions)
    ensures var p := PlanTab(tab, collections, existing, idem, res);
            if p.target.Some? then |tab.rows| == |p.creates| + |p.updates| + |p.skipped|
            else p.creates == [] && p.updates == [] && |tab.rows| == |UniqueRows(tab, res)| + |p.skipped|
  {
    hide UniqueRows, SkippedRows, PlanRow;
    RowsAreKept(tab, res);
    var (target, options) := TargetOf(tab.name, collections, res);
    if target.Some? {
      CreatesAndUpdates(PlanRows(UniqueRows(tab, res), ReadsOf(existing, target.value.id), ForTab(idem, tab.name)));
    }
  }

  // ----- the planned rows are what a re-import needs -----

  ghost predicate ForMovies(m: ColumnMapping) {
    Regular(m) && (m.attribute.Some? ==> m.attribute.value !in MOVIE_ID_FIELDS)
  }

  lemma {:induction false} SuppliedNames(row: Row, mappings: seq<ColumnMapping>)
    requires forall m | m in mappings :: ForMovies(m)
    ensures Supplied(row, mappings).Keys !! MOVIE_ID_FIELDS
  {
    if mappings != [] {
      hide CoerceValue, Cell, Regular;
      var n := |mappings| - 1;
      SuppliedNames(row, mappings[..n]);
      assert mappings[n] in mappings;
    }
  }

  /** A row that passed the required-field check has a title, a numeric year and no id fields. */
  lemma ImportableIsProper(row: Row, mappings: seq<ColumnMapping>, articles: map<string, string>)
    requires forall m | m in mappings :: ForMovies(m)
    requires Importable(RowPayload(row, mappings, articles))
    ensures Proper(RowPayload(row, mappings, articles))
  {
    hide Supplied, AssembleExternalIds, NormalizeTitleArticle, Blank;
    SuppliedNames(row, mappings);
    SuppliedIsTyped(row, mappings);
    var p := RowPayload(row, mappings, articles);
    assert Field(p, "title") != Null && Field(p, "year") != Null;
    assert "year" in Supplied(row, mappings) && WellTyped("year", Supplied(row, mappings)["year"]);
  }

  lemma MappingsAreForMovies(columns: seq<Column>, answers: map<string, string>)
    requires forall h | h in answers :: answers[h] !in MOVIE_ID_FIELDS
    ensures forall m | m in MappingsOf(columns, answers) :: ForMovies(m)
  {
    forall i | 0 <= i < |columns|
      ensures ForMovies(MappingsOf(columns, answers)[i])
    {
      ResolvedIsRegular(columns[i]);
      ResolvedNames(columns[i]);
      hide ResolveColumn;
    }
  }

  lemma ResolvedNames(column: Column)
    ensures var a := ResolveColumn(column).attribute; a.Some? ==> a.value !in MOVIE_ID_FIELDS
  {
    hide NormalizeHeader, Words, LooksMpaa, LooksNumeric;
    assert forall h :: h in ALIASES ==> ALIASES[h] !in MOVIE_ID_FIELDS;
  }

  function WantsOf(coll: Id, rows: seq<Attrs>): (r: seq<Want>)
    ensures |r| == |rows|
    ensures forall i | 0 <= i < |rows| :: r[i] == Want(coll, rows[i])
  {
    seq(|rows|, i requires 0 <= i < |rows| => Want(coll, rows[i]))
  }

  lemma AcceptedIsProper(tab: Tab, res: Resolutions, row: Attrs)
    requires forall h | h in res.column :: res.column[h] !in MOVIE_ID_FIELDS
    requires row in Accepted(tab, res)
    ensures Proper(row)
  {
    hide RowPayload, MappingsOf, Importable, Proper, ForMovies, MOVIE_ID_FIELDS;
    MappingsAreForMovies(tab.columns, res.column);
    var payloads := TabPayloads(tab, res);
    assert row in payloads && Importable(row);
    var k :| 0 <= k < |payloads| && payloads[k] == row;
    ImportableIsProper(tab.rows[k], MappingsOf(tab.columns, res.column), res.article);
  }

  /** The planned rows of a tab meet what `ReimportConverges` asks of rows. */
  lemma UniqueRowsAreProperWants(tab: Tab, res: Resolutions, coll: Id)
    requires forall h | h in res.column :: res.column[h] !in MOVIE_ID_FIELDS
    ensures ProperWants(WantsOf(coll, UniqueRows(tab, res)))
  {
    var supplied, rows := Accepted(tab, res), UniqueRows(tab, res);
    FirstsAreDistinct(supplied, |supplied|);
    FirstsComeFrom(supplied, |supplied|, true);
    assert rows == Firsts(supplied, |supplied|, true);
    hide *;
    forall row | row in rows
      ensures Proper(row)
    {
      AcceptedIsProper(tab, res, row);
    }
    ProperRowsAreWants(coll, rows);
  }

  lemma ProperRowsAreWants(coll: Id, rows: seq<Attrs>)
    requires DistinctFilms(rows) && forall row | row in rows :: Proper(row)
    ensures ProperWants(WantsOf(coll, rows))
  {
    hide Proper, FilmOf, Wanted;
    forall i, j | 0 <= i < j < |rows|
      ensures Wanted(Want(coll, rows[i])) != Wanted(Want(coll, rows[j]))
    {
      FilmOfWant(coll, rows[i], rows[j]);
    }
  }

  lemma FilmOfWant(coll: Id, a: Attrs, b: Attrs)
    ensures Wanted(Want(coll, a)) == Wanted(Want(coll, b)) <==> FilmOf(a) == FilmOf(b)
  {
  }

  // ----- the proposal -----

  datatype TabSummary = TabSummary(tab: string, collection: string, creates: nat, updates: nat, skipped: nat)

  datatype Summary = Summary(tabs: seq<TabSummary>, ignored: seq<string>, totalCreate: nat, totalUpdate: nat,
      skipped: seq<Skip>)

  predicate Targeted(plan: TabPlan) {
    !plan.excluded && plan.target.Some?
  }

  function First16(s: string): string {
    if |s| <= 16 then s else s[..16]
  }

  function CreateItem(tab: string, coll: Id, item: PlanItem): Item {
    Item(First16(item.idem), OpAdd, tab, item.title, coll, "", "", Some(item.payload), None, NO_ANSWERS, item.idem)
  }

  function UpdateItem(tab: string, coll: Id, item: PlanItem): Item {
    Item(First16(item.idem), OpUpdate, tab, item.title, coll, if item.movieId.Some? then item.movieId.value else "", "",
         Some(item.payload), None, NO_ANSWERS, item.idem)
  }

  function CreateItems(tab: string, coll: Id, items: seq<PlanItem>): (r: seq<Item>)
    ensures |r| == |items|
  {
    seq(|items|, i requires 0 <= i < |items| => CreateItem(tab, coll, items[i]))
  }

  function UpdateItems(tab: string, coll: Id, items: seq<PlanItem>): (r: seq<Item>)
    ensures |r| == |items|
  {
    seq(|items|, i requires 0 <= i < |items| => UpdateItem(tab, coll, items[i]))
  }

  function ItemsOf(plan: TabPlan): seq<Item> {
    if !Targeted(plan) then []
    else CreateItems(plan.name, plan.target.value.id, plan.creates)
         + UpdateItems(plan.name, plan.target.value.id, plan.updates)
  }

  function AllItems(plans: seq<TabPlan>): seq<Item> {
    if plans == [] then [] else AllItems(plans[..|plans| - 1]) + ItemsOf(plans[|plans| - 1])
  }

  function SummaryOf(plan: TabPlan): seq<TabSummary> {
    if !Targeted(plan) then []
    else [TabSummary(plan.name, plan.target.value.name, |plan.creates|, |plan.updates|, |plan.skipped|)]
  }

  function AllSummaries(plans: seq<TabPlan>): seq<TabSummary> {
    if plans == [] then [] else AllSummaries(plans[..|plans| - 1]) + SummaryOf(plans[|plans| - 1])
  }

  function AllSkips(plans: seq<TabPlan>): seq<Skip> {
    if plans == [] then []
    else AllSkips(plans[..|plans| - 1]) + if Targeted(plans[|plans| - 1]) then plans[|plans| - 1].skipped else []
  }

  function TotalCreate(tabs: seq<TabSummary>): nat {
    if tabs == [] then 0 else TotalCreate(tabs[..|tabs| - 1]) + tabs[|tabs| - 1].creates
  }

  function TotalUpdate(tabs: seq<TabSummary>): nat {
    if tabs == [] then 0 else TotalUpdate(tabs[..|tabs| - 1]) + tabs[|tabs| - 1].updates
  }

  method BuildItems(plan: TabPlan) returns (items: seq<Item>)
    requires Targeted(plan)
    ensures items == ItemsOf(plan)
  {
    hide CreateItem, UpdateItem;
    var tab, coll := plan.name, plan.target.value.id;
    items := [];
    for k := 0 to |plan.creates|
      invariant items == CreateItems(tab, coll, plan.creates[..k])
    {
      assert CreateItems(tab, coll, plan.creates[..k + 1])
          == CreateItems(tab, coll, plan.creates[..k]) + [CreateItem(tab, coll, plan.creates[k])];
      items := items + [CreateItem(tab, coll, plan.creates[k])];
    }
    assert plan.creates[..|plan.creates|] == plan.creates;
    ghost var created := items;
    for k := 0 to |plan.updates|
      invariant items == created + UpdateItems(tab, coll, plan.updates[..k])
    {
      assert UpdateItems(tab, coll, plan.updates[..k + 1])
          == UpdateItems(tab, coll, plan.updates[..k]) + [UpdateItem(tab, coll, plan.updates[k])];
      items := items + [UpdateItem(tab, coll, plan.updates[k])];
    }
    assert plan.updates[..|plan.updates|] == plan.updates;
  }

  method Totals(tabs: seq<TabSummary>) returns (creates: nat, updates: nat)
    ensures creates == TotalCreate(tabs) && updates == TotalUpdate(tabs)
  {
    creates, updates := 0, 0;
    for i := 0 to |tabs|
      invariant creates == TotalCreate(tabs[..i]) && updates == TotalUpdate(tabs[..i])
    {
      assert tabs[..i + 1][..i] == tabs[..i];
      creates, updates := creates + tabs[i].creates, updates + tabs[i].updates;
    }
    assert tabs[..|tabs|] == tabs;
  }

  method BuildImportProposals(preview: Preview, proposalId: string)
      returns (proposals: seq<Proposal>, summary: Summary)
    ensures summary.tabs == AllSummaries(preview.tabs) && summary.skipped == AllSkips(preview.tabs)
    ensures summary.ignored == preview.ignored
    ensures summary.totalCreate == TotalCreate(summary.tabs) && summary.totalUpdate == TotalUpdate(summary.tabs)
    ensures proposals == if AllItems(preview.tabs) == [] then []
                         else [Proposal(proposalId, AllItems(preview.tabs), None, true)]
  {
    hide CreateItems, UpdateItems, TotalCreate, TotalUpdate;
    var items: seq<Item>, tabs: seq<TabSummary>, skipped: seq<Skip> := [], [], [];
    var plans := preview.tabs;
    for i := 0 to |plans|
      invariant items == AllItems(plans[..i]) && tabs == AllSummaries(plans[..i]) && skipped == AllSkips(plans[..i])
    {
      var plan := plans[i];
      assert plans[..i + 1][..i] == plans[..i];
      if !plan.excluded && plan.target.Some? {
        var built := BuildItems(plan);
        items := items + built;
        skipped := skipped + plan.skipped;
        tabs := tabs + [TabSummary(plan.name, plan.target.value.name, |plan.creates|, |plan.updates|, |plan.skipped|)];
      }
    }
    assert plans[..|plans|] == plans;
    var creates, updates := Totals(tabs);
    summary := Summary(tabs, preview.ignored, creates, updates, skipped);
    proposals := if items == [] then [] else [Proposal(proposalId, items, None, true)];
  }

  function IsAdd(): Item -> bool {
    (item: Item) => item.op.OpAdd?
  }

  lemma TabCounts(plan: TabPlan, before: seq<TabSummary>)
    ensures |ItemsOf(plan)| == TotalCreate(before + SummaryOf(plan)) - TotalCreate(before)
                             + TotalUpdate(before + SummaryOf(plan)) - TotalUpdate(before)
    ensures |Filter(IsAdd(), ItemsOf(plan))| == TotalCreate(before + SummaryOf(plan)) - TotalCreate(before)
  {
    if Targeted(plan) {
      hide First16;
      var adds := CreateItems(plan.name, plan.target.value.id, plan.creates);
      var updates := UpdateItems(plan.name, plan.target.value.id, plan.updates);
      FilterAppend(IsAdd(), adds, updates);
      FilterAll(IsAdd(), adds);
      FilterNone(IsAdd(), updates);
      assert (before + SummaryOf(plan))[..|before|] == before;
      hide Filter, CreateItems, UpdateItems;
    } else {
      assert before + [] == before;
    }
  }

  /** The proposal holds one item for each counted write, an add for each counted create. */
  lemma {:induction false} OneItemPerWrite(plans: seq<TabPlan>)
    ensures |AllItems(plans)| == TotalCreate(AllSummaries(plans)) + TotalUpdate(AllSummaries(plans))
    ensures |Filter(IsAdd(), AllItems(plans))| == TotalCreate(AllSummaries(plans))
  {
    if plans != [] {
      hide ItemsOf, SummaryOf, Filter, TotalCreate, TotalUpdate;
      var plan, before := plans[|plans| - 1], plans[..|plans| - 1];
      OneItemPerWrite(before);
      FilterAppend(IsAdd(), AllItems(before), ItemsOf(plan));
      TabCounts(plan, AllSummaries(before));
    }
  }

  ghost predicate FromTab(item: Item, plan: TabPlan) {
    && Targeted(plan) && item.tab == plan.name && item.coll == plan.target.value.id && item.payload.Some?
    && (item.op.OpAdd? || item.op.OpUpdate?)
  }

  /** Every item is an add or an update for the collection of the targeted tab it names. */
  lemma {:induction false} ItemsNameTheirTab(plans: seq<TabPlan>, item: Item)
    requires item in AllItems(plans)
    ensures exists plan | plan in plans :: FromTab(item, plan)
  {
    var plan, before := plans[|plans| - 1], plans[..|plans| - 1];
    if item in AllItems(before) {
      ItemsNameTheirTab(before, item);
      var p :| p in before && FromTab(item, p);
      assert p in plans;
    } else {
      assert item in ItemsOf(plan) && plan in plans;
      assert FromTab(item, plan);
    }
  }

  lemma {:induction false} FilterAll<T(!new)>(keep: T -> bool, xs: seq<T>)
    requires forall x | x in xs :: keep(x)
    ensures Filter(keep, xs) == xs
  {
    if xs != [] {
      FilterAll(keep, xs[1..]);
    }
  }

  // ----- titles of the sheet and of the store -----

  lemma ArticleWord(article: string)
    requires TitleMatch.Article(article)
    ensures Trimmed(article) && article != "" && ',' !in article
  {
    forall i | 0 <= i < |article| ensures !White(article[i]) && article[i] != ',' {
      assert Lower(article)[i] == LowerChar(article[i]);
    }
  }

  /** "Matrix, The" in a sheet is the stored "The Matrix", "a matrix" or "Matrix". */
  lemma TrailingArticleSameKey(head: string, gap: string, article: string)
    requires Trimmed(head) && head != "" && '\n' !in head && TitleMatch.Article(article)
    requires forall c | c in gap :: White(c)
    ensures TitleMatch.NormalizeTitle(NormalizeTitleArticle(head + "," + gap + article).normalized) == Lower(head)
  {
    hide NormalizeTitleArticle, TitleMatch.NormalizeTitle, White;
    ArticleWord(article);
    TailedIs(head + "," + gap + article, head, gap, article);
    var moved := NormalizeTitleArticle(head + "," + gap + article);
    var first := moved.article.value;
    assert moved.normalized == first + " " + head;
    assert TitleMatch.Led(moved.normalized, first, " ", head) by { Blanks(); }
    TitleMatch.ArticleIsDropped(moved.normalized, first, " ", head);
  }

  lemma Blanks()
    ensures forall c | c in " " :: White(c)
    ensures TitleMatch.Article("The") && TitleMatch.Article("A") && TitleMatch.Article("An")
  {
    assert Lower("The") == "the" && Lower("A") == "a" && Lower("An") == "an";
  }

  /** No two planned rows of a tab are written under the same name. */
  lemma RowsHaveTheirOwnIds(tab: Tab, res: Resolutions, i: nat, j: nat)
    requires forall h | h in res.column :: res.column[h] !in MOVIE_ID_FIELDS
    requires i < j < |UniqueRows(tab, res)|
    ensures ItemId(UniqueRows(tab, res)[i]) != ItemId(UniqueRows(tab, res)[j])
  {
    var supplied, rows := Accepted(tab, res), UniqueRows(tab, res);
    FirstsAreDistinct(supplied, |supplied|);
    FirstsComeFrom(supplied, |supplied|, true);
    assert rows == Firsts(supplied, |supplied|, true);
    assert rows[i] in rows && rows[j] in rows;
    AcceptedIsProper(tab, res, rows[i]);
    AcceptedIsProper(tab, res, rows[j]);
    hide UniqueRows, Accepted, FilmOf, ItemId;
    ItemIdsDiffer(rows[i], rows[j]);
  }

  // ----- what the gate does with it -----

  /** An item of an import proposal. */
  predicate ImportItem(item: Item) {
    && item.candidate.None? && item.payload.Some? && item.coll != ""
    && (item.op.OpAdd? || (item.op.OpUpdate? && item.movie != ""))
  }

  function ItemRequest(item: Item): Request
    requires ImportItem(item)
  {
    if item.op.OpAdd? then Add(item.coll, item.payload.value, item.idem)
    else Update(item.coll, item.movie, item.payload.value)
  }

  /** What the scan makes of one item of an import. */
  lemma ImportItemStep(g: Setting, p: Proposal, st: Scan, n: nat)
    requires n < |p.items| && ImportItem(p.items[n])
    ensures var item, st' := p.items[n], ScanItem(g, p, st, n);
            && st'.store == st.store && st'.outcomes == st.outcomes
            && (if item.tab in g.excludedTabs then st'.tasks == st.tasks && st'.positions == st.positions
                else st'.tasks == st.tasks + [Task(ItemRequest(item), g.env(n, 0))] && st'.positions == st.positions + [n])
  {
    hide Exec, ToMoviePayload;
  }

  /** The kept items among the first `n` wait, each with its own request. */
  ghost predicate AllWait(g: Setting, p: Proposal, positions: seq<nat>, tasks: seq<Task>, n: nat)
    requires n <= |p.items| && forall item | item in p.items :: ImportItem(item)
  {
    && |tasks| == |positions|
    && (forall k | 0 <= k < n :: k in positions <==> p.items[k].tab !in g.excludedTabs)
    && (forall i | 0 <= i < |tasks| :: positions[i] < n && tasks[i].req == ItemRequest(p.items[positions[i]]))
  }

  lemma OneMoreWaits(g: Setting, p: Proposal, positions: seq<nat>, tasks: seq<Task>, n: nat, script: Script)
    requires n < |p.items| && (forall item | item in p.items :: ImportItem(item)) && AllWait(g, p, positions, tasks, n)
    ensures p.items[n].tab in g.excludedTabs ==> AllWait(g, p, positions, tasks, n + 1)
    ensures p.items[n].tab !in g.excludedTabs ==>
              AllWait(g, p, positions + [n], tasks + [Task(ItemRequest(p.items[n]), script)], n + 1)
  {
    hide ItemRequest, ImportItem;
  }

  /** Before the concurrent pass an import changes nothing: every item kept is deferred, with exactly the
      request that was planned for its row. */
  lemma {:induction false} ImportIsDeferred(g: Setting, p: Proposal, s: Store, n: nat)
    requires n <= |p.items| && forall item | item in p.items :: ImportItem(item)
    ensures var st := ScanTo(g, p, s, n);
            st.store == s && st.outcomes == map[] && AllWait(g, p, st.positions, st.tasks, n)
  {
    if n > 0 {
      hide ScanItem, AllWait, ImportItem, ItemRequest;
      ImportIsDeferred(g, p, s, n - 1);
      assert p.items[n - 1] in p.items;
      var st := ScanTo(g, p, s, n - 1);
      ImportItemStep(g, p, st, n - 1);
      OneMoreWaits(g, p, st.positions, st.tasks, n - 1, g.env(n - 1, 0));
    }
  }

  /** An item carries the write planned for its row. */
  lemma ItemsCarryThePlan(tab: string, coll: Id, item: PlanItem)
    requires coll != "" && item.movieId != Some("")
    ensures var built := if item.movieId.None? then CreateItem(tab, coll, item) else UpdateItem(tab, coll, item);
            && ImportItem(built) && ItemRequest(built) == RequestFor(coll, item)
            && built.shown == item.title && built.tab == tab
  {
  }
}
