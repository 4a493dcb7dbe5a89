/**
 An import from the parsed file to the stored movies: the preview, the one proposal made of it, and its
 apply, with any tabs left out and any calls lost, and then the same file once more.
 */
module ImportRun {
  import opened Common
  import opened MovieStore
  import opened ToolCall
  import opened Independence
  import opened Proposals
  import opened ApplyGate
  import opened ApplyRun
  import opened MoveSafety
  import opened ImportPlan
  import opened ImportPreview
  import opened ImportApplied
  import R = Reimport

  /** One row to be written, and the tab it is in. */
  datatype Work = Work(want: R.Want, tab: string)

  /** What the member uploaded and answered. */
  datatype Upload = Upload(tabs: seq<Tab>, collections: seq<Collection>, res: Resolutions)

  function TabTarget(tab: Tab, up: Upload): Option<Collection> {
    if tab.eligible then TargetOf(tab.name, up.collections, up.res).0 else None
  }

  function TabWork(tab: Tab, up: Upload): seq<Work> {
    if TabTarget(tab, up).None? then []
    else
      var rows := UniqueRows(tab, up.res);
      seq(|rows|, i requires 0 <= i < |rows| => Work(R.Want(TabTarget(tab, up).value.id, rows[i]), tab.name))
  }

  /** The rows to be written, tab by tab in file order. */
  function WorkIn(tabs: seq<Tab>, up: Upload): seq<Work> {
    if tabs == [] then [] else WorkIn(tabs[..|tabs| - 1], up) + TabWork(tabs[|tabs| - 1], up)
  }

  function WantsIn(work: seq<Work>): (r: seq<R.Want>)
    ensures |r| == |work| && forall i | 0 <= i < |work| :: r[i] == work[i].want
  {
    seq(|work|, i requires 0 <= i < |work| => work[i].want)
  }

  function KeysIn(work: seq<Work>, idem: Idem): R.Keys {
    (i: nat) => ForTab(idem, if i < |work| then work[i].tab else "")
  }

  /** The writes planned, in file order. */
  function PlanFor(work: seq<Work>, listing: R.Reads, idem: Idem): (plan: seq<Request>)
    ensures |plan| == |work|
    ensures forall i | 0 <= i < |work| :: plan[i] == R.PlanWant(work[i].want, listing, ForTab(idem, work[i].tab))
  {
    R.Plan(WantsIn(work), listing, KeysIn(work, idem))
  }

  lemma PlanForAppend(a: seq<Work>, b: seq<Work>, listing: R.Reads, idem: Idem)
    ensures PlanFor(a + b, listing, idem) == PlanFor(a, listing, idem) + PlanFor(b, listing, idem)
  {
    hide R.PlanWant, ForTab;
  }

  // ----- the proposal holds the plan, in its own order -----

  /** Every item is the write planned at a place of its own, and every planned write has its item. */
  ghost predicate Holding(items: seq<Item>, plan: seq<Request>, places: seq<nat>) {
    && |items| == |places|
    && (forall i | 0 <= i < |items| :: Places(items[i], plan, places[i]))
    && (forall i, j | 0 <= i < j < |places| :: places[i] != places[j])
    && (forall k: nat | k < |plan| :: k in places)
  }

  predicate Places(item: Item, plan: seq<Request>, place: nat) {
    place < |plan| && ImportItem(item) && ItemRequest(item) == plan[place]
  }

  function Shift(start: nat, places: seq<nat>): (r: seq<nat>)
    ensures |r| == |places| && forall i | 0 <= i < |places| :: r[i] == start + places[i]
  {
    seq(|places|, i requires 0 <= i < |places| => start + places[i])
  }

  lemma HoldingAppend(items: seq<Item>, plan: seq<Request>, places: seq<nat>,
                      items': seq<Item>, plan': seq<Request>, places': seq<nat>)
    requires Holding(items, plan, places) && Holding(items', plan', places')
    ensures Holding(items + items', plan + plan', places + Shift(|plan|, places'))
  {
    hide ImportItem, ItemRequest;
    var all := places + Shift(|plan|, places');
    forall k: nat | k < |plan + plan'|
      ensures k in all
    {
      if k < |plan| {
        assert k in places;
      } else {
        assert k - |plan| in places';
        var i :| 0 <= i < |places'| && places'[i] == k - |plan|;
        assert all[|places| + i] == k;
      }
    }
    forall i | 0 <= i < |items + items'|
      ensures Places((items + items')[i], plan + plan', all[i])
    {
      if i < |items| {
        assert Places(items[i], plan, places[i]);
      } else {
        assert Places(items'[i - |items|], plan', places'[i - |items|]);
      }
    }
  }

  /** The rows planned for a tab, as the planner lists them before it splits them. */
  function RowPlan(tab: Tab, up: Upload, listing: R.Reads, idem: Idem): seq<PlanItem> {
    if TabTarget(tab, up).None? then []
    else PlanRows(UniqueRows(tab, up.res), R.ReadsOf(listing, TabTarget(tab, up).value.id), ForTab(idem, tab.name))
  }

  /** Where the items of a tab are in its plan: the creates, then the updates. */
  function TabPlaces(tab: Tab, up: Upload, listing: R.Reads, idem: Idem): seq<nat> {
    var plan := RowPlan(tab, up, listing, idem);
    Where(IsCreate(), plan) + Where(IsUpdate(), plan)
  }

  function PlacesIn(tabs: seq<Tab>, up: Upload, listing: R.Reads, idem: Idem): seq<nat> {
    if tabs == [] then []
    else
      var n := |tabs| - 1;
      PlacesIn(tabs[..n], up, listing, idem) + Shift(|WorkIn(tabs[..n], up)|, TabPlaces(tabs[n], up, listing, idem))
  }

  /** Collections and the movies read have ids. */
  ghost predicate Identified(up: Upload, listing: R.Reads) {
    && (forall c | c in up.collections :: c.id != "")
    && (forall c | c in listing :: forall doc | doc in listing[c] :: ValueText(Field(doc, "movieId")) != "")
  }

  lemma TargetIsOffered(tab: Tab, up: Upload)
    ensures TabTarget(tab, up).Some? ==> TabTarget(tab, up).value in up.collections
  {
  }

  lemma RowIsIdentified(row: Attrs, docs: seq<Attrs>, idem: string -> string)
    requires forall doc | doc in docs :: ValueText(Field(doc, "movieId")) != ""
    ensures PlanRow(row, docs, idem).movieId != Some("")
  {
    hide Completed, ImportPayload, ItemId, ValueText;
    var m := MatchScan(TitleOf(row), Field(row, "year"), docs);
    if m.Some? {
      assert m.value in docs;
    }
  }

  /** Item `i` of a tab, and the row it is made from. */
  lemma TabItem(tab: string, coll: Id, rows: seq<Attrs>, docs: seq<Attrs>, idem: string -> string, i: nat)
    requires coll != "" && forall doc | doc in docs :: ValueText(Field(doc, "movieId")) != ""
    requires var plan := PlanRows(rows, docs, idem); i < |Where(IsCreate(), plan) + Where(IsUpdate(), plan)|
    ensures var plan := PlanRows(rows, docs, idem);
            var creates, updates := Filter(IsCreate(), plan), Filter(IsUpdate(), plan);
            var items := CreateItems(tab, coll, creates) + UpdateItems(tab, coll, updates);
            var places := Where(IsCreate(), plan) + Where(IsUpdate(), plan);
            && |items| == |places| && places[i] < |rows|
            && ImportItem(items[i]) && ItemRequest(items[i]) == R.RequestFor(coll, PlanRow(rows[places[i]], docs, idem))
  {
    hide PlanRow, ImportItem, ItemRequest, R.RequestFor, CreateItem, UpdateItem, ValueText;
    var plan := PlanRows(rows, docs, idem);
    WhereIsFilter(IsCreate(), plan);
    WhereIsFilter(IsUpdate(), plan);
    var places := Where(IsCreate(), plan) + Where(IsUpdate(), plan);
    hide Filter, Where;
    var k := places[i];
    RowIsIdentified(rows[k], docs, idem);
    ItemsCarryThePlan(tab, coll, plan[k]);
  }

  /** A tab's rows are shared out between its creates and its updates. */
  lemma TabPlacesAreAll(plan: seq<PlanItem>)
    ensures var places := Where(IsCreate(), plan) + Where(IsUpdate(), plan);
            && (forall i, j | 0 <= i < j < |places| :: places[i] != places[j])
            && (forall k: nat | k < |plan| :: k in places)
  {
    var creates, updates := Where(IsCreate(), plan), Where(IsUpdate(), plan);
    forall k: nat | k < |plan|
      ensures k in creates + updates
    {
      if plan[k].movieId.None? {
        WhereIsAll(IsCreate(), plan, k);
      } else {
        WhereIsAll(IsUpdate(), plan, k);
      }
    }
  }

  lemma TabHolds(tab: Tab, up: Upload, listing: R.Reads, idem: Idem)
    requires Identified(up, listing) && TabTarget(tab, up).Some?
    ensures Holding(ItemsOf(PlanTab(tab, up.collections, listing, idem, up.res)),
                    PlanFor(TabWork(tab, up), listing, idem), TabPlaces(tab, up, listing, idem))
  {
    hide UniqueRows, SkippedRows, MappingsOf, TargetOf, PlanRow, ImportItem, ItemRequest, Filter, Where, CreateItems,
        UpdateItems, R.RequestFor;
    TargetIsOffered(tab, up);
    var coll := TabTarget(tab, up).value.id;
    var rows, docs := UniqueRows(tab, up.res), R.ReadsOf(listing, coll);
    var plan := PlanRows(rows, docs, ForTab(idem, tab.name));
    TabPlacesAreAll(plan);
    var items := ItemsOf(PlanTab(tab, up.collections, listing, idem, up.res));
    var places, requests := TabPlaces(tab, up, listing, idem), PlanFor(TabWork(tab, up), listing, idem);
    assert items == CreateItems(tab.name, coll, Filter(IsCreate(), plan))
                    + UpdateItems(tab.name, coll, Filter(IsUpdate(), plan));
    assert places == Where(IsCreate(), plan) + Where(IsUpdate(), plan);
    forall i | 0 <= i < |places|
      ensures |items| == |places| && Places(items[i], requests, places[i])
    {
      TabItem(tab.name, coll, rows, docs, ForTab(idem, tab.name), i);
    }
    NoItems(tab.name, coll, plan);
  }

  lemma NoItems(tab: string, coll: Id, plan: seq<PlanItem>)
    ensures |CreateItems(tab, coll, Filter(IsCreate(), plan)) + UpdateItems(tab, coll, Filter(IsUpdate(), plan))|
            == |Where(IsCreate(), plan) + Where(IsUpdate(), plan)|
  {
    WhereIsFilter(IsCreate(), plan);
    WhereIsFilter(IsUpdate(), plan);
  }

  /** The items of the file. */
  function ItemsIn(tabs: seq<Tab>, up: Upload, listing: R.Reads, idem: Idem): seq<Item> {
    AllItems(PreviewOf(tabs, up.collections, listing, idem, up.res).tabs)
  }

  function TabItems(tab: Tab, up: Upload, listing: R.Reads, idem: Idem): seq<Item> {
    if tab.eligible then ItemsOf(PlanTab(tab, up.collections, listing, idem, up.res)) else []
  }

  lemma ItemsSnoc(tabs: seq<Tab>, up: Upload, listing: R.Reads, idem: Idem)
    requires tabs != []
    ensures ItemsIn(tabs, up, listing, idem)
            == ItemsIn(tabs[..|tabs| - 1], up, listing, idem) + TabItems(tabs[|tabs| - 1], up, listing, idem)
  {
    hide PlanTab, ItemsOf;
    var n := |tabs| - 1;
    var plans := PreviewOf(tabs[..n], up.collections, listing, idem, up.res).tabs;
    if tabs[n].eligible {
      assert (plans + [PlanTab(tabs[n], up.collections, listing, idem, up.res)])[..|plans|] == plans;
    }
  }

  /** The proposal holds one item for each row to be written, creates before updates within a tab, and each
      carries the write planned for its row. */
  lemma {:induction false} ProposalHoldsThePlan(tabs: seq<Tab>, up: Upload, listing: R.Reads, idem: Idem)
    requires Identified(up, listing)
    ensures Holding(ItemsIn(tabs, up, listing, idem), PlanFor(WorkIn(tabs, up), listing, idem),
                    PlacesIn(tabs, up, listing, idem))
  {
    hide Holding, ItemsIn, TabItems, TabPlaces, TabWork, PlanFor, Shift, Identified;
    if tabs == [] {
      NothingHeld(up, listing, idem);
    } else {
      var n := |tabs| - 1;
      ProposalHoldsThePlan(tabs[..n], up, listing, idem);
      TabIsHeld(tabs[n], up, listing, idem);
      ItemsSnoc(tabs, up, listing, idem);
      PlanForAppend(WorkIn(tabs[..n], up), TabWork(tabs[n], up), listing, idem);
      HoldingAppend(ItemsIn(tabs[..n], up, listing, idem), PlanFor(WorkIn(tabs[..n], up), listing, idem),
          PlacesIn(tabs[..n], up, listing, idem), TabItems(tabs[n], up, listing, idem),
          PlanFor(TabWork(tabs[n], up), listing, idem), TabPlaces(tabs[n], up, listing, idem));
    }
  }

  lemma NothingHeld(up: Upload, listing: R.Reads, idem: Idem)
    ensures Holding(ItemsIn([], up, listing, idem), PlanFor([], listing, idem), [])
  {
  }

  lemma TabIsHeld(tab: Tab, up: Upload, listing: R.Reads, idem: Idem)
    requires Identified(up, listing)
    ensures Holding(TabItems(tab, up, listing, idem), PlanFor(TabWork(tab, up), listing, idem),
                    TabPlaces(tab, up, listing, idem))
  {
    hide UniqueRows, SkippedRows, MappingsOf, TargetOf, PlanRow;
    if TabTarget(tab, up).Some? {
      TabHolds(tab, up, listing, idem);
    }
  }

  function ImportProposal(up: Upload, listing: R.Reads, idem: Idem, id: string): Proposal {
    Proposal(id, ItemsIn(up.tabs, up, listing, idem), None, true)
  }

  function UploadPlan(up: Upload, listing: R.Reads, idem: Idem): seq<Request> {
    PlanFor(WorkIn(up.tabs, up), listing, idem)
  }

  function PlacesAt(places: seq<nat>, positions: seq<nat>): (r: seq<nat>)
    ensures |r| == |positions|
    ensures forall i | 0 <= i < |positions| && positions[i] < |places| :: r[i] == places[positions[i]]
  {
    seq(|positions|, i requires 0 <= i < |positions| => if positions[i] < |places| then places[positions[i]] else 0)
  }

  /** Where in the plan the writes deferred by the gate are. */
  function TaskPlaces(g: Setting, up: Upload, listing: R.Reads, idem: Idem, id: string, s: Store): seq<nat> {
    var p := ImportProposal(up, listing, idem, id);
    PlacesAt(PlacesIn(up.tabs, up, listing, idem), ScanTo(g, p, s, |p.items|).positions)
  }

  /** The gate defers what the proposal holds: some of the planned writes, in an order of its own, and all
      of them when no tab is left out. */
  lemma GateCarriesThePlan(g: Setting, up: Upload, listing: R.Reads, idem: Idem, id: string, s: Store)
    requires Identified(up, listing)
    ensures var p := ImportProposal(up, listing, idem, id);
            var st, plan := ScanTo(g, p, s, |p.items|), UploadPlan(up, listing, idem);
            && st.store == s
            && Carry(st.tasks, plan, TaskPlaces(g, up, listing, idem, id, s))
            && (g.excludedTabs == {} ==> R.Covers(TaskPlaces(g, up, listing, idem, id, s), |plan|))
            && |st.tasks| == |st.positions|
            && (forall i | 0 <= i < |st.tasks| :: st.tasks[i].script == g.env(st.positions[i], 0))
  {
    hide ItemsIn, PlanFor, WorkIn, PlacesIn, ImportItem, ItemRequest, ScanTo;
    ProposalHoldsThePlan(up.tabs, up, listing, idem);
    var p, plan := ImportProposal(up, listing, idem, id), UploadPlan(up, listing, idem);
    var places := PlacesIn(up.tabs, up, listing, idem);
    forall item | item in p.items
      ensures ImportItem(item)
    {
      var k :| 0 <= k < |p.items| && p.items[k] == item;
      assert Places(p.items[k], plan, places[k]);
    }
    ImportIsDeferred(g, p, s, |p.items|);
    ScanShape(g, p, s, |p.items|);
    var st := ScanTo(g, p, s, |p.items|);
    PlacesCarried(g, p, st, plan, places);
  }

  lemma PlacesCarried(g: Setting, p: Proposal, st: Scan, plan: seq<Request>, places: seq<nat>)
    requires Holding(p.items, plan, places) && Sorted(g, p, st, |p.items|)
    requires forall k | 0 <= k < |p.items| :: k in st.positions <==> p.items[k].tab !in g.excludedTabs
    requires forall i | 0 <= i < |st.tasks| ::
               st.positions[i] < |p.items| && ImportItem(p.items[st.positions[i]])
               && st.tasks[i].req == ItemRequest(p.items[st.positions[i]])
    ensures Carry(st.tasks, plan, PlacesAt(places, st.positions))
    ensures g.excludedTabs == {} ==> R.Covers(PlacesAt(places, st.positions), |plan|)
  {
    hide ImportItem, ItemRequest, TaskOf, Deferrable, Dropped;
    var at := PlacesAt(places, st.positions);
    forall i | 0 <= i < |st.tasks|
      ensures at[i] < |plan| && st.tasks[i].req == plan[at[i]]
    {
      assert Places(p.items[st.positions[i]], plan, places[st.positions[i]]);
    }
    if g.excludedTabs == {} {
      forall k: nat | k < |plan|
        ensures k in at
      {
        assert k in places;
        var m :| 0 <= m < |places| && places[m] == k;
        assert m in st.positions;
        var i :| 0 <= i < |st.positions| && st.positions[i] == m;
        assert at[i] == k;
      }
    }
  }

  // ----- the run -----

  /** The service tells films apart at least as the planner does, the collections concerned hold each film
      once, the rows name each film once, and what the planner read is what is stored. */
  ghost predicate ReadyToImport(svc: Service, s: Store, targets: set<Id>, up: Upload, listing: R.Reads, idem: Idem) {
    && R.FoldRefines(svc) && R.Clean(s, targets) && targets <= s.collections.Keys
    && R.ProperWants(WantsIn(WorkIn(up.tabs, up)))
    && (forall w | w in WantsIn(WorkIn(up.tabs, up)) :: w.coll in targets)
    && Read(svc, s, targets, up, listing, idem)
  }

  /** What was read is what is stored, and the keys of the plan give new ids. */
  ghost predicate Read(svc: Service, s: Store, targets: set<Id>, up: Upload, listing: R.Reads, idem: Idem) {
    && R.AllRead(s, targets, listing) && Identified(up, listing)
    && R.FreshMints(svc, s, UploadPlan(up, listing, idem))
  }

  ghost predicate ForTabTarget(w: R.Want, tabs: seq<Tab>, up: Upload) {
    exists tab | tab in tabs :: TabTarget(tab, up).Some? && TabTarget(tab, up).value.id == w.coll
  }

  lemma {:induction false} WorkIsForATab(tabs: seq<Tab>, up: Upload)
    ensures forall work | work in WorkIn(tabs, up) :: ForTabTarget(work.want, tabs, up)
  {
    hide UniqueRows, TargetOf;
    if tabs != [] {
      var before, tab := tabs[..|tabs| - 1], tabs[|tabs| - 1];
      WorkIsForATab(before, up);
      forall work | work in WorkIn(tabs, up)
        ensures ForTabTarget(work.want, tabs, up)
      {
        if work in WorkIn(before, up) {
          var t :| t in before && TabTarget(t, up).Some? && TabTarget(t, up).value.id == work.want.coll;
          assert t in tabs;
        } else {
          assert tab in tabs && work in TabWork(tab, up);
        }
      }
    }
  }

  /** The rows of a file name each film once when its tabs go to different collections. */
  lemma {:induction false} RowsNameEachFilmOnce(tabs: seq<Tab>, up: Upload)
    requires forall h | h in up.res.column :: up.res.column[h] !in MOVIE_ID_FIELDS
    requires forall i, j | 0 <= i < j < |tabs| && TabTarget(tabs[i], up).Some? && TabTarget(tabs[j], up).Some? ::
               TabTarget(tabs[i], up).value.id != TabTarget(tabs[j], up).value.id
    ensures R.ProperWants(WantsIn(WorkIn(tabs, up)))
  {
    if tabs != [] {
      hide R.Proper, TabTarget, UniqueRows, R.FilmIn;
      var n := |tabs| - 1;
      var before := WorkIn(tabs[..n], up);
      RowsNameEachFilmOnce(tabs[..n], up);
      WorkIsForATab(tabs[..n], up);
      TabWorkIsProper(tabs[n], up);
      forall a, b | a in before && b in TabWork(tabs[n], up)
        ensures R.Wanted(a.want) != R.Wanted(b.want)
      {
        var tab :| tab in tabs[..n] && TabTarget(tab, up).Some? && TabTarget(tab, up).value.id == a.want.coll;
        R.WantedColl(a.want);
        R.WantedColl(b.want);
      }
      ProperAppend(before, TabWork(tabs[n], up));
    }
  }

  lemma ProperAppend(a: seq<Work>, b: seq<Work>)
    requires R.ProperWants(WantsIn(a)) && R.ProperWants(WantsIn(b))
    requires forall x, y | x in a && y in b :: R.Wanted(x.want) != R.Wanted(y.want)
    ensures R.ProperWants(WantsIn(a + b))
  {
    hide R.Proper, R.Wanted;
    var all := WantsIn(a + b);
    forall w | w in all
      ensures R.Proper(w.row)
    {
      assert w in WantsIn(a) || w in WantsIn(b);
    }
    forall i, j | 0 <= i < j < |all|
      ensures R.Wanted(all[i]) != R.Wanted(all[j])
    {
      if j < |a| {
        assert WantsIn(a)[i] == all[i] && WantsIn(a)[j] == all[j];
      } else if |a| <= i {
        assert WantsIn(b)[i - |a|] == all[i] && WantsIn(b)[j - |a|] == all[j];
      } else {
        assert a[i] in a && b[j - |a|] in b;
      }
    }
  }

  lemma TabWorkIsProper(tab: Tab, up: Upload)
    requires forall h | h in up.res.column :: up.res.column[h] !in MOVIE_ID_FIELDS
    ensures R.ProperWants(WantsIn(TabWork(tab, up)))
    ensures forall w | w in TabWork(tab, up) :: TabTarget(tab, up).Some? && w.want.coll == TabTarget(tab, up).value.id
  {
    if TabTarget(tab, up).Some? {
      var coll := TabTarget(tab, up).value.id;
      UniqueRowsAreProperWants(tab, up.res, coll);
      assert WantsIn(TabWork(tab, up)) == WantsOf(coll, UniqueRows(tab, up.res));
    }
  }

  /** The writes that reach the service when the gate applies the upload: known before the first of them. */
  ghost function Reaching(g: Setting, up: Upload, listing: R.Reads, idem: Idem, id: string, s: Store): seq<nat>
    requires Identified(up, listing)
  {
    GateCarriesThePlan(g, up, listing, idem, id, s);
    var p := ImportProposal(up, listing, idem, id);
    Arrived(ScanTo(g, p, s, |p.items|).tasks, TaskPlaces(g, up, listing, idem, id, s), g.max)
  }

  /** An import applied by the gate, with any tabs left out and any calls lost: its writes are independent, so
      their schedule does not matter, and what is stored afterwards is what the planned writes that reached
      the service leave. */
  lemma ImportRunIsApplied(g: Setting, up: Upload, listing: R.Reads, idem: Idem, id: string, s: Store, targets: set<Id>)
    requires ReadyToImport(g.svc, s, targets, up, listing, idem)
    ensures var p, plan := ImportProposal(up, listing, idem, id), UploadPlan(up, listing, idem);
            var st, steps := ScanTo(g, p, s, |p.items|), Reaching(g, up, listing, idem, id, s);
            && Independent(g.svc, st.store, st.tasks)
            && (forall k | 0 <= k < |steps| :: steps[k] < |plan|)
            && Sequentially(g, p, s).0 == R.Applied(g.svc, s, plan, steps)
  {
    hide R.FoldRefines, R.Clean, R.ProperWants, R.AllRead, Identified, R.FreshMints, ScanTo, ImportProposal, WorkIn,
        R.Applied, Arrived, InOrder, Independent, TaskPlaces, Merge, R.PlannedFrom;
    var work, plan := WorkIn(up.tabs, up), UploadPlan(up, listing, idem);
    var p := ImportProposal(up, listing, idem, id);
    var st := ScanTo(g, p, s, |p.items|);
    GateCarriesThePlan(g, up, listing, idem, id, s);
    R.ReadyFor(g.svc, s, targets, WantsIn(work), listing, KeysIn(work, idem));
    var places := TaskPlaces(g, up, listing, idem, id, s);
    ImportIsIndependent(g.svc, s, targets, WantsIn(work), plan, st.tasks, places);
    InOrderIsApplied(g.svc, s, plan, st.tasks, places, g.max);
  }

  /** No tab is left out, and every call reaches the service. */
  ghost predicate Undisturbed(g: Setting) {
    g.excludedTabs == {} && forall pos :: Reaches(g.env(pos, 0), 0, g.max)
  }

  lemma UndisturbedCovers(g: Setting, up: Upload, listing: R.Reads, idem: Idem, id: string, s: Store)
    requires Identified(up, listing) && Undisturbed(g)
    ensures R.Covers(Reaching(g, up, listing, idem, id, s), |WorkIn(up.tabs, up)|)
  {
    hide Reaches, ScanTo, ImportProposal, WorkIn, Arrived, TaskPlaces, Identified;
    GateCarriesThePlan(g, up, listing, idem, id, s);
    var p := ImportProposal(up, listing, idem, id);
    var st := ScanTo(g, p, s, |p.items|);
    forall i | 0 <= i < |st.tasks|
      ensures Reaches(st.tasks[i].script, 0, g.max)
    {
      var pos := st.positions[i];
      assert st.tasks[i].script == g.env(pos, 0) && Reaches(g.env(pos, 0), 0, g.max);
    }
    AllArrive(st.tasks, TaskPlaces(g, up, listing, idem, id, s), g.max);
  }

  /**
   Importing a file twice: however the first import went (tabs left out, calls lost, replies lost), reading
   the collections again, planning the file again and applying that plan undisturbed stores the movies one
   undisturbed import would have stored.
   */
  lemma ImportTwiceIsImportOnce(g: Setting, again: Setting, once: Setting, up: Upload, listing: R.Reads, idem: Idem,
                                id: string, s: Store, targets: set<Id>, listing': R.Reads, idem': Idem, id': string)
    requires again.svc == once.svc == g.svc && Undisturbed(again) && Undisturbed(once)
    requires ReadyToImport(g.svc, s, targets, up, listing, idem)
    requires var t := Sequentially(g, ImportProposal(up, listing, idem, id), s).0;
             Read(g.svc, t, targets, up, listing', idem')
    ensures var t := Sequentially(g, ImportProposal(up, listing, idem, id), s).0;
            R.SameMovies(Sequentially(again, ImportProposal(up, listing', idem', id'), t).0,
                         Sequentially(once, ImportProposal(up, listing, idem, id), s).0)
  {
    hide R.FoldRefines, R.Clean, R.ProperWants, R.AllRead, R.FreshMints, ImportProposal, WorkIn, R.Covers,
        R.Applied, Sequentially, Reaching, R.SameMovies, Undisturbed, Independent, R.Reached, Identified, ScanTo;
    var work := WorkIn(up.tabs, up);
    ImportRunIsApplied(g, up, listing, idem, id, s, targets);
    var t := Sequentially(g, ImportProposal(up, listing, idem, id), s).0;
    StillImportable(g, up, listing, idem, id, s, targets, listing', idem');
    ImportRunIsApplied(again, up, listing', idem', id', t, targets);
    ImportRunIsApplied(once, up, listing, idem, id, s, targets);
    UndisturbedCovers(again, up, listing', idem', id', t);
    UndisturbedCovers(once, up, listing, idem, id, s);
    R.ReimportConverges(g.svc, s, targets, WantsIn(work), listing, KeysIn(work, idem),
        Reaching(g, up, listing, idem, id, s), listing', KeysIn(work, idem'),
        Reaching(again, up, listing', idem', id', t), Reaching(once, up, listing, idem, id, s));
  }

  lemma StillImportable(g: Setting, up: Upload, listing: R.Reads, idem: Idem, id: string, s: Store, targets: set<Id>,
                        listing': R.Reads, idem': Idem)
    requires ReadyToImport(g.svc, s, targets, up, listing, idem)
    requires Read(g.svc, Sequentially(g, ImportProposal(up, listing, idem, id), s).0, targets, up, listing', idem')
    ensures ReadyToImport(g.svc, Sequentially(g, ImportProposal(up, listing, idem, id), s).0, targets, up, listing', idem')
  {
    hide R.FoldRefines, R.Clean, R.ProperWants, R.AllRead, R.FreshMints, ImportProposal, WorkIn, R.Applied, Sequentially,
        Reaching, Independent, R.WantsMet, R.RestKept, R.OthersKept, Identified, ScanTo, R.PlannedFrom;
    var work := WorkIn(up.tabs, up);
    ImportRunIsApplied(g, up, listing, idem, id, s, targets);
    R.ReadyFor(g.svc, s, targets, WantsIn(work), listing, KeysIn(work, idem));
    R.AppliedReaches(g.svc, s, targets, WantsIn(work), UploadPlan(up, listing, idem),
        Reaching(g, up, listing, idem, id, s));
  }

  /** The import on the wire: preview, proposal, and the apply of it under any schedule. */
  method Import(gate: Applier, up: Upload, listing: R.Reads, idem: Idem, id: string, limit: nat, reporting: bool,
                ghost targets: set<Id>)
      returns (result: Option<ApplyResult>)
    requires gate.wire.svc == gate.g.svc && limit >= 1 && NoBug(gate.g)
    requires ReadyToImport(gate.g.svc, gate.wire.store, targets, up, listing, idem)
    modifies gate, gate.wire
    ensures var p := ImportProposal(up, listing, idem, id);
            && (result.None? <==> p.items == [])
            && (result.None? ==> gate.wire.store == old(gate.wire.store))
            && (result.Some? ==> gate.wire.store == Sequentially(gate.g, p, old(gate.wire.store)).0)
  {
    hide ReadyToImport, NoBug, Recorded, Extends, Passes, MovesSafe, Independent, ScanTo, Reaching, PreviewOf;
    ghost var s := gate.wire.store;
    var preview := BuildImportPreview(up.tabs, up.collections, listing, idem, up.res);
    var proposals, summary := BuildImportProposals(preview, id);
    result := None;
    if proposals != [] {
      ImportRunIsApplied(gate.g, up, listing, idem, id, s, targets);
      var applied, reports, log := gate.Apply(proposals[0], limit, reporting);
      result := Some(applied);
    }
  }
}
