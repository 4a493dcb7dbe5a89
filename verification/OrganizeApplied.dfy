/**
 An apply of an organize plan, from the requests it was built from to the store it leaves: each movie is removed,
 changed or moved as was asked, and the others stay as they are.
 */
module OrganizeApplied {
  import opened Common
  import opened Text
  import opened MovieStore
  import opened ToolCall
  import opened Independence
  import opened Proposals
  import opened ApplyGate
  import opened ApplyRun
  import opened MoveSafety
  import opened OrganizePlan
  import opened PlanApplied
  import opened PlanMoves

  predicate IsFlag(f: string) {
    f == "owned" || f == "ripped" || f == "childrens"
  }

  predicate TagsAsked(changes: Changes) {
    changes.addTags != [] || changes.removeTags != []
  }

  /** The movie with the changes asked for: the flags as named, the tags changed as a set, the rest as stored. */
  ghost predicate ChangedAsAsked(m: Movie, doc: Attrs, changes: Changes) {
    && (forall f | IsFlag(f) && f in changes.flags :: Field(doc, f) == Flag(changes.flags[f]))
    && (TagsAsked(changes) ==> TagsChanged(Field(m.attrs, "tags"), Field(doc, "tags"), changes))
    && (forall f | !(IsFlag(f) && f in changes.flags) && !(f == "tags" && TagsAsked(changes)) ::
          Field(doc, f) == Field(m.attrs, f))
  }

  ghost predicate TagsChanged(before: Value, after: Value, changes: Changes) {
    && after.Many?
    && forall t :: t in after.items <==>
         ((before.Many? && t in before.items) || t in changes.addTags) && t !in changes.removeTags
  }

  lemma RecomposedAsAsked(id: Id, m: Movie, changes: Changes)
    requires m.attrs.Keys !! MOVIE_ID_FIELDS
    ensures ChangedAsAsked(m, ComposePayload(AsRead(id, m), changes), changes)
  {
    hide ComposePayload, NewTags, Field, TagsChanged, MOVIE_ID_FIELDS;
    var doc := ComposePayload(AsRead(id, m), changes);
    forall f
      ensures IsFlag(f) && f in changes.flags ==> Field(doc, f) == Flag(changes.flags[f])
      ensures !(IsFlag(f) && f in changes.flags) && !(f == "tags" && TagsAsked(changes)) ==>
                Field(doc, f) == Field(m.attrs, f)
    {
      ComposeChangesOnlyWhatWasAsked(id, m, changes, f);
    }
    if TagsAsked(changes) {
      ComposeChangesOnlyWhatWasAsked(id, m, changes, "tags");
      TagsChangeAsSets(Field(m.attrs, "tags"), changes);
    }
  }

  lemma TagsChangeAsSets(v: Value, changes: Changes)
    ensures TagsChanged(v, Many(NewTags(v, changes)), changes)
  {
    forall t: string
      ensures t in NewTags(v, changes) <==>
                ((v.Many? && t in v.items) || t in changes.addTags) && t !in changes.removeTags
    {
      if v.Many? {
        TagsAfter(v, changes, t);
      } else {
        TagsAfter(Many([]), changes, t);
        assert NewTags(v, changes) == NewTags(Many([]), changes);
      }
    }
  }

  /** The operation was built from this request. */
  predicate BuiltFrom(o: OrganizeOp, plan: Planned, shown: string, s: Store, src: Id, collections: seq<Collection>) {
    && o.movie in s.movies && s.movies[o.movie].coll == src
    && MakeOp(plan, o.movie, s.movies[o.movie], src, collections, shown).0 == Some(o)
  }

  /** An item of the proposal of a plan. */
  lemma PlanItem(g: Setting, id: string, ops: seq<OrganizeOp>, idem: string -> string, s: Store, src: Id,
                 collections: seq<Collection>, k: nat)
    requires PlanFor(ops, s, src, collections) && WellKept(s, src, collections) && k < |ops|
    ensures var item := BuildOrganizeProposal(id, ops, idem).items[k];
            && PlannedItem(item, src) && item.movie == ops[k].movie && item.op == ops[k].op
            && item.payload == ops[k].payload
            && item.movie in s.movies && s.movies[item.movie].coll == src
            && (item.op.OpUpdate? || item.op.OpMove? ==> CarriesItsKey(g.svc, item, s))
  {
    hide BuildOrganizeProposal, MakeOp, KeyOf, MovieKey, ComposePayload;
    var o := ops[k];
    assert BuiltFor(o, s, src, collections);
    var m := s.movies[o.movie];
    var plan: Planned, shown: string :| MakeOp(plan, o.movie, m, src, collections, shown).0 == Some(o);
    MakeOpIsWhatWasAsked(plan, o.movie, m, src, collections, shown);
    BuiltItem(g.svc, o, s, src, collections);
    ItemOf(id, ops, idem, k);
    TabOfItem(id, ops, idem, k);
    ComposeKeepsKey(g.svc, o.movie, m, plan.changes);
  }

  lemma TabOfItem(id: string, ops: seq<OrganizeOp>, idem: string -> string, k: nat)
    requires k < |ops|
    ensures BuildOrganizeProposal(id, ops, idem).items[k].tab == ""
  {
    var itemId := OpName(ops[k].op) + "-" + NatText(k);
    assert BuildOrganizeProposal(id, ops, idem).items[k] == OrganizeItem(idem(itemId), itemId, ops[k]);
  }

  lemma BuiltPlan(g: Setting, id: string, ops: seq<OrganizeOp>, idem: string -> string, s: Store, src: Id,
                  collections: seq<Collection>)
    requires PlanFor(ops, s, src, collections) && WellKept(s, src, collections)
    requires InsertsDiffer(g, BuildOrganizeProposal(id, ops, idem), s) && Unique(g.svc, s) && "" !in g.excludedTabs
    ensures var p := BuildOrganizeProposal(id, ops, idem);
            Plan(g, p, s, src) && UpdatesKeepKeys(g, p, s) && MovesKeepKeys(g, p, s)
  {
    hide BuildOrganizeProposal, BuiltFor, PlannedItem, CarriesItsKey, Unique;
    var p := BuildOrganizeProposal(id, ops, idem);
    forall k | 0 <= k < |ops|
      ensures PlannedItem(p.items[k], src) && p.items[k].movie == ops[k].movie
      ensures p.items[k].movie in s.movies && s.movies[p.items[k].movie].coll == src
      ensures p.items[k].op.OpUpdate? || p.items[k].op.OpMove? ==> CarriesItsKey(g.svc, p.items[k], s)
    {
      PlanItem(g, id, ops, idem, s, src, collections, k);
    }
    SourceIsStored(s, src, collections);
    hide WellKept;
  }

  /** The movie went where it was asked to go. */
  ghost predicate MovedAsAsked(g: Setting, movie: Id, dest: Id, insert: Id, s: Store, t: Store, k: nat, o: Outcome)
    requires movie in s.movies
  {
    var add, remove := g.env(k, 0), g.env(k, 1);
    var doc := s.movies[movie].attrs;
    var key := KeyOf(g.svc, dest, doc);
    if dest in s.collections then
      && (Holds(g.svc, t, key) <==> Holds(g.svc, s, key) || Reaches(add, 0, g.max))
      && (!Holds(g.svc, s, key) && Reaches(add, 0, g.max) ==>
            insert in t.movies && t.movies[insert] == Movie(dest, doc))
      && (if Answered(add, 0, g.max) && Reaches(remove, 0, g.max) then movie !in t.movies else Same(s, t, movie))
      && (o.Applied? <==> Answered(add, 0, g.max) && Answered(remove, 0, g.max))
    else
      && Same(s, t, movie) && !o.Applied? && (o.SkippedMissing? <==> Answered(add, 0, g.max))
  }

  ghost predicate Removed(g: Setting, movie: Id, s: Store, t: Store, k: nat, o: Outcome) {
    var script := g.env(k, 0);
    && (if Reaches(script, 0, g.max) then movie !in t.movies else Same(s, t, movie))
    && (o.Applied? <==> AnsweredAtOnce(script, 0, g.max))
    && (o.SkippedMissing? <==> Answered(script, 0, g.max) && !AnsweredAtOnce(script, 0, g.max))
  }

  ghost predicate Changed(g: Setting, movie: Id, changes: Changes, s: Store, t: Store, k: nat, o: Outcome) {
    var script := g.env(k, 0);
    && movie in s.movies && movie in t.movies && t.movies[movie].coll == s.movies[movie].coll
    && (if Reaches(script, 0, g.max) then ChangedAsAsked(s.movies[movie], t.movies[movie].attrs, changes)
        else t.movies[movie] == s.movies[movie])
    && (o.Applied? <==> Answered(script, 0, g.max))
  }

  /** What a request of the plan asked for is what became of its movie. */
  ghost predicate Asked(g: Setting, p: Proposal, plan: Planned, o: OrganizeOp, collections: seq<Collection>, s: Store,
                        t: Store, k: nat, outcome: Outcome)
    requires k < |p.items| && o.movie in s.movies
  {
    && (plan.kind == "remove" ==> Removed(g, o.movie, s, t, k, outcome))
    && (plan.kind == "update" ==> Changed(g, o.movie, plan.changes, s, t, k, outcome))
    && (plan.kind == "move" ==>
          && Some(o.dest) == ResolveTarget(Strip(plan.to), collections).0.id
          && MovedAsAsked(g, o.movie, o.dest, g.svc.mint(p.items[k].idem + ":add"), s, t, k, outcome))
  }

  lemma MoveIsAsked(g: Setting, p: Proposal, o: OrganizeOp, plan: Planned, shown: string, s: Store, t: Store, src: Id,
                    collections: seq<Collection>, k: nat, outcome: Outcome)
    requires k < |p.items| && BuiltFrom(o, plan, shown, s, src, collections) && plan.kind == "move"
    requires s.movies[o.movie].attrs.Keys !! MOVIE_ID_FIELDS
    requires p.items[k].movie == o.movie && p.items[k].dest == o.dest && p.items[k].payload == o.payload
    requires p.items[k].payload.Some? && Moved(g, p.items[k], s, t, k, outcome)
    ensures o.payload == Some(s.movies[o.movie].attrs)
    ensures MovedAsAsked(g, o.movie, o.dest, g.svc.mint(p.items[k].idem + ":add"), s, t, k, outcome)
  {
    hide Reaches, Answered, KeyOf, Holds, Same, ResolveTarget;
    MakeOpIsSafe(g.svc, plan, o.movie, s.movies[o.movie], src, collections, shown);
    MakeOpIsWhatWasAsked(plan, o.movie, s.movies[o.movie], src, collections, shown);
    hide MakeOp, MOVIE_ID_FIELDS;
  }

  lemma DocumentHasNoIds(s: Store, src: Id, collections: seq<Collection>, movie: Id)
    requires WellKept(s, src, collections) && movie in s.movies
    ensures s.movies[movie].attrs.Keys !! MOVIE_ID_FIELDS
  {
  }

  /**
   An apply of a whole plan, request by request.  Exactly when some attempt of the write reached the service, the
   movie of a "remove" is gone, and the movie of an "update" is there, in its collection, with the flags and tags
   asked for and every other field as it was; the movie of a "move" is, with the very document it had, in the
   collection named, and gone from the old one once the first half was answered.
   */
  lemma PlanIsDone(g: Setting, id: string, ops: seq<OrganizeOp>, idem: string -> string, s: Store, src: Id,
                   collections: seq<Collection>, k: nat, plan: Planned, shown: string)
    requires PlanFor(ops, s, src, collections) && WellKept(s, src, collections)
    requires InsertsDiffer(g, BuildOrganizeProposal(id, ops, idem), s) && Unique(g.svc, s) && "" !in g.excludedTabs
    requires k < |ops| && BuiltFrom(ops[k], plan, shown, s, src, collections)
    ensures var p := BuildOrganizeProposal(id, ops, idem);
            var (t, log) := Sequentially(g, p, s);
            k in log && Asked(g, p, plan, ops[k], collections, s, t, k, log[k])
  {
    hide BuildOrganizeProposal, Plan, UpdatesKeepKeys, MovesKeepKeys, Sequentially, Reaches, Answered, AnsweredAtOnce,
        Same, PlanFor, WellKept, ChangedAsAsked, ComposePayload, MakeOp, InsertsDiffer, Unique, PlannedItem,
        CarriesItsKey, Moved, MovedAsAsked, ResolveTarget, MOVIE_ID_FIELDS;
    var p, o := BuildOrganizeProposal(id, ops, idem), ops[k];
    var m := s.movies[o.movie];
    BuiltPlan(g, id, ops, idem, s, src, collections);
    PlanItem(g, id, ops, idem, s, src, collections, k);
    ItemOf(id, ops, idem, k);
    DocumentHasNoIds(s, src, collections, o.movie);
    MakeOpIsWhatWasAsked(plan, o.movie, m, src, collections, shown);
    if plan.kind == "remove" {
      RemovalOfPlan(g, p, s, src, k);
    } else if plan.kind == "update" {
      UpdateOfPlan(g, p, s, src, k);
      RecomposedAsAsked(o.movie, m, plan.changes);
    } else {
      MoveOfPlan(g, p, s, src, k);
      var (t, log) := Sequentially(g, p, s);
      BuiltMove(plan, o, shown, s, src, collections);
      MoveIsAsked(g, p, o, plan, shown, s, t, src, collections, k, log[k]);
    }
  }

  lemma BuiltMove(plan: Planned, o: OrganizeOp, shown: string, s: Store, src: Id, collections: seq<Collection>)
    requires BuiltFrom(o, plan, shown, s, src, collections) && plan.kind != "remove" && plan.kind != "update"
    ensures plan.kind == "move" && o.op.OpMove?
  {
  }

  lemma ItemIsNamed(id: string, ops: seq<OrganizeOp>, idem: string -> string, k: nat)
    requires k < |ops|
    ensures var item := BuildOrganizeProposal(id, ops, idem).items[k];
            && item.idem == idem(item.id)
            && (ops[k].op.OpRemove? ==> item.id == "remove-" + NatText(k))
            && (ops[k].op.OpUpdate? ==> item.id == "update-" + NatText(k))
            && (ops[k].op.OpMove? ==> item.id == "move-" + NatText(k))
  {
    var itemId := OpName(ops[k].op) + "-" + NatText(k);
    assert BuildOrganizeProposal(id, ops, idem).items[k] == OrganizeItem(idem(itemId), itemId, ops[k]);
    assert "remove" + "-" == "remove-" && "update" + "-" == "update-" && "move" + "-" == "move-";
  }

  lemma DigitsDiffer(a: string, i: nat, b: string, j: nat)
    requires a + NatText(i) == b + NatText(j) && a != "" && b != "" && a[|a| - 1] == '-' && b[|b| - 1] == '-'
    ensures i == j
  {
    var s, x, y := a + NatText(i), NatText(i), NatText(j);
    forall k | |a| <= k < |s| ensures s[k] != '-' { assert s[k] == x[k - |a|] && x[k - |a|] in x; }
    forall k | |b| <= k < |s| ensures s[k] != '-' { assert s[k] == y[k - |b|] && y[k - |b|] in y; }
    assert s[|a| - 1] == '-' && s[|b| - 1] == '-';
    assert s[|a|..] == x && s[|b|..] == y;
    ParseNatText(i);
    ParseNatText(j);
  }

  /** No two items of a plan have the same name, so under a key function that keeps names apart no two writes have the
      same key. */
  lemma ItemsHaveTheirOwnKeys(id: string, ops: seq<OrganizeOp>, idem: string -> string, i: nat, j: nat)
    requires i < j < |ops| && forall a, b :: idem(a) == idem(b) ==> a == b
    requires forall k | 0 <= k < |ops| :: ops[k].op.OpRemove? || ops[k].op.OpUpdate? || ops[k].op.OpMove?
    ensures var items := BuildOrganizeProposal(id, ops, idem).items;
            items[i].id != items[j].id && items[i].idem != items[j].idem
  {
    hide BuildOrganizeProposal, NatText;
    ItemIsNamed(id, ops, idem, i);
    ItemIsNamed(id, ops, idem, j);
    var items := BuildOrganizeProposal(id, ops, idem).items;
    var a := if ops[i].op.OpRemove? then "remove-" else if ops[i].op.OpUpdate? then "update-" else "move-";
    var b := if ops[j].op.OpRemove? then "remove-" else if ops[j].op.OpUpdate? then "update-" else "move-";
    assert items[i].id == a + NatText(i) && items[j].id == b + NatText(j);
    if items[i].id == items[j].id {
      DigitsDiffer(a, i, b, j);
    }
  }

  lemma InsertIdsDiffer(svc: Service, a: string, b: string)
    requires DifferentKeysDifferentIds(svc) && a != b
    ensures svc.mint(a + ":add") != svc.mint(b + ":add")
  {
    assert (a + ":add")[..|a + ":add"| - 4] == a && (b + ":add")[..|b + ":add"| - 4] == b;
  }

  /** Writes made under keys of their own, in a store the service made under other keys. */
  lemma ServedInsertsDiffer(g: Setting, qs: seq<Request>, p: Proposal)
    requires DifferentKeysDifferentIds(g.svc)
    requires forall i, j | 0 <= i < |qs| && qs[i].Add? && 0 <= j < |p.items| :: qs[i].idem != p.items[j].idem + ":add"
    requires forall i, j | 0 <= i < |p.items| && 0 <= j < |p.items| && i != j :: p.items[i].idem != p.items[j].idem
    ensures InsertsDiffer(g, p, Served(g.svc, qs))
  {
    hide Served, DifferentKeysDifferentIds;
    ServedInsertsAreNew(g.svc, qs, p);
    forall i, j | 0 <= i < |p.items| && 0 <= j < |p.items| && i != j
      ensures g.svc.mint(p.items[i].idem + ":add") != g.svc.mint(p.items[j].idem + ":add")
    {
      InsertIdsDiffer(g.svc, p.items[i].idem, p.items[j].idem);
    }
  }

  /** The approved plan on the wire, under every schedule. */
  method ApplyPlan(gate: Applier, id: string, ops: seq<OrganizeOp>, idem: string -> string, ghost src: Id,
                   ghost collections: seq<Collection>, limit: nat)
      returns (result: ApplyResult, ghost log: map<nat, Outcome>)
    requires gate.wire.svc == gate.g.svc && limit >= 1 && NoBug(gate.g)
    requires PlanFor(ops, gate.wire.store, src, collections) && WellKept(gate.wire.store, src, collections)
    requires InsertsDiffer(gate.g, BuildOrganizeProposal(id, ops, idem), gate.wire.store)
    requires Unique(gate.g.svc, gate.wire.store) && "" !in gate.g.excludedTabs
    modifies gate, gate.wire
    ensures var p := BuildOrganizeProposal(id, ops, idem);
            && Truthful(p, log, result, |p.items|)
            && (forall k, plan, shown |
                  0 <= k < |ops| && BuiltFrom(ops[k], plan, shown, old(gate.wire.store), src, collections) ::
                  k in log && Asked(gate.g, p, plan, ops[k], collections, old(gate.wire.store), gate.wire.store, k, log[k]))
            && (forall other | Unnamed(gate.g, p, other, 0, |p.items|) ::
                  Same(old(gate.wire.store), gate.wire.store, other))
  {
    hide *;
    ghost var g, s := gate.g, gate.wire.store;
    var p := BuildOrganizeProposal(id, ops, idem);
    BuiltPlan(g, id, ops, idem, s, src, collections);
    TasksOfPlan(g, p, s, src);
    var reports;
    result, reports, log := gate.Apply(p, limit, false);
    forall k: nat, plan, shown | k < |ops| && BuiltFrom(ops[k], plan, shown, s, src, collections)
      ensures ops[k].movie in s.movies && k in log && Asked(g, p, plan, ops[k], collections, s, gate.wire.store, k, log[k])
    {
      BuiltIsStored(ops[k], plan, shown, s, src, collections);
      PlanIsDone(g, id, ops, idem, s, src, collections, k, plan, shown);
    }
    forall other | Unnamed(g, p, other, 0, |p.items|)
      ensures Same(s, gate.wire.store, other)
    {
      UnnamedIsSpared(g, p, s, src, other);
    }
  }

  lemma BuiltIsStored(o: OrganizeOp, plan: Planned, shown: string, s: Store, src: Id, collections: seq<Collection>)
    requires BuiltFrom(o, plan, shown, s, src, collections)
    ensures o.movie in s.movies
  {
  }
}
