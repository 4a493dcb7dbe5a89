/**
 A whole organize plan, from the operations the organizer builds to the store an apply of them leaves:
 no move of the plan loses its movie.
 */
module OrganizePlan {
  import opened Common
  import opened Text
  import opened MovieStore
  import opened ToolCall
  import opened Proposals
  import opened ApplyGate
  import opened MoveSafety

  /** The operation was built for a movie that collection `src` holds. */
  ghost predicate BuiltFor(o: OrganizeOp, s: Store, src: Id, collections: seq<Collection>) {
    && o.movie in s.movies && s.movies[o.movie].coll == src
    && exists plan: Planned, shown: string ::
         MakeOp(plan, o.movie, s.movies[o.movie], src, collections, shown).0 == Some(o)
  }

  /** All operations of a plan act on one collection, each on a movie of its own. */
  ghost predicate PlanFor(ops: seq<OrganizeOp>, s: Store, src: Id, collections: seq<Collection>) {
    && (forall i | 0 <= i < |ops| :: BuiltFor(ops[i], s, src, collections))
    && (forall i, j | 0 <= i < j < |ops| :: ops[i].movie != ops[j].movie)
  }

  /** Ids are not empty, and documents hold no id of the service. */
  ghost predicate WellKept(s: Store, src: Id, collections: seq<Collection>) {
    && src in s.collections && src != ""
    && (forall c | c in collections :: c.id != "")
    && (forall id | id in s.movies :: id != "" && s.movies[id].attrs.Keys !! MOVIE_ID_FIELDS)
  }

  /** What the moves of the proposal insert gets ids that are not in use. */
  ghost predicate InsertsAreNew(svc: Service, p: Proposal, s: Store) {
    forall j | 0 <= j < |p.items| && p.items[j].op.OpMove? :: svc.mint(p.items[j].idem + ":add") !in s.movies
  }

  lemma BuiltItem(svc: Service, o: OrganizeOp, s: Store, src: Id, collections: seq<Collection>)
    requires BuiltFor(o, s, src, collections) && WellKept(s, src, collections)
    ensures o.coll == src && !o.op.OpAdd?
    ensures o.op.OpMove? ==>
              && o.dest != src && o.dest != "" && o.movie != "" && o.payload.Some?
              && KeyOf(svc, src, o.payload.value) == MovieKey(svc, s.movies[o.movie])
  {
    var m := s.movies[o.movie];
    var plan: Planned, shown: string :| MakeOp(plan, o.movie, m, src, collections, shown).0 == Some(o);
    MakeOpIsSafe(svc, plan, o.movie, m, src, collections, shown);
    hide KeyOf, MovieKey, ComposePayload, ResolveTarget;
  }

  lemma ItemOf(id: string, ops: seq<OrganizeOp>, idem: string -> string, k: nat)
    requires k < |ops|
    ensures var item := BuildOrganizeProposal(id, ops, idem).items[k];
            && item.op == ops[k].op && item.coll == ops[k].coll && item.movie == ops[k].movie
            && item.payload == ops[k].payload && item.dest == if ops[k].op.OpMove? then ops[k].dest else ""
  {
    var itemId := OpName(ops[k].op) + "-" + NatText(k);
    assert BuildOrganizeProposal(id, ops, idem).items[k] == OrganizeItem(idem(itemId), itemId, ops[k]);
  }

  /** Every move of a plan meets what `NoMoveLosesItsMovie` asks of it. */
  lemma MovesAreWatched(g: Setting, id: string, ops: seq<OrganizeOp>, idem: string -> string, s: Store, src: Id,
                        collections: seq<Collection>, k: nat)
    requires PlanFor(ops, s, src, collections) && WellKept(s, src, collections)
    requires InsertsAreNew(g.svc, BuildOrganizeProposal(id, ops, idem), s)
    requires k < |ops| && ops[k].op.OpMove?
    ensures Watched(g, BuildOrganizeProposal(id, ops, idem), s, k)
  {
    hide BuildOrganizeProposal, BuiltFor, WellKept, KeyOf, MovieKey;
    var p := BuildOrganizeProposal(id, ops, idem);
    BuiltItem(g.svc, ops[k], s, src, collections);
    ItemOf(id, ops, idem, k);
    assert ops[k].movie in s.movies by { MovieIsStored(ops[k], s, src, collections); }
    assert src in s.collections && src != "" by { SourceIsStored(s, src, collections); }
    forall j | 0 <= j < |p.items| && j != k
      ensures Undisturbing(g.svc, p.items[k], p.items[j])
    {
      ItemOf(id, ops, idem, j);
      BuiltItem(g.svc, ops[j], s, src, collections);
    }
  }

  lemma MovieIsStored(o: OrganizeOp, s: Store, src: Id, collections: seq<Collection>)
    requires BuiltFor(o, s, src, collections)
    ensures o.movie in s.movies
  {
  }

  lemma SourceIsStored(s: Store, src: Id, collections: seq<Collection>)
    requires WellKept(s, src, collections)
    ensures src in s.collections && src != ""
  {
  }

  /** An apply of a whole plan, whatever calls fail, whatever the schedule, and wherever it is cut off: every
      movie the plan moves is in the collection it came from or in the one it goes to, and a move reported
      as applied is complete. */
  lemma PlanLosesNoMovie(g: Setting, id: string, ops: seq<OrganizeOp>, idem: string -> string, s: Store, src: Id,
                         collections: seq<Collection>, t: Store, trace: seq<Store>, log: map<nat, Outcome>)
    requires PlanFor(ops, s, src, collections) && WellKept(s, src, collections)
    requires InsertsAreNew(g.svc, BuildOrganizeProposal(id, ops, idem), s)
    requires var p := BuildOrganizeProposal(id, ops, idem); Passes(g, p, s, t, trace) && Extends(g, p, s, log)
    ensures var p := BuildOrganizeProposal(id, ops, idem);
            forall k | 0 <= k < |ops| && ops[k].op.OpMove? ::
              && p.items[k].payload.Some?
              && (forall u :: u in trace ==> Kept(g.svc, p.items[k], u))
              && (AppliedAt(log, k) ==> DestHolds(g.svc, p.items[k], t) && Gone(p.items[k], t))
  {
    hide BuildOrganizeProposal, Passes, Extends, PlanFor, WellKept, InsertsAreNew, Kept, DestHolds, Gone, AppliedAt;
    var p := BuildOrganizeProposal(id, ops, idem);
    ApplyIsSafe(g, p, s, t, trace, log);
    forall k | 0 <= k < |ops| && ops[k].op.OpMove?
      ensures Watched(g, p, s, k)
    {
      MovesAreWatched(g, id, ops, idem, s, src, collections, k);
    }
  }

  // ----- stores the service has made itself -----

  /** The store after these requests, from nothing. */
  function Served(svc: Service, qs: seq<Request>): Store {
    if qs == [] then Store(map[], map[])
    else Serve(svc, Served(svc, qs[..|qs| - 1]), qs[|qs| - 1]).0
  }

  lemma {:induction false} IdsAreMinted(svc: Service, qs: seq<Request>, id: Id)
    requires id in Served(svc, qs).movies
    ensures exists i | 0 <= i < |qs| :: qs[i].Add? && svc.mint(qs[i].idem) == id
  {
    var n := |qs| - 1;
    var q, before := qs[n], Served(svc, qs[..n]);
    if id in before.movies {
      IdsAreMinted(svc, qs[..n], id);
      var i :| 0 <= i < n && qs[..n][i].Add? && svc.mint(qs[..n][i].idem) == id;
      assert qs[i].Add? && svc.mint(qs[i].idem) == id;
    } else {
      assert q.Add? && svc.mint(q.idem) == id;
    }
  }

  ghost predicate DifferentKeysDifferentIds(svc: Service) {
    forall a, b :: svc.mint(a) == svc.mint(b) ==> a == b
  }

  /** In a store made by the service under other keys, what a plan inserts gets new ids. */
  lemma ServedInsertsAreNew(svc: Service, qs: seq<Request>, p: Proposal)
    requires DifferentKeysDifferentIds(svc)
    requires forall i, j | 0 <= i < |qs| && qs[i].Add? && 0 <= j < |p.items| :: qs[i].idem != p.items[j].idem + ":add"
    ensures InsertsAreNew(svc, p, Served(svc, qs))
  {
    hide Served;
    forall j | 0 <= j < |p.items| && p.items[j].op.OpMove?
      ensures svc.mint(p.items[j].idem + ":add") !in Served(svc, qs).movies
    {
      var id := svc.mint(p.items[j].idem + ":add");
      if id in Served(svc, qs).movies {
        IdsAreMinted(svc, qs, id);
      }
    }
  }
}
