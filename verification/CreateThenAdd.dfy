/**
 Adding a film to a collection that does not exist yet: one proposal that first creates the collection
 and then adds the film to it.
 */
module CreateThenAdd {
  import opened Common
  import opened MovieStore
  import opened ToolCall
  import opened Independence
  import opened Proposals
  import opened ApplyGate

  /** The name is not taken, and neither is the id the new collection gets. */
  predicate Creatable(svc: Service, s: Store, name: string, idem: string) {
    && (forall c | c in s.collections :: svc.fold(s.collections[c]) != svc.fold(name))
    && svc.mint(idem) !in s.collections
  }

  /** A refused request is never reported as done, however often it is sent. */
  lemma {:induction false} RefusedIsNeverDone(svc: Service, s: Store, q: Request, script: Script, k: nat, max: nat)
    requires k <= max && Serve(svc, s, q).0 == s && Serve(svc, s, q).1.Status?
    ensures !Invoke(svc, s, q, script, k, max).seen.Success?
    decreases max - k
  {
    hide Serve;
    LoopStep(svc, s, q, script, k, max);
    if Transient(Once(svc, s, q, script(k)).1) && k < max {
      RefusedIsNeverDone(svc, s, q, script, k + 1, max);
    }
  }

  lemma CreatedOnce(svc: Service, s: Store, name: string, idem: string)
    requires Creatable(svc, s, name, idem)
    ensures var (t, r) := Serve(svc, s, Create(name, idem));
            && r == Done(svc.mint(idem)) && svc.mint(idem) in t.collections
            && Serve(svc, t, Create(name, idem)) == (t, Status(409))
  {
    var t := Serve(svc, s, Create(name, idem)).0;
    assert svc.mint(idem) in t.collections && t.collections[svc.mint(idem)] == name;
  }

  /** What a create will report, and what it will leave behind, follow from the store and the faults: it is
      reported applied exactly when the first attempt that reaches the service is answered.  A create that
      takes effect without that is reported as a duplicate if a later attempt is answered, as failed if none
      is. */
  lemma CreateIsReported(svc: Service, s: Store, name: string, idem: string, script: Script, k: nat, max: nat)
    requires k <= max && Creatable(svc, s, name, idem)
    ensures var r := Invoke(svc, s, Create(name, idem), script, k, max);
            && (Executed(r).Applied? <==> AnsweredAtOnce(script, k, max))
            && (Executed(r).Applied? ==> Executed(r).data == Some(svc.mint(idem)))
            && (Executed(r).SkippedDuplicate? <==> Answered(script, k, max) && !AnsweredAtOnce(script, k, max))
            && (svc.mint(idem) in r.store.collections <==> Reaches(script, k, max))
  {
    hide Reaches, AnsweredAtOnce, Answered, Serve, Invoke;
    CreatedOnce(svc, s, name, idem);
    OnceIsReported(svc, s, Create(name, idem), svc.mint(idem), 409, script, k, max);
    EffectIsDecided(svc, s, Create(name, idem), script, k, max);
  }

  /** The collection can be made, and the first attempt to make it that is not fruitless is answered. */
  ghost predicate FilmCanFollow(g: Setting, s: Store, name: string, idem: string) {
    Creatable(g.svc, s, name, idem) && AnsweredAtOnce(g.env(0, 0), 0, g.max)
  }

  lemma UncreatableIsRefused(svc: Service, s: Store, name: string, idem: string, script: Script, max: nat)
    requires !Creatable(svc, s, name, idem)
    ensures !Executed(Invoke(svc, s, Create(name, idem), script, 0, max)).Applied?
  {
    RefusedIsNeverDone(svc, s, Create(name, idem), script, 0, max);
    hide Invoke, Serve;
  }

  /** The film is sent, to the new collection, exactly when the collection can be created and the first
      attempt to create it that is not fruitless is answered; otherwise it is left out and filed as skipped. */
  lemma FilmFollowsCollection(g: Setting, id: string, c: Candidate, name: string, a: Answers, idem: string -> string,
      s: Store)
    requires "" !in g.excludedTabs
    ensures var p := BuildAddProposal(id, c, CollectionRef(None, name, true), a, idem);
            var st, key := ScanTo(g, p, s, 2), idem("create-collection");
            && |p.items| == 2
            && (FilmCanFollow(g, s, name, key) ==>
                  && st.created == Some(g.svc.mint(key))
                  && st.outcomes == map[0 := Applied(Some(g.svc.mint(key)))]
                  && st.tasks == [Task(Add(g.svc.mint(key), ToMoviePayload(c, a), idem("add-movie")), g.env(1, 0))])
            && (!FilmCanFollow(g, s, name, key) ==>
                  && st.created == None && st.tasks == []
                  && 0 in st.outcomes && !st.outcomes[0].Applied?
                  && 1 in st.outcomes && st.outcomes[1] == SkippedMissing)
  {
    var p := BuildAddProposal(id, c, CollectionRef(None, name, true), a, idem);
    var key := idem("create-collection");
    ScanOfAdd(g, id, c, name, a, idem, s);
    hide ScanTo, ToMoviePayload, Reaches, AnsweredAtOnce, Answered, Invoke, BuildAddProposal;
    if Creatable(g.svc, s, name, key) {
      CreateIsReported(g.svc, s, name, key, g.env(0, 0), 0, g.max);
    } else {
      UncreatableIsRefused(g.svc, s, name, key, g.env(0, 0), g.max);
    }
  }

  lemma ScanOfAdd(g: Setting, id: string, c: Candidate, name: string, a: Answers, idem: string -> string, s: Store)
    requires "" !in g.excludedTabs
    ensures var p := BuildAddProposal(id, c, CollectionRef(None, name, true), a, idem);
            var st, (t, o) := ScanTo(g, p, s, 2), Exec(g, s, Create(name, idem("create-collection")), 0, 0);
            && |p.items| == 2 && st.store == t
            && (o.Applied? && o.data.Some? ==>
                  && st.created == o.data && st.outcomes == map[0 := o]
                  && st.tasks == [Task(Add(o.data.value, ToMoviePayload(c, a), idem("add-movie")), g.env(1, 0))])
            && (!(o.Applied? && o.data.Some?) ==>
                  st.created == None && st.tasks == [] && st.outcomes == map[0 := o, 1 := SkippedMissing])
  {
    hide Exec, ToMoviePayload;
    var p := BuildAddProposal(id, c, CollectionRef(None, name, true), a, idem);
    var st0, st1 := ScanTo(g, p, s, 0), ScanTo(g, p, s, 1);
    assert p.items[0].op.OpCreate? && p.items[1].op.OpAdd?;
    assert st1 == ScanItem(g, p, st0, 0) && ScanTo(g, p, s, 2) == ScanItem(g, p, st1, 1);
    assert !Dropped(g, p.items[0]) && !Dropped(g, p.items[1]);
  }

  /** So the film is lost while its collection is made exactly when an attempt takes effect without being
      answered before any other: the collection exists afterwards, the film was never sent, and both items
      are reported as skipped if a later attempt is answered. */
  lemma LostCreateReplyDropsTheFilm(g: Setting, id: string, c: Candidate, name: string, a: Answers,
                                    idem: string -> string, s: Store)
    requires "" !in g.excludedTabs && Creatable(g.svc, s, name, idem("create-collection"))
    ensures var p := BuildAddProposal(id, c, CollectionRef(None, name, true), a, idem);
            var st, script := ScanTo(g, p, s, 2), g.env(0, 0);
            && (g.svc.mint(idem("create-collection")) in st.store.collections && st.tasks == []
                <==> Reaches(script, 0, g.max) && !AnsweredAtOnce(script, 0, g.max))
            && (st.outcomes == map[0 := SkippedDuplicate, 1 := SkippedMissing]
                <==> Answered(script, 0, g.max) && !AnsweredAtOnce(script, 0, g.max))
  {
    ScanOfAdd(g, id, c, name, a, idem, s);
    CreateIsReported(g.svc, s, name, idem("create-collection"), g.env(0, 0), 0, g.max);
    hide ScanTo, ToMoviePayload, Reaches, AnsweredAtOnce, Answered, Invoke, BuildAddProposal;
    var both: map<nat, Outcome> := map[0 := SkippedDuplicate, 1 := SkippedMissing];
    assert 1 in both && both[0] == SkippedDuplicate;
  }

  /** The reply to the first attempt is lost after it took effect; the retry is answered normally. */
  const LOST_ONCE: Script := k => if k == 0 then Faulted(true, Transport) else Delivered

  lemma OneLostReplyIsEnough(max: nat)
    requires max > 0
    ensures Reaches(LOST_ONCE, 0, max) && Answered(LOST_ONCE, 0, max) && !AnsweredAtOnce(LOST_ONCE, 0, max)
  {
    ReachesStep(LOST_ONCE, 0, max);
    ReachesStep(LOST_ONCE, 1, max);
  }
}
