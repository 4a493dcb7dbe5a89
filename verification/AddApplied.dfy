/**
 An approved add, from the proposal to the stored film: which collection it is sent to, what it is reported as,
 and what the service then holds.
 */
module AddApplied {
  import opened Common
  import opened MovieStore
  import opened ToolCall
  import opened Independence
  import opened Proposals
  import opened ApplyGate
  import opened ApplyRun
  import opened MoveSafety

  /** The item at `pos` waits to be sent as `q`. */
  ghost predicate WaitsAs(g: Setting, st: Scan, pos: nat, q: Request) {
    pos !in st.outcomes
    && exists i | 0 <= i < |st.tasks| && i < |st.positions| ::
         st.positions[i] == pos && st.tasks[i] == Task(q, g.env(pos, 0))
  }

  lemma WaitsOn(g: Setting, p: Proposal, s: Store, m: nat, n: nat, pos: nat, q: Request)
    requires pos < m <= n <= |p.items| && WaitsAs(g, ScanTo(g, p, s, m), pos, q)
    ensures WaitsAs(g, ScanTo(g, p, s, n), pos, q)
  {
    var a, b := ScanTo(g, p, s, m), ScanTo(g, p, s, n);
    ScanGrows(g, p, s, m, n);
    var i :| 0 <= i < |a.tasks| && i < |a.positions| && a.positions[i] == pos && a.tasks[i] == Task(q, g.env(pos, 0));
    hide ScanTo;
    assert b.tasks[..|a.tasks|][i] == b.tasks[i] && b.positions[..|a.positions|][i] == b.positions[i];
  }

  /** The document of an add: the chosen film with the answers given, or the row of a sheet. */
  function DocumentOf(item: Item): Option<Attrs> {
    if item.candidate.Some? then Some(ToMoviePayload(item.candidate.value, item.answers)) else item.payload
  }

  /** The add item at `n`, met by the scan. */
  lemma AddStep(g: Setting, p: Proposal, st: Scan, n: nat)
    requires n < |p.items| && p.items[n].op.OpAdd? && !Dropped(g, p.items[n])
    requires |st.tasks| == |st.positions| && n !in st.outcomes
    ensures var item, st' := p.items[n], ScanItem(g, p, st, n);
            var target := if item.coll != "" then Some(item.coll) else st.collection;
            if DocumentOf(item).Some? && target.Some? then
              && WaitsAs(g, st', n, Add(target.value, DocumentOf(item).value, item.idem))
              && n in st'.targets && st'.targets[n] == target.value
            else n in st'.outcomes && st'.outcomes[n] == SkippedMissing
  {
    hide ToMoviePayload, Exec;
    var item, st' := p.items[n], ScanItem(g, p, st, n);
    var target := if item.coll != "" then Some(item.coll) else st.collection;
    if DocumentOf(item).Some? && target.Some? {
      assert st'.positions[|st.positions|] == n;
      assert st'.tasks[|st.tasks|] == Task(Add(target.value, DocumentOf(item).value, item.idem), g.env(n, 0));
    }
  }

  /**
   Where an approved add goes.  Every kept add with a document is sent: to its own collection if it names one,
   else to the collection created last before it, else to the collection of the proposal; without any of these,
   or without a document, it is filed as skipped.
   */
  lemma AddIsSent(g: Setting, p: Proposal, s: Store, pos: nat)
    requires pos < |p.items| && p.items[pos].op.OpAdd? && !Dropped(g, p.items[pos])
    ensures var item, st := p.items[pos], ScanTo(g, p, s, |p.items|);
            var created := LastCreated(g, p, st.outcomes, pos);
            var target := if item.coll != "" then Some(item.coll)
                          else if created.Some? then created
                          else if p.target.Some? then p.target.value.id else None;
            if DocumentOf(item).Some? && target.Some? then
              && WaitsAs(g, st, pos, Add(target.value, DocumentOf(item).value, item.idem))
              && pos in st.targets && st.targets[pos] == target.value
            else pos in st.outcomes && st.outcomes[pos] == SkippedMissing
  {
    hide ScanItem, StartScan, DocumentOf, CreatedAt, WaitsAs, Deferrable, TaskOf;
    var n, item := |p.items|, p.items[pos];
    var before, after, st := ScanTo(g, p, s, pos), ScanTo(g, p, s, pos + 1), ScanTo(g, p, s, n);
    CollectionOfScan(g, p, s, pos);
    ScanShape(g, p, s, pos);
    AddStep(g, p, before, pos);
    ScanGrows(g, p, s, pos + 1, n);
    ScanGrows(g, p, s, pos, n);
    EarlierCreates(g, p, before, st, pos);
    var target := if item.coll != "" then Some(item.coll) else before.collection;
    if DocumentOf(item).Some? && target.Some? {
      WaitsOn(g, p, s, pos + 1, n, pos, Add(target.value, DocumentOf(item).value, item.idem));
    }
  }

  lemma EarlierCreates(g: Setting, p: Proposal, a: Scan, b: Scan, n: nat)
    requires n <= |p.items| && Grows(a, b, n)
    ensures LastCreated(g, p, a.outcomes, n) == LastCreated(g, p, b.outcomes, n)
  {
    SameLastCreated(g, p, a.outcomes, b.outcomes, n);
  }

  /** In the ordinary case: a proposal for an existing collection with nothing to create sends every kept add
      without a collection of its own there. */
  lemma AddGoesToTheProposalsCollection(g: Setting, p: Proposal, s: Store, ref: CollectionRef, k: Id, pos: nat, doc: Attrs)
    requires p.target == Some(ref) && ref.id == Some(k)
    requires pos < |p.items| && p.items[pos].op.OpAdd? && p.items[pos].coll == "" && !Dropped(g, p.items[pos])
    requires forall j | 0 <= j < pos :: !p.items[j].op.OpCreate?
    requires p.items[pos].candidate.Some? ==>
               doc == ToMoviePayload(p.items[pos].candidate.value, p.items[pos].answers)
    requires p.items[pos].candidate.None? ==> p.items[pos].payload == Some(doc)
    ensures WaitsAs(g, ScanTo(g, p, s, |p.items|), pos, Add(k, doc, p.items[pos].idem))
  {
    hide ToMoviePayload, ScanTo, WaitsAs;
    AddIsSent(g, p, s, pos);
  }

  // ----- one film -----

  /** The collection is there, and neither the film nor its id is. */
  predicate Addable(svc: Service, s: Store, coll: Id, doc: Attrs, idem: string) {
    coll in s.collections && !Holds(svc, s, KeyOf(svc, coll, doc)) && svc.mint(idem) !in s.movies
  }

  lemma AddedStore(svc: Service, s: Store, coll: Id, doc: Attrs, idem: string)
    requires Addable(svc, s, coll, doc, idem)
    ensures var (t, r) := Serve(svc, s, Add(coll, doc, idem));
            && r == Done(svc.mint(idem)) && t == s.(movies := s.movies[svc.mint(idem) := Movie(coll, doc)])
            && Serve(svc, t, Add(coll, doc, idem)) == (t, Status(409))
  {
    AddLands(svc, s, coll, doc, idem);
  }

  /** What an add will report, and what it leaves behind, follow from the store and the faults. */
  lemma AddIsReported(svc: Service, s: Store, coll: Id, doc: Attrs, idem: string, script: Script, max: nat)
    ensures var q := Add(coll, doc, idem);
            var r := Invoke(svc, s, q, script, 0, max);
            && (Addable(svc, s, coll, doc, idem) ==>
                  && (Executed(r) == Applied(Some(svc.mint(idem))) <==> AnsweredAtOnce(script, 0, max))
                  && (Executed(r).Applied? <==> AnsweredAtOnce(script, 0, max))
                  && (Executed(r).SkippedDuplicate? <==> Answered(script, 0, max) && !AnsweredAtOnce(script, 0, max))
                  && r.store == (if Reaches(script, 0, max)
                                 then s.(movies := s.movies[svc.mint(idem) := Movie(coll, doc)]) else s))
            && (coll in s.collections && Holds(svc, s, KeyOf(svc, coll, doc)) ==>
                  && r.store == s && !Executed(r).Applied?
                  && (Executed(r).SkippedDuplicate? <==> Answered(script, 0, max)))
            && (coll !in s.collections ==>
                  && r.store == s && !Executed(r).Applied?
                  && (Executed(r).SkippedMissing? <==> Answered(script, 0, max)))
  {
    var q := Add(coll, doc, idem);
    EffectIsDecided(svc, s, q, script, 0, max);
    if Addable(svc, s, coll, doc, idem) {
      AddedStore(svc, s, coll, doc, idem);
      OnceIsReported(svc, s, q, svc.mint(idem), 409, script, 0, max);
    } else if coll !in s.collections || Holds(svc, s, KeyOf(svc, coll, doc)) {
      IdleAnswer(svc, s, q, script, 0, max);
    }
    hide Serve, Invoke, Reaches, Answered, AnsweredAtOnce, Holds;
  }

  /** The film as the service files it. */
  function FilmKey(svc: Service, coll: Id, c: Candidate): Key {
    Key(coll, Value.Text(svc.fold(c.title)), if c.year.Some? then Num(c.year.value) else Null, Value.Text("Movie"))
  }

  lemma ScanOfFilm(g: Setting, id: string, c: Candidate, ref: CollectionRef, k: Id, a: Answers, idem: string -> string,
                   s: Store)
    requires "" !in g.excludedTabs && ref.id == Some(k) && !ref.createIfMissing
    ensures var p := BuildAddProposal(id, c, ref, a, idem);
            var st := ScanTo(g, p, s, 1);
            && |p.items| == 1 && st.store == s && st.outcomes == map[] && st.positions == [0]
            && st.tasks == [Task(Add(k, ToMoviePayload(c, a), idem("add-movie")), g.env(0, 0))]
            && 0 in st.targets && st.targets[0] == k
  {
    hide ToMoviePayload;
    var p := BuildAddProposal(id, c, ref, a, idem);
    var st0 := ScanTo(g, p, s, 0);
    assert ScanTo(g, p, s, 1) == ScanItem(g, p, st0, 0);
    assert p.items[0].op.OpAdd? && !Dropped(g, p.items[0]);
  }

  lemma OneIsIndependent(svc: Service, s: Store, task: Task)
    requires Deferrable(task.req)
    ensures Independent(svc, s, [task])
  {
  }

  /**
   The approved add of a film to a collection of the member: what is sent is the film chosen with the answers
   given, under its own key, and whether it is stored and what is reported follow from the store and the faults.
   */
  lemma FilmIsAdded(g: Setting, id: string, c: Candidate, ref: CollectionRef, k: Id, a: Answers,
                    idem: string -> string, s: Store)
    requires "" !in g.excludedTabs && ref.id == Some(k) && !ref.createIfMissing
    ensures var p := BuildAddProposal(id, c, ref, a, idem);
            var (t, log) := Sequentially(g, p, s);
            var st, movie, script := ScanTo(g, p, s, |p.items|), g.svc.mint(idem("add-movie")), g.env(0, 0);
            && |p.items| == 1 && Independent(g.svc, st.store, st.tasks) && 0 in log
            && 0 in st.targets && st.targets[0] == k
            && (k in s.collections && !Holds(g.svc, s, FilmKey(g.svc, k, c)) && movie !in s.movies ==>
                  && (log[0].Applied? <==> AnsweredAtOnce(script, 0, g.max))
                  && (log[0].Applied? ==> log[0].data == Some(movie))
                  && (log[0].SkippedDuplicate? <==> Answered(script, 0, g.max) && !AnsweredAtOnce(script, 0, g.max))
                  && (Reaches(script, 0, g.max) ==>
                        t == s.(movies := s.movies[movie := Movie(k, ToMoviePayload(c, a))])
                        && Holds(g.svc, t, FilmKey(g.svc, k, c)))
                  && (!Reaches(script, 0, g.max) ==> t == s))
            && (k in s.collections && Holds(g.svc, s, FilmKey(g.svc, k, c)) ==>
                  t == s && !log[0].Applied? && (log[0].SkippedDuplicate? <==> Answered(script, 0, g.max)))
            && (k !in s.collections ==>
                  t == s && !log[0].Applied? && (log[0].SkippedMissing? <==> Answered(script, 0, g.max)))
  {
    var p, doc := BuildAddProposal(id, c, ref, a, idem), ToMoviePayload(c, a);
    var key, movie := idem("add-movie"), g.svc.mint(idem("add-movie"));
    ScanOfFilm(g, id, c, ref, k, a, idem, s);
    var st := ScanTo(g, p, s, |p.items|);
    OneIsIndependent(g.svc, s, st.tasks[0]);
    AddIsReported(g.svc, s, k, doc, key, g.env(0, 0), g.max);
    PayloadIsTheFilm(g.svc, k, c, a);
    OneInOrder(g.svc, s, st.tasks[0], g.max);
    OneMerged(InOrder(g.svc, s, st.tasks, g.max).1);
    FilmIsHeld(g.svc, s, movie, k, doc);
    hide ToMoviePayload, BuildAddProposal, ScanTo, Serve, Invoke, Reaches, Answered, AnsweredAtOnce, InOrder, Independent,
        Holds, KeyOf, Merge;
  }

  lemma OneInOrder(svc: Service, s: Store, task: Task, max: nat)
    ensures var r := Invoke(svc, s, task.req, task.script, 0, max);
            InOrder(svc, s, [task], max) == (r.store, [Executed(r)])
  {
    hide Invoke, Executed;
    assert [task][..|[task]| - 1] == [] && InOrder(svc, s, [], max) == (s, []);
    assert [] + [Executed(Invoke(svc, s, task.req, task.script, 0, max))]
        == [Executed(Invoke(svc, s, task.req, task.script, 0, max))];
  }

  lemma OneMerged(results: seq<Outcome>)
    requires |results| == 1
    ensures Merge(map[], [0], results) == map[0 := results[0]]
  {
    assert Merge(map[], [0][..0], results[..0]) == map[];
  }

  lemma FilmIsHeld(svc: Service, s: Store, id: Id, coll: Id, doc: Attrs)
    ensures Holds(svc, s.(movies := s.movies[id := Movie(coll, doc)]), KeyOf(svc, coll, doc))
  {
    var t := s.(movies := s.movies[id := Movie(coll, doc)]);
    assert id in t.movies && MovieKey(svc, t.movies[id]) == KeyOf(svc, coll, doc);
  }

  lemma FilmItem(id: string, c: Candidate, ref: CollectionRef, a: Answers, idem: string -> string)
    requires !ref.createIfMissing
    ensures var p := BuildAddProposal(id, c, ref, a, idem);
            |p.items| == 1 && p.items[0].id == "add-movie" && p.items[0].op.OpAdd? && p.items[0].tab == ""
  {
  }

  lemma ReportOfFilm(g: Setting, p: Proposal, log: map<nat, Outcome>, to: map<nat, Id>, r: ApplyResult)
    requires |p.items| == 1 && p.items[0].op.OpAdd? && !Dropped(g, p.items[0]) && 0 in log && 0 in to
    requires Truthful(p, log, r, 1) && Recorded(g, p, log, to, r, 1)
    ensures var id := [p.items[0].id];
            && r.applied == (if log[0].Applied? then id else [])
            && r.skipped == (if log[0].SkippedDuplicate? || log[0].SkippedMissing? then id else [])
            && r.failed == (if log[0].Failed? || log[0].Crashed? then id else [])
            && (log[0].Applied? && log[0].data.Some? && log[0].data.value != "" && to[0] != "" ==>
                  r.addedMovie == log[0].data && r.addedCollection == Some(to[0]))
  {
    hide Filed, Dropped;
    assert IdsWith(p, log, WasApplied(), 0) == [] && IdsWith(p, log, WasSkipped(), 0) == []
        && IdsWith(p, log, HasFailed(), 0) == [];
    assert LastAdd(g, p, log, 1) == if AppliedAdd(g, p, log, 0) then Some(0) else None;
    assert LastSent(g, p, log, to, 1) == if AppliedAdd(g, p, log, 0) && SentTo(to, 0) then Some(0) else None;
  }

  /** What the report and the store say of the film: it is listed as applied, with the movie to open, exactly when
      it was answered at once, and stored exactly when some attempt reached the service; a film the collection
      holds, or one for a collection that is gone, changes nothing and is never listed as applied. */
  ghost predicate FilmReported(g: Setting, s: Store, t: Store, k: Id, c: Candidate, a: Answers, movie: Id, r: ApplyResult) {
    var script := g.env(0, 0);
    && (r.applied == ["add-movie"] || r.skipped == ["add-movie"] || r.failed == ["add-movie"])
    && (k in s.collections && !Holds(g.svc, s, FilmKey(g.svc, k, c)) && movie !in s.movies ==>
          && (r.applied == ["add-movie"] <==> AnsweredAtOnce(script, 0, g.max))
          && t == if Reaches(script, 0, g.max) then s.(movies := s.movies[movie := Movie(k, ToMoviePayload(c, a))])
                  else s)
    && (k !in s.collections || Holds(g.svc, s, FilmKey(g.svc, k, c)) ==> t == s && r.applied == [])
    && (k in s.collections && movie !in s.movies && r.applied == ["add-movie"] && movie != "" && k != "" ==>
          r.addedMovie == Some(movie) && r.addedCollection == Some(k))
  }

  lemma ReportFits(g: Setting, id: string, c: Candidate, ref: CollectionRef, k: Id, a: Answers, idem: string -> string,
                   s: Store, t: Store, log: map<nat, Outcome>, r: ApplyResult)
    requires "" !in g.excludedTabs && ref.id == Some(k) && !ref.createIfMissing
    requires var p := BuildAddProposal(id, c, ref, a, idem);
             && (t, log) == Sequentially(g, p, s) && Truthful(p, log, r, |p.items|)
             && Recorded(g, p, log, ScanTo(g, p, s, |p.items|).targets, r, |p.items|)
    ensures FilmReported(g, s, t, k, c, a, g.svc.mint(idem("add-movie")), r)
  {
    hide Recorded, Truthful, Sequentially, ScanTo, ToMoviePayload, BuildAddProposal, Reaches, Answered, AnsweredAtOnce,
        Holds, FilmKey, Independent;
    var p := BuildAddProposal(id, c, ref, a, idem);
    FilmIsAdded(g, id, c, ref, k, a, idem, s);
    FilmItem(id, c, ref, a, idem);
    ReportOfFilm(g, p, log, ScanTo(g, p, s, |p.items|).targets, r);
  }

  /** The approved add on the wire, under every schedule. */
  method AddFilm(gate: Applier, id: string, c: Candidate, ref: CollectionRef, k: Id, a: Answers,
                 idem: string -> string, limit: nat)
      returns (result: ApplyResult)
    requires gate.wire.svc == gate.g.svc && limit >= 1 && NoBug(gate.g)
    requires "" !in gate.g.excludedTabs && ref.id == Some(k) && !ref.createIfMissing
    modifies gate, gate.wire
    ensures FilmReported(gate.g, old(gate.wire.store), gate.wire.store, k, c, a, gate.g.svc.mint(idem("add-movie")), result)
  {
    hide *;
    ghost var s := gate.wire.store;
    var p := BuildAddProposal(id, c, ref, a, idem);
    FilmIsAdded(gate.g, id, c, ref, k, a, idem, s);
    var reports;
    ghost var log;
    result, reports, log := gate.Apply(p, limit, false);
    ReportFits(gate.g, id, c, ref, k, a, idem, s, gate.wire.store, log, result);
  }
}
