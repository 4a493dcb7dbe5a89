/**
 What a message is taken for and what comes of it: the effect of each label when no workflow is going on, of a
 reply to one that is, and of a turn that is not about the message at all.
 */
module Labelled {
  import opened Common
  import opened Text
  import opened Proposals
  import opened PickOption
  import opened Replies
  import opened SearchFlow
  import opened Conversation
  import Batches

  // ----- turns without a label -----

  /** The collection, the film, the offers and the answers of an add, and queued batches, are gone. */
  function WithoutAdd(s: State): State {
    s.(add := NoAdd, target := None, candidate := None, options := [], pick := None, childrens := None,
       ownedMedia := [], offered := [], batches := [])
  }

  /** The exit control of a search, which works before anything else is looked at. */
  predicate IsExit(s: State, t: Turn) {
    t.human && IsSearchCancel(t.text) && s.add.NoAdd?
  }

  /** A switched-off assistant, an open breaker and a failed classifier drop the add and do nothing else; a turn that
      no message of the member started does nothing at all. */
  lemma UnlabelledTurns(s: State, t: Turn)
    ensures t.killed ==> TakeTurn(s, t) == WithoutAdd(s)
    ensures !t.killed && !IsExit(s, t) && (t.breakerOpen || (t.human && t.classified.None?)) ==>
              TakeTurn(s, t) == WithoutAdd(s)
    ensures !t.killed && !t.human && !t.breakerOpen ==> TakeTurn(s, t) == s
  {
    hide IsSearchCancel, AfterLabel;
  }

  // ----- no workflow is going on -----

  /** The label is taken as it comes. */
  lemma TakenAsLabelled(s: State, t: Turn)
    requires Live(s) == 0 && Ordinary(t)
    ensures Supervise(s, t) == (s, t.classified.value)
  {
    hide IsSearchCancel;
  }

  /** The web results for a title: shown at once if there is one film, offered otherwise. */
  function WebSearch(title: string, r: Reads): SearchState {
    if |r.web(title)| == 1 then SearchState(NoSearch, "", "", []) else SearchState(SearchPick, "web", title, r.web(title))
  }

  /** A search starts for the title named: outside if the member has no collection, in the collection the message is
      about if there is one, and with the question where to look otherwise. */
  lemma FreshSearch(s: State, t: Turn)
    requires Live(s) == 0 && Ordinary(t) && t.classified == Some(Search)
    ensures var u, r := TakeTurn(s, t), t.world.found;
            if t.world.nodeFails then u == s
            else
              && u == s.(pending := None, pick := None, search := u.search)
              && u.search == if r.title == "" then SearchState(NoSearch, "", "", [])
                             else if r.collections == [] then WebSearch(r.title, r)
                             else if r.home.None? then SearchState(SearchScope, s.search.scope, r.title, [])
                             else SearchState(SearchPick, r.home.value.id, r.title, r.owned(r.title, r.home.value.id))
  {
    TakenAsLabelled(s, t);
    hide Supervise, IsSearchCancel, CancelsSearch;
  }

  /** The plan waits for approval as a whole, in batches of fifty operations. */
  ghost predicate PlanWaits(u: State, ops: seq<OrganizeOp>) {
    && u.pending.Some?
    && var waiting, parts := [u.pending.value] + u.batches, Batches.Chunk(ops, 50);
       |waiting| == |parts| && forall i | 0 <= i < |waiting| :: BatchOf(waiting[i], parts[i])
  }

  lemma FinalizedWaits(s: State, ops: seq<OrganizeOp>, w: World)
    ensures var u := Finalize(s, ops, w);
            if ops == [] then u == s.(pending := None, organizing := false, organizeOptions := [])
            else
              && PlanWaits(u, ops)
              && u == s.(pending := u.pending, batches := u.batches, organizing := false, organizeOptions := [])
  {
    if ops != [] {
      QueuedIsThePlan(s, ops, w);
      hide BatchOf;
    }
    hide OrganizeProposals;
  }

  /** What a request to organize makes of the state. */
  ghost predicate Organized(s: State, u: State, w: World) {
    if w.nodeFails then u == s
    else match w.plan
      case PlanFailed => u == s.(pending := None)
      case NoSuchSource => u == s.(pending := None)
      case AskWhich(movies) => u == s.(pending := None, organizing := true, organizeOptions := movies)
      case Resolved(ops) =>
        && u == s.(pending := u.pending, batches := u.batches, organizeOptions := [])
        && (if ops == [] then u.pending.None? && u.batches == s.batches else PlanWaits(u, ops))
  }

  /** A plan is put up for approval, or the question which movie is meant; nothing is put up when there is nothing to
      do or the plan cannot be made. */
  lemma FreshOrganize(s: State, t: Turn)
    requires Live(s) == 0 && Ordinary(t) && t.classified == Some(Organize)
    ensures Organized(s, TakeTurn(s, t), t.world)
  {
    TakenAsLabelled(s, t);
    if t.world.plan.Resolved? {
      FinalizedWaits(s, t.world.plan.ops, t.world);
    }
    hide Supervise, Finalize, PlanWaits;
  }

  /** What an import turn makes of the state. */
  predicate Imported(s: State, u: State, w: World) {
    if w.nodeFails then u == s.(importing := false, importOptions := [])
    else match w.imported
      case ImportSays => u == s
      case ImportAsks(choices) => u == s.(importing := true, importOptions := choices)
      case ImportEnds => u == s.(importing := false, importOptions := [])
      case ImportProposes(p) =>
        u == s.(importing := false, importOptions := [], pending := Some(p), batches := [])
  }

  lemma FreshImport(s: State, t: Turn)
    requires Live(s) == 0 && Ordinary(t) && t.classified == Some(Import)
    ensures Imported(s, TakeTurn(s, t), t.world)
  {
    TakenAsLabelled(s, t);
    hide Supervise;
  }

  /** A navigation asks which collection is meant, or is over at once. */
  lemma FreshNavigate(s: State, t: Turn)
    requires Live(s) == 0 && Ordinary(t) && t.classified == Some(Navigate)
    ensures TakeTurn(s, t)
            == if t.world.nodeFails then s
               else s.(pending := None, pick := None, navigating := t.world.asked != [], navigateOptions := t.world.asked)
  {
    TakenAsLabelled(s, t);
    hide Supervise, Chooses;
  }

  /** The other labels start nothing. */
  lemma FreshOthers(s: State, t: Turn)
    requires Live(s) == 0 && Ordinary(t)
    ensures t.classified == Some(Query) ==>
              TakeTurn(s, t) == if t.world.nodeFails then s else s.(pending := None, pick := None)
    ensures t.classified == Some(Export) || t.classified == Some(Ambiguous) ==> TakeTurn(s, t) == s
    ensures t.classified == Some(OutOfDomain) ==> TakeTurn(s, t) == WithoutAdd(s)
  {
    TakenAsLabelled(s, t);
    hide Supervise;
  }

  /** The film is at hand, and an add goes on to its collection. */
  function FilmTaken(s: State, film: Candidate, w: World): State {
    var u := s.(candidate := Some(film), options := [], pick := None, pending := None);
    if w.target.None? then u.(add := AwaitCollection) else u.(add := AwaitChildrens, target := w.target)
  }

  /** The message is taken as naming a film to add: labelled so, or said while a film or a collection is asked for. */
  predicate NamesFilm(s: State, t: Turn) {
    && Ordinary(t)
    && var i := t.classified.value;
       || (Live(s) == 0 && i.Add?)
       || (s.add.AwaitPick? && !Chooses(t.text, s.options) && !i.Organize? && !i.OutOfDomain?)
       || (s.add.AwaitCollection? && !i.Organize?)
  }

  lemma TakenAsAdd(s: State, t: Turn)
    requires NamesFilm(s, t)
    ensures Supervise(s, t) == (s, Add)
  {
    hide IsSearchCancel, ResolveOption;
  }

  /** A message that names a film: the film found, the films to choose from, or nothing.  A film picked before, but
      not looked up yet, comes first; without a title, the films on offer stay on offer, and the film that only lacks
      its collection goes on. */
  lemma FilmNamed(s: State, t: Turn)
    requires NamesFilm(s, t)
    ensures var u, w := TakeTurn(s, t), t.world;
            if w.nodeFails then u == s
            else if w.extraction.Unreadable? then u == s.(candidate := None, add := NoAdd)
            else if s.add.AwaitCollection? && s.candidate.Some? && w.extraction.title == "" then
              u == if w.target.None? then s.(pending := None)
                   else s.(pending := None, add := AwaitChildrens, target := w.target)
            else if s.pick.Some? then u == FilmTaken(s, w.details(s.pick.value), w)
            else if w.extraction.title == "" then
              u == if s.add.AwaitPick? && s.options != [] then s.(candidate := None)
                   else s.(candidate := None, add := NoAdd)
            else match w.enrichment
              case NoFilm => u == s.(candidate := None, add := NoAdd)
              case SeveralFilms(films) => u == s.(candidate := None, add := AwaitPick, options := films)
              case OneFilm(film) => u == FilmTaken(s, film, w)
  {
    TakenAsAdd(s, t);
    NamesNoQuestion(s, t);
    hide Supervise, NamesFilm, OnChildrens, OnOwnership, OnMedia, OnRipped, OnQuality;
  }

  lemma NamesNoQuestion(s: State, t: Turn)
    requires NamesFilm(s, t)
    ensures s.add.NoAdd? || s.add.AwaitPick? || s.add.AwaitCollection?
  {
    hide IsSearchCancel, Chooses;
  }

  /** A film on offer that is picked is looked up and taken. */
  lemma FilmPicked(s: State, t: Turn)
    requires Ordinary(t) && s.add.AwaitPick? && Chooses(t.text, s.options)
    ensures var u, w, choice := TakeTurn(s, t), t.world, s.options[ResolveOption(t.text, s.options).value];
            u == if w.nodeFails then s.(pick := Some(choice))
                 else if w.extraction.Unreadable? then s.(pick := Some(choice), candidate := None, add := NoAdd)
                 else FilmTaken(s, w.details(choice), w)
  {
    assert Supervise(s, t) == (s.(pick := Some(s.options[ResolveOption(t.text, s.options).value])), Add) by {
      hide IsSearchCancel, ResolveOption;
    }
    hide Supervise, ResolveOption, IsSearchCancel, OnChildrens, OnOwnership, OnMedia, OnRipped, OnQuality;
  }

  /** A film asked about is looked up, and no add begins. */
  lemma FreshEnrich(s: State, t: Turn)
    requires Live(s) == 0 && Ordinary(t) && t.classified == Some(Enrich)
    ensures var u, w := TakeTurn(s, t), t.world;
            if w.nodeFails then u == s
            else if w.extraction.Unreadable? then u == s.(candidate := None)
            else if s.pick.Some? then u == s.(candidate := Some(w.details(s.pick.value)), options := [], pick := None)
            else if w.extraction.title == "" then u == s.(candidate := None)
            else match w.enrichment
              case NoFilm => u == s.(candidate := None)
              case SeveralFilms(films) => u == s.(candidate := None, add := AwaitPick, options := films)
              case OneFilm(film) => u == s.(candidate := Some(film), options := [])
  {
    TakenAsLabelled(s, t);
    hide Supervise, IsSearchCancel;
  }

  // ----- a workflow is going on -----

  /** A collection of that name in any case, or else one whose name of two letters or more is in the reply; the first
      of them in either case. */
  predicate NamedBy(low: string, collections: seq<Collection>, i: nat)
    requires i < |collections|
  {
    if exists c | c in collections :: Lower(c.name) == low then
      Lower(collections[i].name) == low && forall j | 0 <= j < i :: Lower(collections[j].name) != low
    else
      MeantBy(low, collections[i]) && forall j | 0 <= j < i :: !MeantBy(low, collections[j])
  }

  predicate MeantBy(low: string, c: Collection) {
    |c.name| >= 2 && Contains(low, Lower(c.name))
  }

  lemma {:induction false} ExactlyNamed(low: string, collections: seq<Collection>)
    ensures var r := NamedExactly(low, collections);
            if r.Some? then
              exists i | 0 <= i < |collections| ::
                && collections[i] == r.value && Lower(collections[i].name) == low
                && forall j | 0 <= j < i :: Lower(collections[j].name) != low
            else forall c | c in collections :: Lower(c.name) != low
  {
    hide Lower;
    if collections != [] && Lower(collections[0].name) != low {
      var rest := collections[1..];
      ExactlyNamed(low, rest);
      var r := NamedExactly(low, rest);
      if r.Some? {
        var i :| 0 <= i < |rest| && rest[i] == r.value && Lower(rest[i].name) == low
                 && forall j | 0 <= j < i :: Lower(rest[j].name) != low;
        assert collections[i + 1] == rest[i] && forall j | 0 < j < i + 1 :: collections[j] == rest[j - 1];
      }
    }
  }

  lemma {:induction false} InsideNamed(low: string, collections: seq<Collection>)
    ensures var r := NamedInside(low, collections);
            if r.Some? then
              exists i | 0 <= i < |collections| ::
                collections[i] == r.value && MeantBy(low, collections[i])
                && forall j | 0 <= j < i :: !MeantBy(low, collections[j])
            else forall c | c in collections :: !MeantBy(low, c)
  {
    hide Lower, Contains;
    if collections != [] && !MeantBy(low, collections[0]) {
      var rest := collections[1..];
      InsideNamed(low, rest);
      var r := NamedInside(low, rest);
      if r.Some? {
        var i :| 0 <= i < |rest| && rest[i] == r.value && MeantBy(low, rest[i])
                 && forall j | 0 <= j < i :: !MeantBy(low, rest[j]);
        assert collections[i + 1] == rest[i] && forall j | 0 < j < i + 1 :: collections[j] == rest[j - 1];
      }
    }
  }

  /** The search after a reply to its question. */
  ghost predicate Replied(s: SearchState, text: string, r: Reads, u: SearchState) {
    var low := Strip(Lower(text));
    match s.stage
    case NoSearch => true
    case SearchScope =>
      u == if Contains(low, "web") then WebSearch(s.query, r)
           else if Contains(low, "collection") then SearchState(SearchCollection, s.scope, s.query, [])
           else SearchState(SearchScope, s.scope, s.query, [])
    case SearchCollection =>
      if exists i | 0 <= i < |r.collections| :: NamedBy(low, r.collections, i) then
        exists i | 0 <= i < |r.collections| ::
          && NamedBy(low, r.collections, i)
          && u == SearchState(SearchPick, r.collections[i].id, s.query, r.owned(s.query, r.collections[i].id))
      else u == SearchState(SearchCollection, s.scope, s.query, [])
    case SearchPick =>
      u == if low in {"search the web", "the web", "web"} then WebSearch(s.query, r)
           else if low in {"search another collection", "search a collection", "another collection", "a collection"} then
             SearchState(SearchCollection, s.scope, s.query, [])
           else if Chooses(text, s.results) then SearchState(NoSearch, "", "", []) else s
  }

  lemma StepAnswers(s: SearchState, text: string, r: Reads)
    requires !Exits(s, text)
    ensures Replied(s, text, r, Step(s, text, r))
  {
    hide ResolveOption, Exits, Lower, Strip, Contains;
    if s.stage.SearchCollection? {
      CollectionAnswers(s, text, r);
    }
  }

  lemma CollectionAnswers(s: SearchState, text: string, r: Reads)
    requires s.stage.SearchCollection? && !Exits(s, text)
    ensures Replied(s, text, r, Step(s, text, r))
  {
    hide ResolveOption, Exits, Lower, Strip, Contains, NamedExactly, NamedInside;
    var low, collections := Strip(Lower(text)), r.collections;
    ExactlyNamed(low, collections);
    InsideNamed(low, collections);
    var exact, inside := NamedExactly(low, collections), NamedInside(low, collections);
    if exact.Some? {
      var i :| 0 <= i < |collections| && collections[i] == exact.value && Lower(collections[i].name) == low
               && forall j | 0 <= j < i :: Lower(collections[j].name) != low;
      assert collections[i] in collections && NamedBy(low, collections, i);
    } else if inside.Some? {
      var i :| 0 <= i < |collections| && collections[i] == inside.value && MeantBy(low, collections[i])
               && forall j | 0 <= j < i :: !MeantBy(low, collections[j]);
      assert NamedBy(low, collections, i);
    } else {
      forall i | 0 <= i < |collections| ensures !NamedBy(low, collections, i) {
        assert collections[i] in collections;
      }
    }
  }

  /** The message keeps to the search: it is no request to add or organize, or it names a result. */
  predicate KeepsToSearch(s: State, t: Turn) {
    && Ordinary(t) && s.add.NoAdd? && !s.search.stage.NoSearch?
    && (t.classified.value.Add? || t.classified.value.Organize? ==> Chooses(t.text, s.search.results))
  }

  /** A reply to a search goes to the search, whatever it is labelled. */
  lemma SearchReply(s: State, t: Turn)
    requires KeepsToSearch(s, t)
    ensures var u := TakeTurn(s, t);
            if CancelsSearch(t.text) then u == s.(pending := None, pick := None, search := SearchState(NoSearch, "", "", []))
            else if t.world.nodeFails then u == s
            else
              && u == s.(pending := None, pick := None, search := u.search)
              && Replied(s.search, t.text, t.world.found, u.search)
  {
    assert Supervise(s, t) == (s, Search) by {
      hide IsSearchCancel, ResolveOption;
    }
    if !CancelsSearch(t.text) {
      StepAnswers(s.search, t.text, t.world.found);
    }
    hide Supervise, IsSearchCancel, CancelsSearch, Step, Replied, Chooses;
  }

  /** The film meant is picked, or the question is cancelled. */
  lemma OrganizeReply(s: State, t: Turn)
    requires Ordinary(t) && Live(s) == 1 && s.organizing
    requires Chooses(t.text, s.organizeOptions) || IsOrganizeCancel(t.text)
    ensures var u := TakeTurn(s, t);
            if IsOrganizeCancel(t.text) then u == s.(pending := None, organizing := false, organizeOptions := [])
            else if t.world.nodeFails then u == s
            else
              && u == s.(pending := u.pending, batches := u.batches, organizing := false, organizeOptions := [])
              && (if t.world.plan.Resolved? && t.world.plan.ops != [] then PlanWaits(u, t.world.plan.ops)
                  else u.pending.None? && u.batches == s.batches)
  {
    assert Supervise(s, t) == (s, Organize) by {
      hide IsSearchCancel, ResolveOption, IsOrganizeCancel;
    }
    FinalizedWaits(s, if t.world.plan.Resolved? then t.world.plan.ops else [], t.world);
    hide Supervise, Finalize, PlanWaits, Chooses, IsOrganizeCancel, IsSearchCancel;
  }

  /** An import goes on unless the message is a request to add, organize, navigate or export that picks nothing. */
  lemma ImportReply(s: State, t: Turn)
    requires Ordinary(t) && Live(s) == 1 && s.importing
    requires var i := t.classified.value;
             i.Add? || i.Organize? || i.Navigate? || i.Export? ==> Chooses(t.text, s.importOptions) || IsCancelImport(t.text)
    ensures Imported(s, TakeTurn(s, t), t.world)
  {
    assert Supervise(s, t) == (s, Import) by {
      hide IsSearchCancel, ResolveOption, IsCancelImport;
    }
    hide Supervise, Chooses, IsCancelImport, IsSearchCancel;
  }

  /** The collection asked for is opened. */
  lemma NavigateReply(s: State, t: Turn)
    requires Ordinary(t) && Live(s) == 1 && s.navigating && Chooses(t.text, s.navigateOptions)
    ensures TakeTurn(s, t) == s.(pending := None, pick := None, navigating := false, navigateOptions := [])
  {
    assert Supervise(s, t) == (s, Navigate) by {
      hide IsSearchCancel, ResolveOption;
    }
    hide Supervise, Chooses, IsSearchCancel;
  }

  // ----- a workflow is left -----

  /** The state with every workflow ended: of an add nothing stays, of the others not their questions. */
  function Ended(s: State): State {
    (if s.add.NoAdd? then s else WithoutAdd(s)).(
      search := if s.search.stage.NoSearch? then s.search else SearchState(NoSearch, "", "", []),
      organizing := false, organizeOptions := if s.organizing then [] else s.organizeOptions,
      importing := false, importOptions := if s.importing then [] else s.importOptions,
      navigating := false, navigateOptions := if s.navigating then [] else s.navigateOptions)
  }

  /** The message gives up the one workflow going on. */
  predicate Leaves(s: State, t: Turn) {
    && Ordinary(t) && Live(s) == 1
    && var i := t.classified.value;
       if Questioning(s.add) then
         && !AnswersQuestion(s, t.text)
         && (i.Enrich? || i.Organize? || i.Navigate? || i.Import? || i.Export? || i.Query? || i.Search?)
       else if s.add.AwaitPick? || s.add.AwaitCollection? then false
       else if !s.search.stage.NoSearch? then (i.Add? || i.Organize?) && !Chooses(t.text, s.search.results)
       else if s.organizing then !Chooses(t.text, s.organizeOptions) && !IsOrganizeCancel(t.text)
       else if s.importing then
         (i.Add? || i.Organize? || i.Navigate? || i.Export?) && !Chooses(t.text, s.importOptions) && !IsCancelImport(t.text)
       else !Chooses(t.text, s.navigateOptions)
  }

  lemma SupervisedLeaving(s: State, t: Turn)
    requires Leaves(s, t)
    ensures Supervise(s, t) == (Ended(s), t.classified.value) && Live(Ended(s)) == 0
  {
    hide IsSearchCancel, ResolveOption, IsCancelImport, IsOrganizeCancel, AnswersQuestion;
  }

  /** A message that gives up a workflow is taken as if there had been none. */
  lemma LeftIsFresh(s: State, t: Turn)
    requires Leaves(s, t)
    ensures Live(Ended(s)) == 0 && TakeTurn(s, t) == TakeTurn(Ended(s), t)
  {
    SupervisedLeaving(s, t);
    assert Ordinary(t);
    TakenAsLabelled(Ended(s), t);
    hide Supervise, Ended, RunNodes, Leaves;
  }

  /** A film or a collection is asked for, and the message is about something else. */
  lemma AskedFilmIsDropped(s: State, t: Turn)
    requires Ordinary(t) && s.add.AwaitPick? && !Chooses(t.text, s.options) && t.classified == Some(OutOfDomain)
    ensures TakeTurn(s, t) == WithoutAdd(s)
  {
    hide IsSearchCancel, ResolveOption;
  }

  /** A request to organize cuts across an add that waits for a film or a collection. */
  lemma OrganizeCutsAcross(s: State, t: Turn)
    requires Ordinary(t) && Live(s) == 1 && t.classified == Some(Organize)
    requires s.add.AwaitCollection? || (s.add.AwaitPick? && !Chooses(t.text, s.options))
    ensures Organized(s, TakeTurn(s, t), t.world)
  {
    assert Supervise(s, t) == (s, Organize) by {
      hide IsSearchCancel, ResolveOption;
    }
    if t.world.plan.Resolved? {
      FinalizedWaits(s, t.world.plan.ops, t.world);
    }
    hide Supervise, Finalize, PlanWaits, IsSearchCancel, Chooses;
  }
}
