/**
 Which film an add is about.  A member picks one of the films on offer or names one; a pick whose message
 could not be read stays behind, and decides the next add whatever that one names.
 */
module ChosenFilm {
  import opened Common
  import opened Proposals
  import opened PickOption
  import opened MultiSelect
  import opened Replies
  import opened SearchFlow
  import opened Conversation

  predicate PicksFilm(s: State, t: Turn) {
    s.add.AwaitPick? && Chooses(t.text, s.options)
  }

  function Picked(s: State, t: Turn): Choice
    requires PicksFilm(s, t)
  {
    s.options[ResolveOption(t.text, s.options).value]
  }

  /** The film the message asks for: the offered one it picks, or the one its title is found to name. */
  function FilmAsked(s: State, t: Turn): Option<Candidate> {
    if PicksFilm(s, t) then Some(t.world.details(Picked(s, t)))
    else if t.world.extraction.Extracted? && t.world.extraction.title != "" && t.world.enrichment.OneFilm? then
      Some(t.world.enrichment.film)
    else None
  }

  /** The message is about a film to add or look up, and what is read for it is available. */
  predicate Finds(s: State, t: Turn) {
    var (s', intent) := Supervise(s, t);
    && AboutFilms(intent) && !(Questioning(s'.add) && s'.candidate.Some?)
    && !t.world.nodeFails && t.world.extraction.Extracted? && FilmAsked(s, t).Some?
  }

  /** A film is picked from those on offer, and the message or the film cannot be read. */
  predicate Slips(s: State, t: Turn) {
    && !t.killed && t.human && !t.breakerOpen && t.classified.Some?
    && PicksFilm(s, t) && (t.world.nodeFails || t.world.extraction.Unreadable?)
  }

  /** A film stays picked only while films are on offer or no add is going on. */
  predicate Placed(s: State) {
    s.pick.Some? ==> s.add.NoAdd? || s.add.AwaitPick?
  }

  // ----- one turn -----

  /** What the supervisor makes of the add. */
  lemma SupervisedAdd(s: State, t: Turn)
    ensures var (s', intent) := Supervise(s, t);
            if !t.killed && t.human && !t.breakerOpen && t.classified.Some? && PicksFilm(s, t) then
              s' == s.(pick := Some(Picked(s, t))) && intent.Add?
            else
              || (s'.add == s.add && s'.pick == s.pick && s'.candidate == s.candidate
                  && (AboutFilms(intent) ==> !PicksFilm(s, t)))
              || (s'.add.NoAdd? && s'.pick.None? && s'.candidate.None?
                  && (AboutFilms(intent) ==> Questioning(s.add)))
  {
    hide ResolveOption, AnswersQuestion, IsSearchCancel, IsOrganizeCancel, IsCancelImport;
  }

  lemma OrganizerKeepsFilm(s: State, text: string, w: World)
    ensures var c := OrganizerAdd(s, text, w); c.candidate == s.candidate && c.pick == s.pick
    ensures w.nodeFails && !Questioning(s.add) ==> OrganizerAdd(s, text, w).add == s.add
  {
    hide ParseOwnership, Resolve, BuildAddProposal;
  }

  lemma FilmNodes(s: State, intent: Intent, text: string, w: World)
    requires AboutFilms(intent)
    ensures var c, r := Curator(s, w), RunNodes(s, intent, text, w);
            && r.candidate == c.candidate && r.pick == c.pick
            && (c.candidate.None? || (w.nodeFails && !Questioning(c.add)) ==> r.add == c.add)
  {
    OrganizerKeepsFilm(Curator(s, w), text, w);
    hide Curator, OrganizerAdd;
  }

  /** A pick outlives the curator exactly when something could not be read. */
  lemma CuratorPick(s: State, w: World)
    requires Placed(s)
    ensures var c := Curator(s, w);
            && Placed(c)
            && c.pick == (if w.nodeFails || w.extraction.Unreadable? then s.pick else None)
            && (c.pick.Some? ==> c.candidate.None? || (w.nodeFails && !Questioning(c.add)))
  {
  }

  /** The film the curator leaves at hand. */
  lemma CuratorFilm(s: State, w: World)
    requires !(Questioning(s.add) && s.candidate.Some?) && !w.nodeFails && w.extraction.Extracted?
    ensures var c, title := Curator(s, w).candidate, w.extraction.title;
            && (s.pick.Some? && !s.add.AwaitCollection? ==> c == Some(w.details(s.pick.value)))
            && (s.pick.None? && title != "" && w.enrichment.OneFilm? ==> c == Some(w.enrichment.film))
            && (s.pick.None? && !(title != "" && w.enrichment.OneFilm?) && c.Some? ==> c == s.candidate)
  {
  }

  lemma CuratorIdle(s: State, w: World)
    requires (Questioning(s.add) && s.candidate.Some?) || w.nodeFails || w.extraction.Unreadable?
    ensures var c := Curator(s, w).candidate; c.Some? ==> c == s.candidate
  {
  }

  lemma TurnKeepsPlaced(s: State, t: Turn)
    requires Placed(s)
    ensures Placed(TakeTurn(s, t))
  {
    var (s', intent) := Supervise(s, t);
    SupervisedAdd(s, t);
    assert Placed(s');
    hide Supervise, RunNodes, PicksFilm, Picked, Curator, Questioning;
    if AboutFilms(intent) {
      FilmNodes(s', intent, t.text, t.world);
      CuratorPick(s', t.world);
    } else {
      OtherNodes(s', intent, t.text, t.world);
    }
  }

  /** A turn leaves a pick behind exactly when it slips. */
  lemma PickIsLeftOver(s: State, t: Turn)
    requires s.pick.None?
    ensures TakeTurn(s, t).pick.Some? <==> Slips(s, t)
  {
    var (s', intent) := Supervise(s, t);
    SupervisedAdd(s, t);
    hide Supervise, RunNodes, Picked, Curator, Chooses;
    if AboutFilms(intent) {
      FilmNodes(s', intent, t.text, t.world);
      CuratorPick(s', t.world);
    } else {
      OtherNodes(s', intent, t.text, t.world);
    }
  }

  /** A pick left over hides the film asked for: the add is about that film exactly when the message picks it,
      or no pick was left over, or the two are the same film. */
  lemma LeftoverPickHidesTheFilm(s: State, t: Turn)
    requires Placed(s) && Finds(s, t)
    ensures TakeTurn(s, t).candidate == FilmAsked(s, t)
            <==> PicksFilm(s, t) || s.pick.None? || Some(t.world.details(s.pick.value)) == FilmAsked(s, t)
  {
    var (s', intent) := Supervise(s, t);
    SupervisedAdd(s, t);
    hide Supervise, RunNodes, Picked, Curator, Chooses;
    FilmNodes(s', intent, t.text, t.world);
    CuratorFilm(s', t.world);
  }

  /** Without a pick left over, a turn keeps the film at hand, drops it, or takes the one asked for. */
  lemma FilmIsTheOneAsked(s: State, t: Turn)
    requires s.pick.None?
    ensures var film := TakeTurn(s, t).candidate;
            film.Some? ==> film == if Finds(s, t) then FilmAsked(s, t) else s.candidate
  {
    var (s', intent) := Supervise(s, t);
    SupervisedAdd(s, t);
    hide Supervise, RunNodes, Picked, Curator, Chooses;
    if AboutFilms(intent) {
      FilmNodes(s', intent, t.text, t.world);
      if (Questioning(s'.add) && s'.candidate.Some?) || t.world.nodeFails || t.world.extraction.Unreadable? {
        CuratorIdle(s', t.world);
      } else {
        CuratorFilm(s', t.world);
      }
    } else {
      OtherNodes(s', intent, t.text, t.world);
    }
  }

  // ----- whole runs -----

  predicate NeverSlips(s: State, events: seq<Event>)
    decreases |events|
  {
    events != [] ==>
      && (events[0].Message? ==> !Slips(s, events[0].turn))
      && NeverSlips(React(s, events[0]), events[1..])
  }

  function Heard(s: State, asked: Option<Candidate>, e: Event): Option<Candidate> {
    if e.Message? && Finds(s, e.turn) then FilmAsked(s, e.turn) else asked
  }

  /** The film asked for last in a run. */
  function LastAsked(s: State, asked: Option<Candidate>, events: seq<Event>): Option<Candidate>
    decreases |events|
  {
    if events == [] then asked
    else LastAsked(React(s, events[0]), Heard(s, asked, events[0]), events[1..])
  }

  /** In every run in which no pick is left behind, the film at hand is the one asked for last. */
  lemma {:induction false} RunIsAboutTheFilmAsked(s: State, asked: Option<Candidate>, events: seq<Event>)
    requires s.pick.None? && (s.candidate.Some? ==> s.candidate == asked) && NeverSlips(s, events)
    ensures var film := Play(s, events).candidate; film.Some? ==> film == LastAsked(s, asked, events)
    decreases |events|
  {
    if events != [] {
      var e := events[0];
      if e.Message? {
        PickIsLeftOver(s, e.turn);
        FilmIsTheOneAsked(s, e.turn);
      }
      hide TakeTurn, Slips, Finds, FilmAsked;
      RunIsAboutTheFilmAsked(React(s, e), Heard(s, asked, e), events[1..]);
    }
  }

  /** A run in which it is not: the tap on an offered film cannot be read, and the film asked for next gives way
      to the one tapped before. */
  lemma AnotherFilmIsAdded(offer: Turn, tap: Turn, add: Turn, title: string, title': string, films: seq<Choice>,
                           film: Candidate)
    requires Ordinary(offer) && offer.classified == Some(Add) && !offer.world.nodeFails
    requires offer.world.extraction == Extracted(title) && title != "" && offer.world.enrichment == SeveralFilms(films)
    requires Ordinary(tap) && Chooses(tap.text, films) && !tap.world.nodeFails && tap.world.extraction.Unreadable?
    requires Ordinary(add) && add.classified == Some(Add) && !add.world.nodeFails
    requires add.world.extraction == Extracted(title') && title' != "" && add.world.enrichment == OneFilm(film)
    ensures var tapped := films[ResolveOption(tap.text, films).value];
            var events := [Message(offer), Message(tap), Message(add)];
            && Play(INITIAL, events).candidate == Some(add.world.details(tapped))
            && LastAsked(INITIAL, None, events) == Some(film)
  {
    var tapped := films[ResolveOption(tap.text, films).value];
    var s1, s2 := INITIAL.(add := AwaitPick, options := films), INITIAL.(options := films, pick := Some(tapped));
    Offered(offer, title, films);
    Tapped(s1, tap);
    Added(s2, add, title', film);
    hide TakeTurn, Finds, FilmAsked, PicksFilm, Picked, Ordinary, Chooses, ResolveOption;
    RunStep(INITIAL, None, Message(offer), [Message(tap), Message(add)]);
    RunStep(s1, Heard(INITIAL, None, Message(offer)), Message(tap), [Message(add)]);
    RunStep(s2, Heard(s1, Heard(INITIAL, None, Message(offer)), Message(tap)), Message(add), []);
    assert [Message(offer), Message(tap), Message(add)] == [Message(offer)] + [Message(tap), Message(add)];
    assert [Message(tap), Message(add)] == [Message(tap)] + [Message(add)];
    assert [Message(add)] + [] == [Message(add)];
  }

  lemma RunStep(s: State, asked: Option<Candidate>, e: Event, rest: seq<Event>)
    ensures Play(s, [e] + rest) == Play(React(s, e), rest)
    ensures LastAsked(s, asked, [e] + rest) == LastAsked(React(s, e), Heard(s, asked, e), rest)
  {
    hide React, Heard;
    PlayStep(s, e, rest);
    assert ([e] + rest)[1..] == rest;
  }

  lemma Offered(t: Turn, title: string, films: seq<Choice>)
    requires Ordinary(t) && t.classified == Some(Add) && !t.world.nodeFails
    requires t.world.extraction == Extracted(title) && title != "" && t.world.enrichment == SeveralFilms(films)
    ensures TakeTurn(INITIAL, t) == INITIAL.(add := AwaitPick, options := films)
  {
    hide ResolveOption, IsSearchCancel, IsOrganizeCancel, IsCancelImport, OrganizerAdd;
  }

  lemma Tapped(s: State, t: Turn)
    requires s.add.AwaitPick? && s.candidate.None? && Ordinary(t) && PicksFilm(s, t)
    requires !t.world.nodeFails && t.world.extraction.Unreadable?
    ensures TakeTurn(s, t) == s.(add := NoAdd, pick := Some(Picked(s, t)))
  {
    hide ResolveOption, IsSearchCancel, IsOrganizeCancel, IsCancelImport, OrganizerAdd;
  }

  lemma Added(s: State, t: Turn, title: string, film: Candidate)
    requires s.add.NoAdd? && s.search.stage.NoSearch? && !s.organizing && !s.importing && !s.navigating && s.pick.Some?
    requires Ordinary(t) && t.classified == Some(Add) && !t.world.nodeFails
    requires t.world.extraction == Extracted(title) && title != "" && t.world.enrichment == OneFilm(film)
    ensures Finds(s, t) && FilmAsked(s, t) == Some(film)
    ensures TakeTurn(s, t).candidate == Some(t.world.details(s.pick.value))
  {
    hide ResolveOption, IsSearchCancel, IsOrganizeCancel, IsCancelImport, OrganizerAdd;
    OrganizerKeepsFilm(Curator(s, t.world), t.text, t.world);
  }
}
