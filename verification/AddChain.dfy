/**
 The questions of an add.  The whole turn (supervisor, curator, organizer, with whatever label the
 classifier gives) is compared with a plain questionnaire that only sees the replies.
 */
module AddChain {
  import opened Common
  import opened Proposals
  import opened MultiSelect
  import opened PickOption
  import opened Replies
  import opened ChosenFilm
  import opened Conversation
  import opened SearchFlow

  // ----- the questionnaire -----

  datatype Quiz = Pending(stage: AddStage, offered: seq<string>, given: Answers) | Complete(given: Answers)

  predicate Understood(q: Quiz, text: string)
    requires q.Pending?
  {
    if MultiStage(q.stage) then Resolve(text, q.offered).Some? else ParseOwnership(text).Some?
  }

  /** The next question after a reply; the same one after a reply that is no answer. */
  function Next(q: Quiz, text: string, formats: Option<seq<string>>): Quiz {
    if q.Complete? || !Understood(q, text) then q
    else match q.stage
      case AwaitChildrens => Pending(AwaitOwnership, [], q.given.(childrens := ParseOwnership(text)))
      case AwaitOwnership =>
        var owned := q.given.(owned := ParseOwnership(text));
        if owned.owned == Some(false) then Complete(owned.(ripped := Some(false)))
        else if formats.None? then Pending(AwaitRipped, [], owned)
        else Pending(AwaitMedia, formats.value, owned)
      case AwaitMedia => Pending(AwaitRipped, [], q.given.(ownedMedia := Resolve(text, q.offered).value))
      case AwaitRipped =>
        var ripped := q.given.(ripped := ParseOwnership(text));
        if ripped.ripped == Some(false) || formats.None? then Complete(ripped)
        else Pending(AwaitQuality, formats.value, ripped)
      case AwaitQuality => Complete(q.given.(ripQuality := Resolve(text, q.offered).value))
      case _ => q
  }

  const FIRST_QUESTION := Pending(AwaitChildrens, [], NO_ANSWERS)

  /** What is known at each question. */
  predicate Consistent(q: Quiz) {
    match q
    case Complete(_) => true
    case Pending(stage, _, g) =>
      && Questioning(stage)
      && (stage.AwaitChildrens? ==> g == NO_ANSWERS)
      && (stage.AwaitOwnership? ==> g == NO_ANSWERS.(childrens := g.childrens))
      && (stage.AwaitMedia? ==> g == Answers(Some(true), [], None, [], g.childrens))
      && (stage.AwaitRipped? ==> g == Answers(Some(true), g.ownedMedia, None, [], g.childrens))
      && (stage.AwaitQuality? ==> g == Answers(Some(true), g.ownedMedia, Some(true), [], g.childrens))
  }

  /** The proposal adds the film to its collection with these answers, after creating the collection when
      it does not exist yet. */
  predicate Carries(p: Proposal, film: Candidate, target: CollectionRef, given: Answers) {
    var n := |p.items|;
    && p.target == Some(target)
    && n == (if target.createIfMissing then 2 else 1)
    && p.items[n - 1].op.OpAdd? && p.items[n - 1].candidate == Some(film) && p.items[n - 1].answers == given
    && p.items[n - 1].shown == film.title
    && (target.createIfMissing ==> p.items[0].op.OpCreate?)
  }

  /** The state of the assistant says what the questionnaire says. */
  ghost predicate Matches(s: State, q: Quiz, film: Candidate, target: CollectionRef) {
    Consistent(q) &&
    match q
    case Complete(given) => s.add.NoAdd? && s.pending.Some? && Carries(s.pending.value, film, target, given)
    case Pending(stage, offered, given) =>
      && s.add == stage && s.candidate == Some(film) && s.target == Some(target)
      && (!stage.AwaitChildrens? ==> s.childrens == given.childrens)
      && (stage.AwaitRipped? || stage.AwaitQuality? ==> s.ownedMedia == given.ownedMedia)
      && (MultiStage(stage) ==> s.offered == offered)
  }

  /** The reply answers what is asked: a choice of the offered values for formats and qualities, a yes or a no for the
      other questions. */
  predicate IsAnswer(s: State, text: string) {
    match s.add
    case AwaitMedia => Resolve(text, s.offered).Some?
    case AwaitQuality => Resolve(text, s.offered).Some?
    case _ => ParseOwnership(text).Some?
  }

  /** A message to a working assistant that is an answer, or at least not a command. */
  predicate InChain(s: State, t: Turn) {
    && !t.killed && t.human && !t.breakerOpen && t.classified.Some?
    && (IsAnswer(s, t.text) || !Command(t.classified.value))
  }

  lemma ProposalCarries(id: string, film: Candidate, target: CollectionRef, given: Answers, idem: string -> string)
    ensures Carries(BuildAddProposal(id, film, target, given, idem), film, target, given)
  {
  }

  /** In the chain, the turn comes down to the organizer reading the reply. */
  lemma TurnIsTheReply(s: State, t: Turn)
    requires Questioning(s.add) && s.candidate.Some? && InChain(s, t)
    ensures TakeTurn(s, t) == OrganizerAdd(s, t.text, t.world)
  {
    hide Resolve, ParseOwnership, OrganizerAdd, IsSearchCancel;
  }

  /** An answer advances the add whatever the classifier made of it. */
  lemma AnyLabelWillDo(s: State, t: Turn, other: Label)
    requires Questioning(s.add) && s.candidate.Some? && IsAnswer(s, t.text)
    requires !t.killed && t.human && !t.breakerOpen && t.classified.Some?
    ensures TakeTurn(s, t) == TakeTurn(s, t.(classified := Some(other)))
  {
    hide TakeTurn, IsAnswer, OrganizerAdd;
    TurnIsTheReply(s, t);
    TurnIsTheReply(s, t.(classified := Some(other)));
  }

  lemma YesNoStep(s: State, q: Quiz, film: Candidate, target: CollectionRef, t: Turn)
    requires Matches(s, q, film, target) && q.Pending? && (q.stage.AwaitChildrens? || q.stage.AwaitOwnership?)
    ensures Matches(OrganizerAdd(s, t.text, t.world), Next(q, t.text, t.world.formats), film, target)
  {
    hide ParseOwnership, Carries, BuildAddProposal;
    var given := Answers(Some(false), [], Some(false), [], s.childrens);
    ProposalCarries(t.world.proposalId, film, target, given, t.world.idem);
  }

  lemma RippedStep(s: State, q: Quiz, film: Candidate, target: CollectionRef, t: Turn)
    requires Matches(s, q, film, target) && q.Pending? && q.stage.AwaitRipped?
    ensures Matches(OrganizerAdd(s, t.text, t.world), Next(q, t.text, t.world.formats), film, target)
  {
    hide ParseOwnership, Carries, BuildAddProposal;
    ProposalCarries(t.world.proposalId, film, target, Answers(Some(true), s.ownedMedia, Some(false), [],
        s.childrens), t.world.idem);
    ProposalCarries(t.world.proposalId, film, target, Answers(Some(true), s.ownedMedia, Some(true), [], s.childrens),
        t.world.idem);
  }

  lemma SelectStep(s: State, q: Quiz, film: Candidate, target: CollectionRef, t: Turn)
    requires Matches(s, q, film, target) && q.Pending? && MultiStage(q.stage)
    ensures Matches(OrganizerAdd(s, t.text, t.world), Next(q, t.text, t.world.formats), film, target)
  {
    hide Resolve, Carries, BuildAddProposal;
    var chosen := Resolve(t.text, s.offered);
    if chosen.Some? {
      var given := Answers(Some(true), s.ownedMedia, Some(true), chosen.value, s.childrens);
      ProposalCarries(t.world.proposalId, film, target, given, t.world.idem);
    }
  }

  /** One turn of the assistant is one step of the questionnaire. */
  lemma TurnFollowsQuiz(s: State, q: Quiz, film: Candidate, target: CollectionRef, t: Turn)
    requires Matches(s, q, film, target) && q.Pending? && InChain(s, t)
    ensures Matches(TakeTurn(s, t), Next(q, t.text, t.world.formats), film, target)
  {
    TurnIsTheReply(s, t);
    hide TakeTurn, OrganizerAdd, Next, InChain;
    if q.stage.AwaitRipped? {
      RippedStep(s, q, film, target, t);
    } else if MultiStage(q.stage) {
      SelectStep(s, q, film, target, t);
    } else {
      YesNoStep(s, q, film, target, t);
    }
  }

  // ----- whole conversations -----

  /** The turns until the questions end. */
  function PlayChain(s: State, turns: seq<Turn>): State
    decreases |turns|
  {
    if turns == [] || !Questioning(s.add) then s else PlayChain(TakeTurn(s, turns[0]), turns[1..])
  }

  predicate ChainOf(s: State, turns: seq<Turn>)
    decreases |turns|
  {
    turns == [] || !Questioning(s.add) || (InChain(s, turns[0]) && ChainOf(TakeTurn(s, turns[0]), turns[1..]))
  }

  function Fill(q: Quiz, turns: seq<Turn>): Quiz
    decreases |turns|
  {
    if turns == [] || q.Complete? then q
    else Fill(Next(q, turns[0].text, turns[0].world.formats), turns[1..])
  }

  /** The replies that were answers. */
  function AnswersIn(q: Quiz, turns: seq<Turn>): nat
    decreases |turns|
  {
    if turns == [] || q.Complete? then 0
    else (if Understood(q, turns[0].text) then 1 else 0)
         + AnswersIn(Next(q, turns[0].text, turns[0].world.formats), turns[1..])
  }

  function QuestionsLeft(q: Quiz): nat {
    match q
    case Complete(_) => 0
    case Pending(stage, _, _) =>
      match stage
      case AwaitChildrens => 5
      case AwaitOwnership => 4
      case AwaitMedia => 3
      case AwaitRipped => 2
      case AwaitQuality => 1
      case _ => 0
  }

  lemma AnswerUsesAQuestion(q: Quiz, text: string, formats: Option<seq<string>>)
    requires q.Pending? && Consistent(q)
    ensures Understood(q, text) ==> QuestionsLeft(Next(q, text, formats)) < QuestionsLeft(q)
    ensures !Understood(q, text) ==> Next(q, text, formats) == q
  {
    hide ParseOwnership, Resolve;
  }

  /**
   However the replies are labelled and however many of them are not understood, the assistant asks what
   the questionnaire asks, at most five answers lead to a proposal, and the proposal carries exactly the
   answers given.
   */
  lemma {:induction false} ChainCarriesAnswers(s: State, q: Quiz, film: Candidate, target: CollectionRef, turns: seq<Turn>)
    requires Matches(s, q, film, target) && ChainOf(s, turns)
    ensures Matches(PlayChain(s, turns), Fill(q, turns), film, target)
    ensures AnswersIn(q, turns) + QuestionsLeft(Fill(q, turns)) <= QuestionsLeft(q)
    decreases |turns|
  {
    if turns != [] && q.Pending? {
      var t := turns[0];
      TurnFollowsQuiz(s, q, film, target, t);
      AnswerUsesAQuestion(q, t.text, t.world.formats);
      hide TakeTurn, Next, Understood, InChain, QuestionsLeft, Carries;
      ChainCarriesAnswers(TakeTurn(s, t), Next(q, t.text, t.world.formats), film, target, turns[1..]);
    }
  }

  /** In any run, session ends included, the questions begin with nothing answered, whatever an earlier add
      may have left in the state; and they are about the film asked for last, unless a pick slipped. */
  lemma ChainBegins(events: seq<Event>)
    ensures var s := Play(INITIAL, events);
            s.add.AwaitChildrens? ==>
              && s.candidate.Some? && s.target.Some?
              && Matches(s, FIRST_QUESTION, s.candidate.value, s.target.value)
              && (NeverSlips(INITIAL, events) ==> s.candidate == LastAsked(INITIAL, None, events))
  {
    RunAnchors(INITIAL, events);
    if NeverSlips(INITIAL, events) {
      RunIsAboutTheFilmAsked(INITIAL, None, events);
    }
    hide Play, LastAsked, NeverSlips;
  }

  /** A message that is no answer but a command drops the add and everything answered so far. */
  lemma CommandAbandons(s: State, t: Turn)
    requires Questioning(s.add) && !t.killed && t.human && !t.breakerOpen
    requires t.classified.Some? && Command(t.classified.value) && !IsAnswer(s, t.text)
    ensures var s' := TakeTurn(s, t);
            !Questioning(s'.add) && s'.childrens.None? && s'.ownedMedia == [] && s'.target.None?
  {
    hide Resolve, ParseOwnership, IsSearchCancel, IsOrganizeCancel, ResolveOption;
    assert Supervise(s, t) == (AddReset(s), t.classified.value);
    CommandNodes(AddReset(s), t.classified.value, t.text, t.world);
    hide Supervise;
    if t.classified.value.Enrich? {
      CuratorContains(AddReset(s), t.world);
    } else {
      NodesContain(AddReset(s), t.classified.value, t.text, t.world);
    }
  }

  lemma CommandNodes(s: State, intent: Intent, text: string, w: World)
    requires s.add.NoAdd? && s.candidate.None? && Command(intent)
    ensures !Questioning(RunNodes(s, intent, text, w).add)
  {
    if !intent.Enrich? {
      OtherNodes(s, intent, text, w);
      hide RunNodes;
    } else {
      hide OrganizerAdd, SearchNode, Navigator, ImportNode, Organizer;
    }
  }
}
