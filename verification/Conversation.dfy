/**
 One turn of the assistant: the supervisor decides which node handles the message, that node advances or
 ends its workflow, and five workflows (add, search, organize, import, navigate) keep their own stage
 between turns.

 What the language model, the film lookup and the service's reads return is an input of the turn, so
 every statement holds whatever they answer, including nothing at all.
 */
module Conversation {
  import opened Common
  import opened Text
  import opened Proposals
  import opened PickOption
  import opened MultiSelect
  import opened Replies
  import opened SearchFlow
  import Batches

  datatype AddStage =
    | NoAdd | AwaitPick | AwaitCollection
    | AwaitChildrens | AwaitOwnership | AwaitMedia | AwaitRipped | AwaitQuality

  datatype State = State(
    add: AddStage, target: Option<CollectionRef>, candidate: Option<Candidate>,
    options: seq<Choice>, pick: Option<Choice>,
    childrens: Option<bool>, ownedMedia: seq<string>, offered: seq<string>,
    search: SearchState,
    organizing: bool, organizeOptions: seq<Choice>,
    importing: bool, importOptions: seq<Choice>,
    navigating: bool, navigateOptions: seq<Choice>,
    pending: Option<Proposal>, batches: seq<Proposal>)

  const INITIAL := State(NoAdd, None, None, [], None, None, [], [], IDLE, false, [], false, [], false, [], None, [])

  datatype Intent =
    | Add | Enrich | Organize | Navigate | Query | Search | Import | Export | OutOfDomain | Ambiguous
    | Degraded | Disabled | Noop

  /** The labels the classifier can return. */
  predicate ClassifierLabel(i: Intent) {
    !i.Degraded? && !i.Disabled? && !i.Noop?
  }

  type Label = i: Intent | ClassifierLabel(i) witness Ambiguous

  // ----- what the outside world answers during a turn -----

  datatype Extraction = Unreadable | Extracted(title: string)

  datatype Enrichment = NoFilm | SeveralFilms(films: seq<Choice>) | OneFilm(film: Candidate)

  datatype OrganizePlan = PlanFailed | NoSuchSource | AskWhich(movies: seq<Choice>) | Resolved(ops: seq<OrganizeOp>)

  datatype ImportResult = ImportSays | ImportAsks(choices: seq<Choice>) | ImportEnds | ImportProposes(proposal: Proposal)

  datatype World = World(
    nodeFails: bool,                       // the node gave up on a failed read
    extraction: Extraction, enrichment: Enrichment,
    details: Choice -> Candidate,          // the film lookup of an offered film
    target: Option<CollectionRef>,         // the collection an add resolves to
    formats: Option<seq<string>>,          // the media formats the service publishes
    proposalId: string, idem: string -> string,
    batchId: nat -> string,                // the ids of the batches of an organize plan
    plan: OrganizePlan, found: Reads, imported: ImportResult,
    asked: seq<Choice>)                    // the collections the navigator offers; none when it opens something

  datatype Turn = Turn(killed: bool, human: bool, text: string, breakerOpen: bool, classified: Option<Label>, world: World)

  predicate Chooses(text: string, options: seq<Choice>) {
    ResolveOption(text, options).Some?
  }

  // ----- resets -----

  function AddReset(s: State): State {
    s.(add := NoAdd, target := None, options := [], pick := None, candidate := None, batches := [],
       ownedMedia := [], offered := [], childrens := None)
  }

  function SearchReset(s: State): State {
    s.(search := IDLE)
  }

  function OrganizeReset(s: State): State {
    s.(organizing := false, organizeOptions := [])
  }

  function ImportReset(s: State): State {
    s.(importing := false, importOptions := [])
  }

  function NavigateReset(s: State): State {
    s.(navigating := false, navigateOptions := [])
  }

  /** What a search, a navigation or a question about a collection clears of an add. */
  function LifecycleReset(s: State): State {
    s.(pending := None, add := NoAdd, pick := None)
  }

  // ----- the supervisor -----

  predicate Questioning(stage: AddStage) {
    stage.AwaitChildrens? || stage.AwaitOwnership? || stage.AwaitMedia? || stage.AwaitRipped? || stage.AwaitQuality?
  }

  predicate MultiStage(stage: AddStage) {
    stage.AwaitMedia? || stage.AwaitQuality?
  }

  /** The reply answers the question the add is waiting on. */
  predicate AnswersQuestion(s: State, text: string) {
    if MultiStage(s.add) then Resolve(text, s.offered).Some? else ParseOwnership(text).Some?
  }

  predicate Command(i: Intent) {
    i.Enrich? || i.Organize? || i.Navigate? || i.Import? || i.Export? || i.Query? || i.Search?
  }

  function AfterLabel(s: State, text: string, intent: Label): (State, Intent) {
    if s.add.AwaitPick? then
      var r := ResolveOption(text, s.options);
      if r.Some? then (s.(pick := Some(s.options[r.value])), Add)
      else if intent.Organize? || intent.OutOfDomain? then (s, intent)
      else (s, Add)
    else if s.add.AwaitCollection? && !intent.Organize? then (s, Add)
    else if Questioning(s.add) then
      if AnswersQuestion(s, text) then (s, Add)
      else if Command(intent) then (AddReset(s), intent)
      else (s, Add)
    else if !s.search.stage.NoSearch? then
      if (intent.Add? || intent.Organize?) && !Chooses(text, s.search.results) then (SearchReset(s), intent)
      else (s, Search)
    else if s.organizing then
      if Chooses(text, s.organizeOptions) || IsOrganizeCancel(text) then (s, Organize)
      else (OrganizeReset(s), intent)
    else if s.importing then
      if Chooses(text, s.importOptions) || IsCancelImport(text) then (s, Import)
      else if intent.Add? || intent.Organize? || intent.Navigate? || intent.Export? then (ImportReset(s), intent)
      else (s, Import)
    else if s.navigating then
      if Chooses(text, s.navigateOptions) then (s, Navigate) else (NavigateReset(s), intent)
    else (s, intent)
  }

  function Supervise(s: State, t: Turn): (State, Intent) {
    if t.killed then (AddReset(s), Disabled)
    else if t.human && IsSearchCancel(t.text) && s.add.NoAdd? then (s, Search)
    else if t.breakerOpen then (AddReset(s), Degraded)
    else if !t.human then (s, Noop)
    else match t.classified
      case None => (AddReset(s), Degraded)
      case Some(intent) => AfterLabel(s, t.text, intent)
  }

  // ----- the nodes -----

  function NoFilmReply(s: State): State {
    s.(candidate := None, add := NoAdd)
  }

  function OfferFilms(s: State, films: seq<Choice>): State {
    s.(candidate := None, add := AwaitPick, options := films)
  }

  function FilmFound(s: State, film: Candidate): State {
    s.(candidate := Some(film), options := [], add := NoAdd, pick := None)
  }

  function Curator(s: State, w: World): State {
    if Questioning(s.add) && s.candidate.Some? then s
    else if w.nodeFails then s
    else match w.extraction
      case Unreadable => NoFilmReply(s)
      case Extracted(title) =>
        if s.add.AwaitCollection? && s.candidate.Some? && title == "" then s.(add := NoAdd)
        else if s.pick.Some? then FilmFound(s, w.details(s.pick.value))
        else if title == "" then (if s.add.AwaitPick? && s.options != [] then OfferFilms(s, s.options) else NoFilmReply(s))
        else match w.enrichment
          case NoFilm => NoFilmReply(s)
          case SeveralFilms(films) => OfferFilms(s, films)
          case OneFilm(film) => FilmFound(s, film)
  }

  /** The add is complete: its proposal waits for approval and nothing of it stays behind. */
  function Propose(s: State, c: Candidate, a: Answers, w: World): State {
    var target := if s.target.Some? then s.target.value else CollectionRef(None, "", false);
    s.(pending := Some(BuildAddProposal(w.proposalId, c, target, a, w.idem)),
       add := NoAdd, target := None, ownedMedia := [], offered := [], childrens := None)
  }

  function Ask(s: State, stage: AddStage): State {
    s.(pending := None, add := stage)
  }

  function OnChildrens(s: State, text: string): State {
    match ParseOwnership(text)
    case None => Ask(s, AwaitChildrens)
    case Some(yes) => Ask(s, AwaitOwnership).(childrens := Some(yes))
  }

  function OnOwnership(s: State, c: Candidate, text: string, w: World): State {
    match ParseOwnership(text)
    case None => Ask(s, AwaitOwnership)
    case Some(owned) =>
      if !owned then Propose(s, c, Answers(Some(false), [], Some(false), [], s.childrens), w)
      else if w.formats.None? then Ask(s, AwaitRipped).(ownedMedia := [])
      else Ask(s, AwaitMedia).(offered := w.formats.value)
  }

  function OnMedia(s: State, text: string): State {
    match Resolve(text, s.offered)
    case None => Ask(s, AwaitMedia)
    case Some(chosen) => Ask(s, AwaitRipped).(ownedMedia := chosen)
  }

  function OnRipped(s: State, c: Candidate, text: string, w: World): State {
    match ParseOwnership(text)
    case None => Ask(s, AwaitRipped)
    case Some(ripped) =>
      if !ripped then Propose(s, c, Answers(Some(true), s.ownedMedia, Some(false), [], s.childrens), w)
      else if w.formats.None? then Propose(s, c, Answers(Some(true), s.ownedMedia, Some(true), [], s.childrens), w)
      else Ask(s, AwaitQuality).(offered := w.formats.value)
  }

  function OnQuality(s: State, c: Candidate, text: string, w: World): State {
    match Resolve(text, s.offered)
    case None => Ask(s, AwaitQuality)
    case Some(chosen) => Propose(s, c, Answers(Some(true), s.ownedMedia, Some(true), chosen, s.childrens), w)
  }

  function OnFilm(s: State, w: World): State {
    if w.nodeFails then s
    else if w.target.None? then Ask(s, AwaitCollection)
    else Ask(s, AwaitChildrens).(target := w.target)
  }

  function OrganizerAdd(s: State, text: string, w: World): State {
    if s.candidate.None? then s.(pending := None)
    else match s.add
      case AwaitChildrens => OnChildrens(s, text)
      case AwaitOwnership => OnOwnership(s, s.candidate.value, text, w)
      case AwaitMedia => OnMedia(s, text)
      case AwaitRipped => OnRipped(s, s.candidate.value, text, w)
      case AwaitQuality => OnQuality(s, s.candidate.value, text, w)
      case _ => OnFilm(s, w)
  }

  /** The batches of a plan, each a proposal of its own. */
  function OrganizeProposals(ops: seq<OrganizeOp>, w: World): seq<Proposal> {
    var parts := Batches.Chunk(ops, Batches.BATCH_CAP);
    seq(|parts|, i requires 0 <= i < |parts| => BuildOrganizeProposal(w.batchId(i), parts[i], w.idem))
  }

  function Finalize(s: State, ops: seq<OrganizeOp>, w: World): State {
    if ops == [] then OrganizeReset(s).(pending := None)
    else
      var proposals := OrganizeProposals(ops, w);
      OrganizeReset(s).(pending := Some(proposals[0]), batches := proposals[1..])
  }

  function OrganizePick(s: State, text: string, w: World): State {
    if IsOrganizeCancel(text) then OrganizeReset(s).(pending := None)
    else if !Chooses(text, s.organizeOptions) then s.(pending := None)
    else if w.nodeFails then s
    else Finalize(s, if w.plan.Resolved? then w.plan.ops else [], w)
  }

  function OrganizeFresh(s: State, w: World): State {
    if w.nodeFails then s
    else match w.plan
      case PlanFailed => s.(pending := None)
      case NoSuchSource => s.(pending := None)
      case AskWhich(movies) => s.(pending := None, organizing := true, organizeOptions := movies)
      case Resolved(ops) => Finalize(s, ops, w)
  }

  function Organizer(s: State, intent: Intent, text: string, w: World): State {
    if intent.Organize? then (if s.organizing then OrganizePick(s, text, w) else OrganizeFresh(s, w))
    else OrganizerAdd(s, text, w)
  }

  function SearchNode(s: State, text: string, w: World): State {
    if Exits(s.search, text) then SearchReset(LifecycleReset(s))
    else if w.nodeFails then s
    else LifecycleReset(s).(search := Step(s.search, text, w.found))
  }

  function Navigator(s: State, text: string, w: World): State {
    if s.navigating && Chooses(text, s.navigateOptions) then NavigateReset(LifecycleReset(s))
    else if w.nodeFails then s
    else if w.asked == [] then NavigateReset(LifecycleReset(s))
    else LifecycleReset(s).(navigating := true, navigateOptions := w.asked)
  }

  function ImportNode(s: State, w: World): State {
    if w.nodeFails then ImportReset(s)
    else match w.imported
      case ImportSays => s
      case ImportAsks(choices) => s.(importing := true, importOptions := choices)
      case ImportEnds => ImportReset(s)
      case ImportProposes(proposal) => ImportReset(s).(pending := Some(proposal), batches := [])
  }

  /** The node the supervisor routed to, and for an add with a film the organizer after the curator. */
  function RunNodes(s: State, intent: Intent, text: string, w: World): State {
    match intent
    case Add => var c := Curator(s, w); if c.candidate.Some? then Organizer(c, Add, text, w) else c
    case Enrich => Curator(s, w)
    case Organize => Organizer(s, Organize, text, w)
    case Navigate => Navigator(s, text, w)
    case Query => if w.nodeFails then s else LifecycleReset(s)
    case Search => SearchNode(s, text, w)
    case Import => ImportNode(s, w)
    case Export => s
    case OutOfDomain => AddReset(s)
    case Degraded => AddReset(s)
    case Disabled => AddReset(s)
    case Ambiguous => s
    case Noop => s
  }

  function TakeTurn(s: State, t: Turn): State {
    var (s', intent) := Supervise(s, t);
    RunNodes(s', intent, t.text, t.world)
  }

  /** The gate's own reset, which leaves the answers of an add alone. */
  function GateReset(s: State): State {
    s.(add := NoAdd, target := None, options := [], pick := None, candidate := None, batches := [])
  }

  /** A decision on the waiting proposal. */
  function Decide(s: State, approved: bool): State {
    if s.pending.None? then s
    else if approved && s.batches != [] then s.(pending := Some(s.batches[0]), batches := s.batches[1..])
    else GateReset(s).(pending := None)
  }

  /** The end of the session, when it finds something waiting: the collection and the answers of an add stay. */
  function Expire(s: State): State {
    if s.pending.None? && s.batches == [] then s
    else s.(pending := None, batches := [], add := NoAdd, options := [], pick := None, candidate := None)
  }

  // ----- at most one workflow waits for the member -----

  function One(b: bool): nat {
    if b then 1 else 0
  }

  function Live(s: State): nat {
    One(!s.add.NoAdd?) + One(!s.search.stage.NoSearch?) + One(s.organizing) + One(s.importing) + One(s.navigating)
  }

  predicate Exclusive(s: State) {
    Live(s) <= 1
  }

  /** A message of the member to a working assistant, with whatever label. */
  predicate Ordinary(t: Turn) {
    !t.killed && t.human && !t.breakerOpen && t.classified.Some? && !IsSearchCancel(t.text)
  }

  /** The add waits for a pick or a collection, the message is taken as a request to organize, and that
      request has to ask which movie is meant. */
  predicate Collides(s: State, t: Turn) {
    && !t.killed && t.human && !t.breakerOpen && t.classified == Some(Organize)
    && (s.add.AwaitCollection? || (s.add.AwaitPick? && !Chooses(t.text, s.options)))
    && !t.world.nodeFails && t.world.plan.AskWhich?
  }

  lemma CuratorStages(s: State, w: World)
    ensures var c := Curator(s, w);
            && c.search == s.search && c.organizing == s.organizing && c.importing == s.importing
                && c.navigating == s.navigating
  {
  }

  lemma AddStages(s: State, text: string, w: World)
    ensures var c := OrganizerAdd(s, text, w);
            && c.search == s.search && c.organizing == s.organizing && c.importing == s.importing
                && c.navigating == s.navigating
  {
    hide ParseOwnership, Resolve, BuildAddProposal;
  }

  /** Nodes keep the stages exclusive when the only live stage is their own. */
  lemma NodesKeepExclusive(s: State, intent: Intent, text: string, w: World)
    requires Exclusive(s)
    requires intent.Add? || intent.Enrich? ==> Live(s) == One(!s.add.NoAdd?)
    requires intent.Organize? ==> Live(s) == One(s.organizing)
    requires intent.Navigate? ==> Live(s) == One(!s.add.NoAdd?) + One(s.navigating)
    requires intent.Search? ==> Live(s) == One(!s.add.NoAdd?) + One(!s.search.stage.NoSearch?)
                                || IsSearchCancel(text)
    requires intent.Import? ==> Live(s) == One(s.importing)
    ensures Exclusive(RunNodes(s, intent, text, w))
  {
    hide ResolveOption, ParseOwnership, Resolve, IsSearchCancel, CancelsSearch, Step, IsOrganizeCancel, OrganizeProposals;
    CuratorStages(s, w);
    AddStages(Curator(s, w), text, w);
    hide Curator, OrganizerAdd;
  }

  /**
   Whatever the message, the label (or its absence) and the reads: a turn leaves at most one workflow
   waiting, except exactly when a request to organize cuts across an add that waits for a pick or a
   collection and has to ask back itself.
   */
  lemma TurnKeepsExclusive(s: State, t: Turn)
    requires Exclusive(s)
    ensures Exclusive(TakeTurn(s, t)) <==> !Collides(s, t)
  {
    hide ResolveOption, ParseOwnership, Resolve, IsSearchCancel, Exits, Step, IsOrganizeCancel, IsCancelImport,
        Curator, OrganizerAdd;
    if Collides(s, t) {
    } else {
      var (s', intent) := Supervise(s, t);
      if intent.Organize? && !s'.add.NoAdd? {
      } else {
        NodesKeepExclusive(s', intent, t.text, t.world);
      }
    }
  }

  /** In a run: a member is asked which collection a film should go to, and answers with a request to move
      a film of which there are two. */
  lemma TwoWorkflowsWait(add: Turn, title: string, film: Candidate, organize: Turn)
    requires Ordinary(add) && add.classified == Some(Add) && !add.world.nodeFails && add.world.target.None?
    requires add.world.extraction == Extracted(title) && title != "" && add.world.enrichment == OneFilm(film)
    requires Ordinary(organize) && organize.classified == Some(Organize)
    requires !organize.world.nodeFails && organize.world.plan.AskWhich?
    ensures Live(Play(INITIAL, [Message(add), Message(organize)])) == 2
  {
    hide ResolveOption, IsSearchCancel, IsOrganizeCancel;
    var events := [Message(add), Message(organize)];
    var s := TakeTurn(INITIAL, add);
    assert s == INITIAL.(candidate := Some(film), add := AwaitCollection);
    assert Live(TakeTurn(s, organize)) == 2;
    hide TakeTurn, Live;
    PlayStep(INITIAL, Message(add), [Message(organize)]);
    PlayStep(s, Message(organize), []);
    assert events == [Message(add)] + [Message(organize)] && [Message(organize)] + [] == [Message(organize)];
  }

  lemma PlayStep(s: State, e: Event, rest: seq<Event>)
    ensures Play(s, [e] + rest) == Play(React(s, e), rest)
  {
    hide React;
    assert ([e] + rest)[1..] == rest;
  }

  lemma DecisionKeepsExclusive(s: State, approved: bool)
    requires Exclusive(s)
    ensures Exclusive(Decide(s, approved))
  {
  }

  lemma ExpiryKeepsExclusive(s: State)
    requires Exclusive(s)
    ensures Exclusive(Expire(s))
  {
  }

  datatype Event = Message(turn: Turn) | Decision(approved: bool) | SessionEnd

  function React(s: State, e: Event): State {
    match e
    case Message(t) => TakeTurn(s, t)
    case Decision(approved) => Decide(s, approved)
    case SessionEnd => Expire(s)
  }

  function Play(s: State, events: seq<Event>): State
    decreases |events|
  {
    if events == [] then s else Play(React(s, events[0]), events[1..])
  }

  /** No event of the run is a collision in the state it meets. */
  predicate NeverCollides(s: State, events: seq<Event>)
    decreases |events|
  {
    events != [] ==>
      && (events[0].Message? ==> !Collides(s, events[0].turn))
      && NeverCollides(React(s, events[0]), events[1..])
  }

  lemma {:induction false} RunKeepsExclusive(s: State, events: seq<Event>)
    requires Exclusive(s) && NeverCollides(s, events)
    ensures Exclusive(Play(s, events))
    decreases |events|
  {
    if events != [] {
      hide TakeTurn, Decide, Expire, Exclusive, Collides;
      match events[0] {
        case Message(t) => TurnKeepsExclusive(s, t);
        case Decision(approved) => DecisionKeepsExclusive(s, approved);
        case SessionEnd => ExpiryKeepsExclusive(s);
      }
      RunKeepsExclusive(React(s, events[0]), events[1..]);
    }
  }

  // ----- nothing of one add reaches the next -----

  /** Answers are held only while the questions of one add are being asked, from the first of which its
      film and its collection are known. */
  predicate Contained(s: State) {
    && (if Questioning(s.add) then s.candidate.Some? && s.target.Some?
        else s.childrens.None? && s.ownedMedia == [] && s.offered == [] && s.target.None?)
    && (s.add.AwaitChildrens? ==> s.childrens.None?)
    && (s.add.AwaitChildrens? || s.add.AwaitOwnership? ==> s.ownedMedia == [])
    && (Questioning(s.add) && !s.add.AwaitChildrens? ==> s.childrens.Some?)
  }

  lemma SuperviseContains(s: State, t: Turn)
    requires Contained(s)
    ensures var (s', intent) := Supervise(s, t);
            && Contained(s') && (intent.Add? || intent.Noop? || intent.Degraded? || intent.Disabled? || !Questioning(s'.add))
  {
    hide ResolveOption, ParseOwnership, Resolve, IsSearchCancel, IsOrganizeCancel, IsCancelImport;
  }

  lemma ProposeContains(s: State, c: Candidate, a: Answers, w: World)
    ensures Contained(Propose(s, c, a, w))
  {
    hide BuildAddProposal;
  }

  lemma YesNoContains(s: State, text: string, w: World)
    requires Contained(s) && s.candidate.Some?
    ensures s.add.AwaitChildrens? ==> Contained(OnChildrens(s, text))
    ensures s.add.AwaitOwnership? ==> Contained(OnOwnership(s, s.candidate.value, text, w))
  {
    hide ParseOwnership, Propose;
    ProposeContains(s, s.candidate.value, Answers(Some(false), [], Some(false), [], s.childrens), w);
  }

  lemma RippedContains(s: State, text: string, w: World)
    requires Contained(s) && s.add.AwaitRipped?
    ensures Contained(OnRipped(s, s.candidate.value, text, w))
  {
    hide ParseOwnership, Propose;
    ProposeContains(s, s.candidate.value, Answers(Some(true), s.ownedMedia, Some(false), [], s.childrens), w);
    ProposeContains(s, s.candidate.value, Answers(Some(true), s.ownedMedia, Some(true), [], s.childrens), w);
  }

  lemma SelectContains(s: State, text: string, w: World)
    requires Contained(s) && MultiStage(s.add)
    ensures Contained(if s.add.AwaitMedia? then OnMedia(s, text) else OnQuality(s, s.candidate.value, text, w))
  {
    hide Resolve, Propose;
    var chosen := Resolve(text, s.offered);
    if chosen.Some? {
      ProposeContains(s, s.candidate.value, Answers(Some(true), s.ownedMedia, Some(true), chosen.value, s.childrens), w);
    }
  }

  lemma AddContains(s: State, text: string, w: World)
    requires Contained(s)
    ensures Contained(OrganizerAdd(s, text, w))
  {
    if s.candidate.Some? && Questioning(s.add) {
      hide OnChildrens, OnOwnership, OnMedia, OnRipped, OnQuality, OnFilm, Contained;
      if s.add.AwaitChildrens? || s.add.AwaitOwnership? {
        YesNoContains(s, text, w);
      } else if s.add.AwaitRipped? {
        RippedContains(s, text, w);
      } else {
        SelectContains(s, text, w);
      }
    }
  }

  lemma CuratorContains(s: State, w: World)
    requires Contained(s)
    ensures Contained(Curator(s, w))
  {
  }

  /** The other nodes do not touch the answers, and never run while a question is pending. */
  lemma NodesContain(s: State, intent: Intent, text: string, w: World)
    requires Contained(s) && !intent.Add? && !intent.Enrich?
        && (Questioning(s.add) ==> intent.Noop? || intent.Degraded? || intent.Disabled?)
    ensures Contained(RunNodes(s, intent, text, w))
  {
    hide Curator, OrganizerAdd, ResolveOption, IsSearchCancel, Exits, Step, IsOrganizeCancel;
  }

  lemma TurnContains(s: State, t: Turn)
    requires Contained(s)
    ensures Contained(TakeTurn(s, t))
  {
    var (s', intent) := Supervise(s, t);
    SuperviseContains(s, t);
    hide Supervise, Curator, OrganizerAdd, OrganizePick, OrganizeFresh, Contained, SearchNode, Navigator, ImportNode;
    if intent.Add? {
      CuratorContains(s', t.world);
      AddContains(Curator(s', t.world), t.text, t.world);
    } else if intent.Enrich? {
      CuratorContains(s', t.world);
    } else {
      NodesContain(s', intent, t.text, t.world);
    }
  }

  // ----- what the nodes leave of an add -----

  predicate AboutFilms(intent: Intent) {
    intent.Add? || intent.Enrich?
  }

  /** The add as it was, or less of it. */
  predicate LessAdd(s: State, c: State) {
    && (c.candidate == s.candidate || c.candidate.None?)
    && (c.pick == s.pick || c.pick.None?)
    && (c.add == s.add || c.add.NoAdd?)
  }

  lemma SearchLess(s: State, text: string, w: World)
    ensures LessAdd(s, SearchNode(s, text, w))
  {
    hide Exits, Step;
  }

  lemma NavigatorLess(s: State, text: string, w: World)
    ensures LessAdd(s, Navigator(s, text, w))
  {
    hide Chooses;
  }

  lemma ImportLess(s: State, w: World)
    ensures LessAdd(s, ImportNode(s, w))
  {
  }

  lemma FinalizeLess(s: State, ops: seq<OrganizeOp>, w: World)
    ensures LessAdd(s, Finalize(s, ops, w))
  {
    hide OrganizeProposals;
  }

  lemma OrganizerLess(s: State, text: string, w: World)
    ensures LessAdd(s, OrganizePick(s, text, w)) && LessAdd(s, OrganizeFresh(s, w))
  {
    FinalizeLess(s, if w.plan.Resolved? then w.plan.ops else [], w);
    hide Chooses, IsOrganizeCancel, Finalize;
  }

  lemma OtherNodes(s: State, intent: Intent, text: string, w: World)
    requires !AboutFilms(intent)
    ensures LessAdd(s, RunNodes(s, intent, text, w))
  {
    SearchLess(s, text, w);
    NavigatorLess(s, text, w);
    ImportLess(s, w);
    OrganizerLess(s, text, w);
    hide Curator, OrganizerAdd, SearchNode, Navigator, ImportNode, OrganizePick, OrganizeFresh;
  }

  // ----- a waiting proposal and a pending question exclude each other -----

  predicate Resting(s: State) {
    s.pending.Some? ==> !Questioning(s.add)
  }

  lemma SuperviseRests(s: State, t: Turn)
    ensures var (s', intent) := Supervise(s, t);
            && (Resting(s) ==> Resting(s'))
            && (Questioning(s'.add) ==> s' == s && (intent.Add? || intent.Noop? || intent.Degraded? || intent.Disabled?))
  {
    hide ResolveOption, AnswersQuestion, IsSearchCancel, IsOrganizeCancel, IsCancelImport, Chooses;
  }

  lemma AddRests(s: State, text: string, w: World)
    requires Resting(s)
    ensures Resting(OrganizerAdd(s, text, w))
  {
    hide ParseOwnership, Resolve, BuildAddProposal;
  }

  lemma CuratorRests(s: State, w: World)
    requires Resting(s)
    ensures Resting(Curator(s, w))
  {
  }

  lemma NodesRest(s: State, intent: Intent, text: string, w: World)
    requires Resting(s) && !intent.Add?
    requires Questioning(s.add) ==> intent.Noop? || intent.Degraded? || intent.Disabled?
    ensures Resting(RunNodes(s, intent, text, w))
  {
    CuratorRests(s, w);
    if !intent.Enrich? {
      OtherNodes(s, intent, text, w);
    }
    hide Curator, OrganizerAdd, SearchNode, Navigator, ImportNode, OrganizePick, OrganizeFresh;
  }

  lemma TurnKeepsResting(s: State, t: Turn)
    requires Resting(s)
    ensures Resting(TakeTurn(s, t))
  {
    var (s', intent) := Supervise(s, t);
    SuperviseRests(s, t);
    hide Supervise, Curator, OrganizerAdd, Resting, Questioning;
    if intent.Add? {
      CuratorRests(s', t.world);
      AddRests(Curator(s', t.world), t.text, t.world);
    } else {
      NodesRest(s', intent, t.text, t.world);
    }
  }

  lemma {:induction false} RunRests(s: State, events: seq<Event>)
    requires Resting(s)
    ensures Resting(Play(s, events))
    decreases |events|
  {
    if events != [] {
      if events[0].Message? {
        TurnKeepsResting(s, events[0].turn);
      }
      hide TakeTurn;
      RunRests(React(s, events[0]), events[1..]);
    }
  }

  // ----- whole runs -----

  /** The session ends while a question of an add is pending and batches of an earlier plan were left. */
  predicate CutsOff(s: State, e: Event) {
    e.SessionEnd? && Questioning(s.add) && s.batches != []
  }

  /** Everything but such a session end leaves nothing of an add behind. */
  lemma EventContains(s: State, e: Event)
    requires Contained(s) && Resting(s)
    ensures Contained(React(s, e)) <==> !CutsOff(s, e)
  {
    match e {
      case Message(t) => TurnContains(s, t);
      case Decision(approved) =>
      case SessionEnd =>
    }
    hide TakeTurn;
  }

  predicate NeverCutsOff(s: State, events: seq<Event>)
    decreases |events|
  {
    events != [] ==> !CutsOff(s, events[0]) && NeverCutsOff(React(s, events[0]), events[1..])
  }

  /** In every run without such a session end, answers are held only while the add they belong to is asked
      about. */
  lemma {:induction false} RunContains(s: State, events: seq<Event>)
    requires Contained(s) && Resting(s) && NeverCutsOff(s, events)
    ensures Contained(Play(s, events))
    decreases |events|
  {
    if events != [] {
      EventContains(s, events[0]);
      RunRests(s, events[..1]);
      assert events[..1][1..] == [] && Play(s, events[..1]) == React(s, events[0]);
      hide TakeTurn, Contained, Resting, CutsOff;
      RunContains(React(s, events[0]), events[1..]);
    }
  }

  /** While questions are asked the film and the collection are known, and after the first one its answer. */
  predicate Anchored(s: State) {
    Questioning(s.add) ==>
      s.candidate.Some? && s.target.Some? && (!s.add.AwaitChildrens? ==> s.childrens.Some?)
  }

  lemma ProposeEnds(s: State, c: Candidate, a: Answers, w: World)
    ensures Propose(s, c, a, w).add.NoAdd?
  {
    hide BuildAddProposal;
  }

  lemma AnswerAnchors(s: State, c: Candidate, text: string, w: World)
    requires Anchored(s) && s.candidate == Some(c)
    ensures Anchored(OnOwnership(s, c, text, w)) || !s.add.AwaitOwnership?
    ensures Anchored(OnRipped(s, c, text, w)) || !s.add.AwaitRipped?
    ensures Anchored(OnQuality(s, c, text, w)) || !s.add.AwaitQuality?
  {
    hide ParseOwnership, Resolve, Propose;
    ProposeEnds(s, c, Answers(Some(false), [], Some(false), [], s.childrens), w);
    ProposeEnds(s, c, Answers(Some(true), s.ownedMedia, Some(false), [], s.childrens), w);
    ProposeEnds(s, c, Answers(Some(true), s.ownedMedia, Some(true), [], s.childrens), w);
    var chosen := Resolve(text, s.offered);
    if chosen.Some? {
      ProposeEnds(s, c, Answers(Some(true), s.ownedMedia, Some(true), chosen.value, s.childrens), w);
    }
  }

  lemma QuestionAnchors(s: State, text: string, w: World)
    requires Anchored(s) && s.candidate.Some?
    ensures s.add.AwaitChildrens? ==> Anchored(OnChildrens(s, text))
    ensures s.add.AwaitMedia? ==> Anchored(OnMedia(s, text))
    ensures !Questioning(s.add) ==> Anchored(OnFilm(s, w))
  {
    hide ParseOwnership, Resolve;
  }

  lemma AddAnchors(s: State, text: string, w: World)
    requires Anchored(s)
    ensures Anchored(OrganizerAdd(s, text, w))
  {
    if s.candidate.Some? {
      QuestionAnchors(s, text, w);
      AnswerAnchors(s, s.candidate.value, text, w);
      hide Anchored, OnChildrens, OnMedia, OnFilm, OnOwnership, OnRipped, OnQuality;
    }
  }

  lemma CuratorAnchors(s: State, w: World)
    requires Anchored(s)
    ensures Anchored(Curator(s, w))
  {
  }

  lemma NodesAnchor(s: State, intent: Intent, text: string, w: World)
    requires Anchored(s) && !intent.Add?
    requires Questioning(s.add) ==> intent.Noop? || intent.Degraded? || intent.Disabled?
    ensures Anchored(RunNodes(s, intent, text, w))
  {
    CuratorAnchors(s, w);
    if !intent.Enrich? {
      OtherNodes(s, intent, text, w);
    }
    hide Curator, OrganizerAdd, SearchNode, Navigator, ImportNode, OrganizePick, OrganizeFresh;
  }

  lemma TurnAnchors(s: State, t: Turn)
    requires Anchored(s)
    ensures Anchored(TakeTurn(s, t))
  {
    var (s', intent) := Supervise(s, t);
    SuperviseRests(s, t);
    assert Anchored(s');
    hide Supervise, Curator, OrganizerAdd, Anchored, Questioning;
    if intent.Add? {
      CuratorAnchors(s', t.world);
      AddAnchors(Curator(s', t.world), t.text, t.world);
    } else {
      NodesAnchor(s', intent, t.text, t.world);
    }
  }

  /** In every run, session ends included. */
  lemma {:induction false} RunAnchors(s: State, events: seq<Event>)
    requires Anchored(s)
    ensures Anchored(Play(s, events))
    decreases |events|
  {
    if events != [] {
      if events[0].Message? {
        TurnAnchors(s, events[0].turn);
      }
      hide TakeTurn;
      RunAnchors(React(s, events[0]), events[1..]);
    }
  }

  // ----- replies to what is on offer -----

  /** A reply that names one of the offered choices stays in the workflow that offered them, however it is
      labelled, and nothing on offer is forgotten. */
  lemma OfferedReplyStays(s: State, t: Turn)
    requires Exclusive(s) && Ordinary(t)
    ensures s.add.AwaitPick? && Chooses(t.text, s.options) ==>
              Supervise(s, t) == (s.(pick := Some(s.options[ResolveOption(t.text, s.options).value])), Add)
    ensures !s.search.stage.NoSearch? && Chooses(t.text, s.search.results) ==> Supervise(s, t) == (s, Search)
    ensures s.organizing && Chooses(t.text, s.organizeOptions) ==> Supervise(s, t) == (s, Organize)
    ensures s.importing && Chooses(t.text, s.importOptions) ==> Supervise(s, t) == (s, Import)
    ensures s.navigating && Chooses(t.text, s.navigateOptions) ==> Supervise(s, t) == (s, Navigate)
  {
    hide ResolveOption, IsSearchCancel, AnswersQuestion, IsOrganizeCancel, IsCancelImport;
  }

  /** A waiting workflow is given up exactly by these replies: a search by a request to add or organize, an
      import by a request to add, organize, navigate or export, an organize question and a navigation by
      anything else than a choice (or the cancel of the former). */
  lemma WorkflowIsLeft(s: State, t: Turn)
    requires Exclusive(s) && Ordinary(t)
    ensures var left := Supervise(s, t).0; var i := t.classified.value;
            && (!s.search.stage.NoSearch? ==>
                  (left.search == IDLE <==> (i.Add? || i.Organize?) && !Chooses(t.text, s.search.results)))
            && (s.importing ==>
                  (!left.importing <==> (i.Add? || i.Organize? || i.Navigate? || i.Export?)
                                        && !Chooses(t.text, s.importOptions) && !IsCancelImport(t.text)))
            && (s.organizing ==>
                  (!left.organizing <==> !Chooses(t.text, s.organizeOptions) && !IsOrganizeCancel(t.text)))
            && (s.navigating ==> (!left.navigating <==> !Chooses(t.text, s.navigateOptions)))
  {
    hide ResolveOption, IsSearchCancel, AnswersQuestion, IsOrganizeCancel, IsCancelImport, Chooses;
  }

  // ----- leaving a search, and queueing a plan -----

  /** The exit control works with or without a search, whatever the classifier, the circuit breaker or the
      reads would have said, and closes nothing but the search. */
  lemma ExitAlwaysExits(s: State, t: Turn)
    requires !t.killed && t.human && IsSearchCancel(t.text) && s.add.NoAdd?
    ensures TakeTurn(s, t) == s.(search := IDLE, pending := None, pick := None)
  {
    hide IsSearchCancel, CancelsSearch, Step, ResolveOption;
  }

  lemma SuperviseSearch(s: State, t: Turn)
    ensures var s' := Supervise(s, t).0; s'.search == s.search || s'.search == IDLE
  {
    hide IsSearchCancel, ResolveOption, AnswersQuestion, IsOrganizeCancel, IsCancelImport;
  }

  lemma NodesSearch(s: State, intent: Intent, text: string, w: World)
    ensures var c := RunNodes(s, intent, text, w);
            c.search == s.search || c.search == IDLE || c.search == Step(s.search, text, w.found)
  {
    CuratorStages(s, w);
    AddStages(Curator(s, w), text, w);
    hide Exits, Step, ResolveOption, Curator, OrganizerAdd, OrganizeProposals, IsOrganizeCancel;
  }

  /** In every run a search at rest holds nothing, and results are held only while one is to be picked. */
  lemma TurnKeepsSearchSound(s: State, t: Turn)
    requires Sound(s.search)
    ensures Sound(TakeTurn(s, t).search)
  {
    var (s', intent) := Supervise(s, t);
    SuperviseSearch(s, t);
    NodesSearch(s', intent, t.text, t.world);
    hide Supervise, RunNodes, Step;
    StepCarriesTheSearch(s'.search, t.text, t.world.found);
  }

  /** The item asks for the operation. */
  predicate AsksFor(item: Item, o: OrganizeOp) {
    && item.op == o.op && item.coll == o.coll && item.movie == o.movie && item.payload == o.payload
    && item.dest == (if o.op.OpMove? then o.dest else "") && item.shown == o.shown
  }

  ghost predicate BatchOf(p: Proposal, ops: seq<OrganizeOp>) {
    |p.items| == |ops| && forall k | 0 <= k < |ops| :: AsksFor(p.items[k], ops[k])
  }

  lemma BuiltIsBatch(id: string, ops: seq<OrganizeOp>, idem: string -> string)
    ensures BatchOf(BuildOrganizeProposal(id, ops, idem), ops)
  {
    var p := BuildOrganizeProposal(id, ops, idem);
    forall k | 0 <= k < |ops| ensures AsksFor(p.items[k], ops[k]) {
      var itemId := OpName(ops[k].op) + "-" + NatText(k);
      assert p.items[k] == OrganizeItem(idem(itemId), itemId, ops[k]);
    }
  }

  lemma QueueOf(s: State, ops: seq<OrganizeOp>, w: World)
    requires ops != []
    ensures var s' := Finalize(s, ops, w);
            s'.pending.Some? && !s'.organizing && [s'.pending.value] + s'.batches == OrganizeProposals(ops, w)
  {
    var proposals := OrganizeProposals(ops, w);
    assert [proposals[0]] + proposals[1..] == proposals;
  }

  lemma EachBatch(ops: seq<OrganizeOp>, w: World, i: nat)
    requires i < |Batches.Chunk(ops, Batches.BATCH_CAP)|
    ensures BatchOf(OrganizeProposals(ops, w)[i], Batches.Chunk(ops, Batches.BATCH_CAP)[i])
  {
    hide BatchOf, BuildOrganizeProposal;
    BuiltIsBatch(w.batchId(i), Batches.Chunk(ops, Batches.BATCH_CAP)[i], w.idem);
  }

  /** A plan waits as a whole: its batches, in order, hold its operations, one item each. */
  lemma QueuedIsThePlan(s: State, ops: seq<OrganizeOp>, w: World)
    requires ops != []
    ensures var s' := Finalize(s, ops, w);
            s'.pending.Some? && !s'.organizing && [s'.pending.value] + s'.batches == OrganizeProposals(ops, w)
    ensures Batches.Concat(Batches.Chunk(ops, Batches.BATCH_CAP)) == ops
    ensures forall i | 0 <= i < |Batches.Chunk(ops, Batches.BATCH_CAP)| ::
              BatchOf(OrganizeProposals(ops, w)[i], Batches.Chunk(ops, Batches.BATCH_CAP)[i])
  {
    hide Finalize, OrganizeProposals, BatchOf, Batches.Concat;
    QueueOf(s, ops, w);
    Batches.ChunksAreThePlan(ops, Batches.BATCH_CAP);
    forall i | 0 <= i < |Batches.Chunk(ops, Batches.BATCH_CAP)| {
      EachBatch(ops, w, i);
    }
  }
}
