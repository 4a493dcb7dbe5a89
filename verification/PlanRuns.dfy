/**
 What is executed of a plan over a whole conversation.  The waiting proposal and the queued batches are
 shared by every workflow, so a message between two decisions can strand the rest of a plan or drop it.
 */
module PlanRuns {
  import opened Common
  import opened Proposals
  import opened PickOption
  import opened MultiSelect
  import opened Replies
  import opened SearchFlow
  import opened Conversation
  import Batches

  /** What is still to be decided, in order. */
  function Queue(s: State): seq<Proposal> {
    if s.pending.Some? then [s.pending.value] + s.batches else []
  }

  /** The proposals a run executes, in order. */
  function Executed(s: State, events: seq<Event>): seq<Proposal>
    decreases |events|
  {
    if events == [] then []
    else
      var e := events[0];
      (if e == Decision(true) && s.pending.Some? then [s.pending.value] else []) + Executed(React(s, e), events[1..])
  }

  // ----- what a message does to the gate -----

  predicate LeavesGateAlone(s: State, t: Turn) {
    TakeTurn(s, t).pending == s.pending && TakeTurn(s, t).batches == s.batches
  }

  /** The organize node puts up something else than what waits, or nothing. */
  predicate Reorganizes(s: State, organizing: bool, text: string, w: World) {
    if organizing && IsOrganizeCancel(text) then true
    else if organizing && !Chooses(text, s.organizeOptions) then true
    else !w.nodeFails
         && (!w.plan.Resolved? || w.plan.ops == [] || OrganizeProposals(w.plan.ops, w) != Queue(s))
  }

  /** The message disturbs a waiting plan.  Leaving the domain, an open circuit breaker and the kill switch drop
      the queued batches; an add that finds its film, a question, a search, a navigation and a request to
      organize take the waiting proposal away and leave the batches behind; a new plan or import replaces
      both. */
  predicate Disturbs(s: State, t: Turn) {
    var (s', intent) := Supervise(s, t);
    var w := t.world;
    match intent
    case Add => Curator(s', w).candidate.Some? && !w.nodeFails
    case Organize => Reorganizes(s', s'.organizing, t.text, w)
    case Navigate => (s'.navigating && Chooses(t.text, s'.navigateOptions)) || !w.nodeFails
    case Query => !w.nodeFails
    case Search => Exits(s'.search, t.text) || !w.nodeFails
    case Import => !w.nodeFails && w.imported.ImportProposes? && [w.imported.proposal] != Queue(s)
    case OutOfDomain => s.batches != []
    case Degraded => s.batches != []
    case Disabled => s.batches != []
    case _ => false
  }

  /** The gate is as it was in `s`. */
  predicate SameGate(s: State, c: State) {
    c.pending == s.pending && c.batches == s.batches
  }

  lemma SupervisedGate(s: State, t: Turn)
    requires !Questioning(s.add)
    ensures var (s', intent) := Supervise(s, t);
            && s'.pending == s.pending && !Questioning(s'.add)
            && s'.batches == if intent.Disabled? || intent.Degraded? then [] else s.batches
  {
    hide ResolveOption, AnswersQuestion, IsSearchCancel, IsOrganizeCancel, IsCancelImport;
  }

  lemma CuratedGate(s: State, w: World)
    requires !Questioning(s.add)
    ensures SameGate(s, Curator(s, w)) && !Questioning(Curator(s, w).add)
  {
  }

  lemma FilmGate(s: State, text: string, w: World)
    requires s.pending.Some? && !Questioning(s.add) && s.candidate.Some?
    ensures SameGate(s, OrganizerAdd(s, text, w)) <==> w.nodeFails
  {
  }

  lemma AddGate(s: State, text: string, w: World)
    requires s.pending.Some? && !Questioning(s.add)
    ensures SameGate(s, RunNodes(s, Add, text, w)) <==> !(Curator(s, w).candidate.Some? && !w.nodeFails)
  {
    CuratedGate(s, w);
    if Curator(s, w).candidate.Some? {
      FilmGate(Curator(s, w), text, w);
    }
    hide Curator, OrganizerAdd;
  }

  lemma FinalizeGate(s: State, ops: seq<OrganizeOp>, w: World)
    requires s.pending.Some?
    ensures SameGate(s, Finalize(s, ops, w)) <==> ops != [] && OrganizeProposals(ops, w) == Queue(s)
  {
    if ops != [] {
      QueueOf(s, ops, w);
      hide OrganizeProposals;
      var f := Finalize(s, ops, w);
      hide Finalize;
      assert f.pending.Some? && Queue(f) == OrganizeProposals(ops, w);
      SameQueue(s, f);
    }
  }

  lemma SameQueue(s: State, c: State)
    requires s.pending.Some? && c.pending.Some?
    ensures SameGate(s, c) <==> Queue(s) == Queue(c)
  {
    if Queue(s) == Queue(c) {
      assert Queue(s)[0] == s.pending.value && Queue(c)[0] == c.pending.value;
      assert Queue(s)[1..] == s.batches && Queue(c)[1..] == c.batches;
    }
  }

  lemma OrganizeGate(s: State, text: string, w: World)
    requires s.pending.Some?
    ensures SameGate(s, RunNodes(s, Organize, text, w)) <==> !Reorganizes(s, s.organizing, text, w)
  {
    FinalizeGate(s, if w.plan.Resolved? then w.plan.ops else [], w);
    hide Finalize, OrganizeProposals, Chooses, IsOrganizeCancel, Curator, OrganizerAdd, Queue;
  }

  lemma SearchGate(s: State, text: string, w: World)
    requires s.pending.Some?
    ensures SameGate(s, SearchNode(s, text, w)) <==> !(Exits(s.search, text) || !w.nodeFails)
  {
    hide Exits, Step;
  }

  lemma NavigateGate(s: State, text: string, w: World)
    requires s.pending.Some?
    ensures SameGate(s, Navigator(s, text, w)) <==> !((s.navigating && Chooses(text, s.navigateOptions)) || !w.nodeFails)
  {
    hide Chooses;
  }

  lemma ImportGate(s: State, w: World)
    requires s.pending.Some?
    ensures SameGate(s, ImportNode(s, w)) <==>
              !(!w.nodeFails && w.imported.ImportProposes? && [w.imported.proposal] != Queue(s))
  {
    if !w.nodeFails && w.imported.ImportProposes? {
      var c := ImportNode(s, w);
      SameQueue(s, c);
      assert Queue(c) == [w.imported.proposal];
    }
  }

  lemma OtherGate(s: State, intent: Intent, text: string, w: World)
    requires s.pending.Some? && !Questioning(s.add)
    requires !intent.Add? && !intent.Organize? && !intent.Search? && !intent.Navigate? && !intent.Import?
    ensures SameGate(s, RunNodes(s, intent, text, w)) <==>
              !(intent.Query? && !w.nodeFails)
              && !((intent.OutOfDomain? || intent.Degraded? || intent.Disabled?) && s.batches != [])
  {
    CuratedGate(s, w);
    hide Curator, OrganizerAdd, SearchNode, Navigator, ImportNode, OrganizePick, OrganizeFresh;
  }

  /** A message leaves a waiting plan as it is exactly when it does not disturb it. */
  lemma MessageLeavesThePlan(s: State, t: Turn)
    requires s.pending.Some? && Resting(s)
    ensures LeavesGateAlone(s, t) <==> !Disturbs(s, t)
  {
    var (s', intent) := Supervise(s, t);
    SupervisedGate(s, t);
    hide Supervise, RunNodes, Curator, Chooses, Exits, Queue, IsOrganizeCancel, OrganizeProposals, Questioning;
    match intent {
      case Add => AddGate(s', t.text, t.world);
      case Organize => OrganizeGate(s', t.text, t.world); QueueIs(s, s');
      case Search => SearchGate(s', t.text, t.world); SearchRuns(s', t.text, t.world);
      case Navigate => NavigateGate(s', t.text, t.world); SearchRuns(s', t.text, t.world);
      case Import => ImportGate(s', t.world); SearchRuns(s', t.text, t.world); QueueIs(s, s');
      case _ => OtherGate(s', intent, t.text, t.world);
    }
  }

  lemma QueueIs(s: State, c: State)
    requires SameGate(s, c)
    ensures Queue(s) == Queue(c)
  {
  }

  lemma SearchRuns(s: State, text: string, w: World)
    ensures RunNodes(s, Search, text, w) == SearchNode(s, text, w)
    ensures RunNodes(s, Navigate, text, w) == Navigator(s, text, w)
    ensures RunNodes(s, Import, text, w) == ImportNode(s, w)
  {
  }

  // ----- runs whose messages leave the gate alone -----

  /** The decisions of a run, its messages left out. */
  function Decisions(events: seq<Event>): (r: seq<Batches.Event>)
    ensures |r| <= |events|
  {
    if events == [] then []
    else
      (match events[0]
       case Message(_) => []
       case Decision(approved) => [if approved then Batches.Approved else Batches.Rejected]
       case SessionEnd => [Batches.SessionEnded])
      + Decisions(events[1..])
  }

  predicate AllLeaveGateAlone(s: State, events: seq<Event>)
    decreases |events|
  {
    events != [] ==>
      && (events[0].Message? ==> LeavesGateAlone(s, events[0].turn))
      && AllLeaveGateAlone(React(s, events[0]), events[1..])
  }

  function Min(a: nat, b: nat): nat {
    if a <= b then a else b
  }

  /** No batch is queued behind nothing. */
  predicate Orderly(s: State) {
    s.pending.None? ==> s.batches == []
  }

  /** A decision on an orderly gate: the plan and what is left of it. */
  lemma DecisionStep(s: State, e: Event)
    requires Orderly(s) && (e.Message? ==> LeavesGateAlone(s, e.turn))
    ensures var s' := React(s, e);
            && Orderly(s')
            && Queue(s') == match e
                            case Message(_) => Queue(s)
                            case Decision(approved) => if approved && Queue(s) != [] then Queue(s)[1..] else []
                            case SessionEnd => []
  {
    hide TakeTurn;
  }

  lemma PrefixOfOne(d: Batches.Event, ds: seq<Batches.Event>)
    ensures Batches.ApprovedPrefix([d] + ds) == if d.Approved? then 1 + Batches.ApprovedPrefix(ds) else 0
  {
    assert ([d] + ds)[1..] == ds;
  }

  lemma OneMoreApproved(q: seq<Proposal>, n: nat)
    requires q != []
    ensures [q[0]] + q[1..][..Min(n, |q| - 1)] == q[..Min(n + 1, |q|)]
    ensures q[1..][Min(n, |q| - 1)..] == q[Min(n + 1, |q|)..]
  {
  }

  /** What a run of decisions `ds` makes of a queue. */
  predicate RunsPrefix(q: seq<Proposal>, ds: seq<Batches.Event>, executed: seq<Proposal>, left: seq<Proposal>) {
    var n := Batches.ApprovedPrefix(ds);
    && executed == q[..Min(n, |q|)]
    && left == if n == |ds| then q[Min(n, |q|)..] else []
  }

  lemma ApprovedFirst(q: seq<Proposal>, ds: seq<Batches.Event>, executed: seq<Proposal>, left: seq<Proposal>)
    requires RunsPrefix(if q == [] then [] else q[1..], ds, executed, left)
    ensures RunsPrefix(q, [Batches.Approved] + ds, (if q == [] then [] else [q[0]]) + executed, left)
  {
    PrefixOfOne(Batches.Approved, ds);
    hide Batches.ApprovedPrefix;
    if q != [] {
      OneMoreApproved(q, Batches.ApprovedPrefix(ds));
    }
  }

  lemma StoppedFirst(q: seq<Proposal>, d: Batches.Event, ds: seq<Batches.Event>, executed: seq<Proposal>,
                     left: seq<Proposal>)
    requires !d.Approved? && RunsPrefix([], ds, executed, left)
    ensures RunsPrefix(q, [d] + ds, [] + executed, left)
  {
    PrefixOfOne(d, ds);
    hide Batches.ApprovedPrefix;
  }

  /** Whatever else is said, and wherever the session ends: as long as the messages leave the gate alone, a run
      executes exactly the longest approved prefix of what waited, each batch once and in order, and keeps the
      rest waiting only while every decision was an approval. */
  lemma {:induction false} ApprovedPrefixIsExecuted(s: State, events: seq<Event>)
    requires Orderly(s) && AllLeaveGateAlone(s, events)
    ensures RunsPrefix(Queue(s), Decisions(events), Executed(s, events), Queue(Play(s, events)))
    decreases |events|
  {
    if events == [] {
      assert Queue(s)[..0] == [] && Queue(s)[0..] == Queue(s);
    } else {
      var e, rest := events[0], events[1..];
      DecisionStep(s, e);
      hide TakeTurn, LeavesGateAlone, Decide, Expire, Orderly, RunsPrefix, Batches.ApprovedPrefix;
      ApprovedPrefixIsExecuted(React(s, e), rest);
      var ds, executed, left := Decisions(rest), Executed(React(s, e), rest), Queue(Play(s, events));
      assert [] + ds == ds && [] + executed == executed;
      match e {
        case Message(t) =>
        case Decision(approved) =>
          if approved {
            ApprovedFirst(Queue(s), ds, executed, left);
          } else {
            StoppedFirst(Queue(s), Batches.Rejected, ds, executed, left);
          }
        case SessionEnd => StoppedFirst(Queue(s), Batches.SessionEnded, ds, executed, left);
      }
    }
  }

  // ----- the gate -----

  lemma {:induction false} RunStep(s: State, events: seq<Event>, n: nat)
    requires n < |events|
    ensures Play(s, events[..n + 1]) == React(Play(s, events[..n]), events[n])
    ensures Executed(s, events[..n + 1]) == Executed(s, events[..n]) + Executed(Play(s, events[..n]), [events[n]])
    decreases n
  {
    hide React;
    if n == 0 {
      assert events[..1] == [events[0]] && events[..0] == [] && [events[0]][1..] == [];
    } else {
      var rest := events[1..];
      RunStep(React(s, events[0]), rest, n - 1);
      assert events[..n + 1][1..] == rest[..n] && events[..n][1..] == rest[..n - 1] && rest[n - 1] == events[n];
    }
  }

  /** The thread of a conversation: its state, and what has been executed for it. */
  class Thread {
    var state: State
    ghost var executed: seq<Proposal>

    constructor (s: State)
      ensures state == s && executed == []
    {
      state, executed := s, [];
    }

    /** The gate node, resumed with a decision. */
    method Resume(approved: bool)
      modifies this
      ensures state == Decide(old(state), approved)
      ensures executed == old(executed) + if approved then Queue(old(state))[..Min(1, |Queue(old(state))|)] else []
    {
      if state.pending.None? {
        return;
      }
      if !approved {
        state := GateReset(state).(pending := None);
        return;
      }
      executed := executed + [state.pending.value];
      var remaining := state.batches;
      if remaining != [] {
        state := state.(pending := Some(remaining[0]), batches := remaining[1..]);
      } else {
        state := GateReset(state).(pending := None);
      }
    }

    /** The sweep at the end of the session. */
    method Sweep() returns (expired: bool)
      modifies this
      ensures state == Expire(old(state)) && Queue(state) == [] && state.batches == []
      ensures expired <==> old(state).pending.Some? || old(state).batches != []
      ensures executed == old(executed)
    {
      expired := state.pending.Some? || state.batches != [];
      if expired {
        state := state.(pending := None, batches := [], add := NoAdd, options := [], pick := None, candidate := None);
      }
    }

    method Hear(t: Turn)
      modifies this
      ensures state == TakeTurn(old(state), t) && executed == old(executed)
    {
      var (s, intent) := Supervise(state, t);
      state := RunNodes(s, intent, t.text, t.world);
    }

    /** A whole run, message by message and decision by decision.  As long as its messages leave the gate alone
        it executes the longest approved prefix of what waited, and nothing else. */
    method Conduct(events: seq<Event>)
      modifies this
      ensures state == Play(old(state), events)
      ensures executed == old(executed) + Executed(old(state), events)
      ensures Orderly(old(state)) && AllLeaveGateAlone(old(state), events) ==>
                RunsPrefix(Queue(old(state)), Decisions(events), executed[|old(executed)|..], Queue(state))
    {
      hide TakeTurn, Decide, Expire, Orderly, AllLeaveGateAlone, RunsPrefix;
      ghost var s0 := state;
      for i := 0 to |events|
        invariant state == Play(s0, events[..i])
        invariant executed == old(executed) + Executed(s0, events[..i])
      {
        RunStep(s0, events, i);
        assert [events[i]][1..] == [];
        match events[i] {
          case Message(t) => Hear(t);
          case Decision(approved) => Resume(approved);
          case SessionEnd => var _ := Sweep();
        }
      }
      assert events[..|events|] == events;
      if Orderly(s0) && AllLeaveGateAlone(s0, events) {
        ApprovedPrefixIsExecuted(s0, events);
      }
    }
  }

  // ----- and only those -----

  function Messages(turns: seq<Turn>): (r: seq<Event>)
    ensures |r| == |turns|
  {
    seq(|turns|, i requires 0 <= i < |turns| => Message(turns[i]))
  }

  function Approvals(n: nat): seq<Event> {
    if n == 0 then [] else [Decision(true)] + Approvals(n - 1)
  }

  function After(s: State, turns: seq<Turn>): State
    decreases |turns|
  {
    if turns == [] then s else After(TakeTurn(s, turns[0]), turns[1..])
  }

  predicate NoneDisturbs(s: State, turns: seq<Turn>)
    decreases |turns|
  {
    turns != [] ==> !Disturbs(s, turns[0]) && NoneDisturbs(TakeTurn(s, turns[0]), turns[1..])
  }

  /** What the turn may propose is another proposal: new ones have ids of their own, except that of an import,
      whose id is that of its thread. */
  ghost predicate ProposesOther(t: Turn, p: Proposal) {
    && t.world.proposalId != p.id
    && (forall i: nat :: t.world.batchId(i) != p.id)
    && (t.world.imported.ImportProposes? ==> t.world.imported.proposal != p)
  }

  /** The plan is no longer there as a whole. */
  predicate Gone(s: State, plan: seq<Proposal>)
    requires plan != []
  {
    s.pending != Some(plan[0]) || (s.batches == [] && |plan| > 1)
  }

  /** The gate after a turn: as before, without its batches, empty, or with a proposal of the turn's own. */
  ghost predicate FromTurn(s: State, c: State, t: Turn) {
    || (c.pending == s.pending && (c.batches == s.batches || c.batches == []))
    || c.pending.None?
    || c.pending.value.id == t.world.proposalId
    || (exists i: nat :: c.pending.value.id == t.world.batchId(i))
    || (t.world.imported.ImportProposes? && c.pending == Some(t.world.imported.proposal))
  }

  predicate OwnGate(c: State, w: World) {
    c.pending.None? || c.pending.value.id == w.proposalId
  }

  lemma ProposeOwn(c: State, film: Candidate, a: Answers, w: World)
    ensures OwnGate(Propose(c, film, a, w), w)
  {
  }

  lemma YesNoOwn(c: State, film: Candidate, text: string, w: World)
    ensures OwnGate(OnChildrens(c, text), w) && OwnGate(OnOwnership(c, film, text, w), w)
    ensures OwnGate(OnRipped(c, film, text, w), w)
  {
    hide ParseOwnership, Propose;
    ProposeOwn(c, film, Answers(Some(false), [], Some(false), [], c.childrens), w);
    ProposeOwn(c, film, Answers(Some(true), c.ownedMedia, Some(false), [], c.childrens), w);
    ProposeOwn(c, film, Answers(Some(true), c.ownedMedia, Some(true), [], c.childrens), w);
  }

  lemma SelectOwn(c: State, film: Candidate, text: string, w: World)
    ensures OwnGate(OnMedia(c, text), w) && OwnGate(OnQuality(c, film, text, w), w)
  {
    hide Resolve, Propose;
    var chosen := Resolve(text, c.offered);
    if chosen.Some? {
      ProposeOwn(c, film, Answers(Some(true), c.ownedMedia, Some(true), chosen.value, c.childrens), w);
    }
  }

  lemma FilmOwn(c: State, w: World)
    ensures SameGate(c, OnFilm(c, w)) || OwnGate(OnFilm(c, w), w)
  {
  }

  lemma AddOwn(c: State, text: string, w: World)
    ensures var r := OrganizerAdd(c, text, w); SameGate(c, r) || OwnGate(r, w)
  {
    hide OnChildrens, OnOwnership, OnMedia, OnRipped, OnQuality, OnFilm;
    if c.candidate.Some? {
      var film := c.candidate.value;
      YesNoOwn(c, film, text, w);
      SelectOwn(c, film, text, w);
      FilmOwn(c, w);
      hide SameGate, OwnGate;
    }
  }

  lemma AddFrom(s: State, c: State, t: Turn)
    requires c.pending == s.pending && (c.batches == s.batches || c.batches == [])
    ensures FromTurn(s, OrganizerAdd(c, t.text, t.world), t)
  {
    AddOwn(c, t.text, t.world);
    hide OrganizerAdd;
  }

  lemma FinalizeFrom(s: State, c: State, ops: seq<OrganizeOp>, t: Turn)
    ensures FromTurn(s, Finalize(c, ops, t.world), t)
  {
    if ops != [] {
      QueueOf(c, ops, t.world);
      var parts := Batches.Chunk(ops, Batches.BATCH_CAP);
      var f := Finalize(c, ops, t.world);
      assert OrganizeProposals(ops, t.world)[0] == BuildOrganizeProposal(t.world.batchId(0), parts[0], t.world.idem);
      hide Finalize, OrganizeProposals, Batches.Chunk;
      assert f.pending == Some(([f.pending.value] + f.batches)[0]);
    }
  }

  predicate LessGate(s: State, c: State) {
    (c.pending == s.pending && (c.batches == s.batches || c.batches == [])) || c.pending.None?
  }

  lemma SearchingFrom(s: State, text: string, w: World)
    ensures LessGate(s, SearchNode(s, text, w)) && LessGate(s, Navigator(s, text, w))
  {
    hide Exits, Step, Chooses;
  }

  lemma OrganizingFrom(s: State, c: State, t: Turn)
    requires c.pending == s.pending && (c.batches == s.batches || c.batches == [])
    ensures FromTurn(s, OrganizePick(c, t.text, t.world), t) && FromTurn(s, OrganizeFresh(c, t.world), t)
  {
    FinalizeFrom(s, c, if t.world.plan.Resolved? then t.world.plan.ops else [], t);
    hide Finalize, Chooses, IsOrganizeCancel;
  }

  lemma ImportingFrom(s: State, c: State, t: Turn)
    requires c.pending == s.pending && (c.batches == s.batches || c.batches == [])
    ensures FromTurn(s, ImportNode(c, t.world), t)
  {
  }

  lemma NodesFrom(s: State, c: State, intent: Intent, t: Turn)
    requires !intent.Add? && c.pending == s.pending && (c.batches == s.batches || c.batches == [])
    ensures FromTurn(s, RunNodes(c, intent, t.text, t.world), t)
  {
    SearchingFrom(c, t.text, t.world);
    OrganizingFrom(s, c, t);
    ImportingFrom(s, c, t);
    CuratorKeepsGate(c, t.world);
    hide OrganizerAdd, Curator, SearchNode, Navigator, ImportNode, OrganizePick, OrganizeFresh;
  }

  lemma SupervisedFrom(s: State, t: Turn)
    ensures var s' := Supervise(s, t).0; s'.pending == s.pending && (s'.batches == s.batches || s'.batches == [])
  {
    hide ResolveOption, AnswersQuestion, IsSearchCancel, IsOrganizeCancel, IsCancelImport;
  }

  lemma CuratorKeepsGate(s: State, w: World)
    ensures SameGate(s, Curator(s, w))
  {
  }

  lemma TurnFrom(s: State, t: Turn)
    ensures FromTurn(s, TakeTurn(s, t), t)
  {
    var (s', intent) := Supervise(s, t);
    SupervisedFrom(s, t);
    hide Supervise, OrganizerAdd, Curator;
    if intent.Add? {
      CuratorKeepsGate(s', t.world);
      AddFrom(s, Curator(s', t.world), t);
    } else {
      NodesFrom(s, s', intent, t);
    }
  }

  lemma GoneStays(s: State, t: Turn, plan: seq<Proposal>)
    requires plan != [] && Gone(s, plan) && ProposesOther(t, plan[0])
    ensures Gone(TakeTurn(s, t), plan)
  {
    TurnFrom(s, t);
    hide TakeTurn;
  }

  lemma DisturbedIsGone(s: State, t: Turn)
    requires s.pending.Some? && Resting(s) && Disturbs(s, t) && ProposesOther(t, s.pending.value)
    ensures Gone(TakeTurn(s, t), Queue(s))
  {
    MessageLeavesThePlan(s, t);
    TurnFrom(s, t);
    hide TakeTurn, Disturbs;
  }

  lemma {:induction false} GoneForGood(s: State, turns: seq<Turn>, plan: seq<Proposal>)
    requires plan != [] && Gone(s, plan) && forall t | t in turns :: ProposesOther(t, plan[0])
    ensures !(plan <= Queue(After(s, turns)))
    decreases |turns|
  {
    if turns != [] {
      assert turns[0] in turns && forall t | t in turns[1..] :: t in turns;
      GoneStays(s, turns[0], plan);
      hide TakeTurn, Gone, ProposesOther;
      GoneForGood(TakeTurn(s, turns[0]), turns[1..], plan);
    } else {
      GoneIsNoPrefix(s, plan);
    }
  }

  lemma GoneIsNoPrefix(s: State, plan: seq<Proposal>)
    requires plan != [] && Gone(s, plan)
    ensures !(plan <= Queue(s))
  {
    assert s.pending.Some? ==> Queue(s)[0] == s.pending.value && |Queue(s)| == |s.batches| + 1;
  }

  lemma {:induction false} SurvivesIff(s: State, turns: seq<Turn>)
    requires s.pending.Some? && Resting(s) && forall t | t in turns :: ProposesOther(t, s.pending.value)
    ensures Queue(s) <= Queue(After(s, turns)) <==> NoneDisturbs(s, turns)
    decreases |turns|
  {
    if turns != [] {
      var t := turns[0];
      assert t in turns && forall u | u in turns[1..] :: u in turns;
      MessageLeavesThePlan(s, t);
      TurnKeepsResting(s, t);
      if Disturbs(s, t) {
        DisturbedIsGone(s, t);
        hide TakeTurn, Disturbs, Gone, ProposesOther, Resting;
        GoneForGood(TakeTurn(s, t), turns[1..], Queue(s));
      } else {
        hide TakeTurn, Disturbs, ProposesOther, Resting;
        SurvivesIff(TakeTurn(s, t), turns[1..]);
      }
    }
  }

  lemma {:induction false} ApprovalsExecute(s: State, n: nat)
    ensures Executed(s, Approvals(n)) == Queue(s)[..Min(n, |Queue(s)|)]
    decreases n
  {
    if n > 0 {
      var s' := Decide(s, true);
      ApprovalsExecute(s', n - 1);
      assert Approvals(n)[1..] == Approvals(n - 1);
      if s.pending.Some? {
        var q := Queue(s);
        assert Queue(s') == q[1..];
        hide Decide;
        assert q[..Min(n, |q|)] == [q[0]] + q[1..][..Min(n - 1, |q| - 1)];
      }
    }
  }

  lemma {:induction false} MessagesExecuteNothing(s: State, turns: seq<Turn>, rest: seq<Event>)
    ensures Executed(s, Messages(turns) + rest) == Executed(After(s, turns), rest)
    decreases |turns|
  {
    hide TakeTurn;
    if turns == [] {
      assert Messages(turns) + rest == rest;
    } else {
      var all := Messages(turns) + rest;
      assert all[0] == Message(turns[0]) && all[1..] == Messages(turns[1..]) + rest;
      MessagesExecuteNothing(TakeTurn(s, turns[0]), turns[1..], rest);
      assert [] + Executed(TakeTurn(s, turns[0]), all[1..]) == Executed(TakeTurn(s, turns[0]), all[1..]);
    }
  }

  /** Whatever is said while a plan waits: approving it batch by batch afterwards executes the plan, all of it
      and nothing else, exactly when none of the messages disturbed it. */
  lemma PlanSurvivesIff(s: State, turns: seq<Turn>)
    requires s.pending.Some? && Resting(s) && forall t | t in turns :: ProposesOther(t, s.pending.value)
    ensures Executed(s, Messages(turns) + Approvals(|Queue(s)|)) == Queue(s) <==> NoneDisturbs(s, turns)
  {
    hide NoneDisturbs, Executed, ProposesOther, Resting, Messages, Approvals;
    SurvivesIff(s, turns);
    MessagesExecuteNothing(s, turns, Approvals(|Queue(s)|));
    ApprovalsExecute(After(s, turns), |Queue(s)|);
  }

  // ----- a stranded batch runs after an unrelated film -----

  /** The start of such a run: a plan of two batches or more is proposed. */
  lemma PlanProposed(t: Turn, ops: seq<OrganizeOp>)
    requires Ordinary(t) && t.classified == Some(Organize) && !t.world.nodeFails && t.world.plan == Resolved(ops)
    requires |ops| > Batches.BATCH_CAP
    ensures var batches := OrganizeProposals(ops, t.world);
            && |batches| >= 2
            && TakeTurn(INITIAL, t) == INITIAL.(pending := Some(batches[0]), batches := batches[1..])
  {
    hide IsSearchCancel, IsOrganizeCancel, OrganizerAdd, BuildOrganizeProposal;
    var parts := Batches.Chunk(ops, Batches.BATCH_CAP);
    assert parts == [ops[..Batches.BATCH_CAP]] + Batches.Chunk(ops[Batches.BATCH_CAP..], Batches.BATCH_CAP);
  }

  /** The film is found, its collection is known, and it is neither a children's film nor owned. */
  predicate AddsFilm(add: Turn, childrens: Turn, owned: Turn, film: Candidate) {
    && Ordinary(add) && add.classified == Some(Add) && !add.world.nodeFails && add.world.target.Some?
    && add.world.extraction.Extracted? && add.world.extraction.title != "" && add.world.enrichment == OneFilm(film)
    && Ordinary(childrens) && ParseOwnership(childrens.text).Some?
    && Ordinary(owned) && ParseOwnership(owned.text) == Some(false)
  }

  lemma FilmProposed(s: State, add: Turn, childrens: Turn, owned: Turn, film: Candidate)
    requires AddsFilm(add, childrens, owned, film) && s == INITIAL.(pending := s.pending, batches := s.batches)
    ensures var c := After(s, [add, childrens, owned]);
            && c.pending.Some? && c.batches == s.batches && c.pending.value.id == owned.world.proposalId
            && |c.pending.value.items| >= 1
            && c.pending.value.items[|c.pending.value.items| - 1].candidate == Some(film)
  {
    var s1 := s.(pending := None, candidate := Some(film), target := add.world.target, add := AwaitChildrens);
    FirstTurn(s, add, film);
    SecondTurn(s1, childrens);
    var s2 := s1.(add := AwaitOwnership, childrens := ParseOwnership(childrens.text));
    ThirdTurn(s2, owned, film);
    hide TakeTurn, AddsFilm;
    assert [add, childrens, owned][1..] == [childrens, owned] && [childrens, owned][1..] == [owned] && [owned][1..] == [];
    assert After(s, [add, childrens, owned]) == After(s1, [childrens, owned]);
    assert After(s1, [childrens, owned]) == After(s2, [owned]);
    assert After(s2, [owned]) == After(TakeTurn(s2, owned), []);
  }

  lemma FirstTurn(s: State, t: Turn, film: Candidate)
    requires s == INITIAL.(pending := s.pending, batches := s.batches)
    requires Ordinary(t) && t.classified == Some(Add) && !t.world.nodeFails && t.world.target.Some?
    requires t.world.extraction.Extracted? && t.world.extraction.title != "" && t.world.enrichment == OneFilm(film)
    ensures TakeTurn(s, t)
            == s.(pending := None, candidate := Some(film), target := t.world.target, add := AwaitChildrens)
  {
    hide IsSearchCancel, ResolveOption, IsOrganizeCancel, IsCancelImport;
  }

  lemma SecondTurn(s: State, t: Turn)
    requires s.add.AwaitChildrens? && s.candidate.Some? && s.pending.None?
    requires Ordinary(t) && ParseOwnership(t.text).Some?
    ensures TakeTurn(s, t) == s.(add := AwaitOwnership, childrens := ParseOwnership(t.text))
  {
    hide IsSearchCancel, ParseOwnership;
  }

  lemma ThirdTurn(s: State, t: Turn, film: Candidate)
    requires s.add.AwaitOwnership? && s.candidate == Some(film)
    requires Ordinary(t) && ParseOwnership(t.text) == Some(false)
    ensures var c := TakeTurn(s, t);
            && c.pending.Some? && c.batches == s.batches && c.pending.value.id == t.world.proposalId
            && |c.pending.value.items| >= 1
            && c.pending.value.items[|c.pending.value.items| - 1].candidate == Some(film)
  {
    hide IsSearchCancel, ParseOwnership;
  }

  /** A plan of several batches is proposed, and before any of it is approved a film is added instead: approving
      the film and what the gate shows next executes the film and then the second batch of the plan, whose
      first batch was never approved. */
  lemma StrandedBatchRuns(organize: Turn, ops: seq<OrganizeOp>, add: Turn, childrens: Turn, owned: Turn, film: Candidate)
    requires Ordinary(organize) && organize.classified == Some(Organize) && !organize.world.nodeFails
    requires organize.world.plan == Resolved(ops) && |ops| > Batches.BATCH_CAP
    requires AddsFilm(add, childrens, owned, film)
    ensures var batches := OrganizeProposals(ops, organize.world);
            var executed := Executed(INITIAL, Messages([organize, add, childrens, owned]) + Approvals(2));
            && |batches| >= 2 && |executed| == 2
            && executed[0].id == owned.world.proposalId && executed[1] == batches[1]
  {
    var turns, batches := [organize, add, childrens, owned], OrganizeProposals(ops, organize.world);
    PlanProposed(organize, ops);
    var s1 := INITIAL.(pending := Some(batches[0]), batches := batches[1..]);
    FilmProposed(s1, add, childrens, owned, film);
    hide TakeTurn, AddsFilm, OrganizeProposals, Executed, Messages, Approvals, Ordinary;
    assert turns[1..] == [add, childrens, owned];
    var c := After(INITIAL, turns);
    assert c == After(s1, [add, childrens, owned]);
    MessagesExecuteNothing(INITIAL, turns, Approvals(2));
    ApprovalsExecute(c, 2);
    assert Queue(c)[..2] == [c.pending.value, batches[1]];
  }

  /** Such a plan also keeps the answers of an add from being cleared when the session ends: the sweep finds
      the queued batches, stops the add, and leaves its collection and its first answer in the state. */
  lemma CutOffKeepsAnswers(organize: Turn, ops: seq<OrganizeOp>, add: Turn, childrens: Turn, owned: Turn, film: Candidate)
    requires Ordinary(organize) && organize.classified == Some(Organize) && !organize.world.nodeFails
    requires organize.world.plan == Resolved(ops) && |ops| > Batches.BATCH_CAP
    requires AddsFilm(add, childrens, owned, film)
    ensures var s := Play(INITIAL, [Message(organize), Message(add), Message(childrens), SessionEnd]);
            && s.add.NoAdd? && s.batches == [] && !Contained(s)
            && s.target == add.world.target && s.childrens == ParseOwnership(childrens.text)
  {
    var batches := OrganizeProposals(ops, organize.world);
    PlanProposed(organize, ops);
    var s1 := INITIAL.(pending := Some(batches[0]), batches := batches[1..]);
    FirstTurn(s1, add, film);
    var s2 := s1.(pending := None, candidate := Some(film), target := add.world.target, add := AwaitChildrens);
    SecondTurn(s2, childrens);
    var s3 := s2.(add := AwaitOwnership, childrens := ParseOwnership(childrens.text));
    hide TakeTurn, AddsFilm, OrganizeProposals, Ordinary;
    var events := [Message(organize), Message(add), Message(childrens), SessionEnd];
    PlayStep(INITIAL, events[0], events[1..]);
    PlayStep(s1, events[1], events[2..]);
    PlayStep(s2, events[2], events[3..]);
    PlayStep(s3, SessionEnd, []);
    assert events == [events[0]] + events[1..] && events[1..] == [events[1]] + events[2..];
    assert events[2..] == [events[2]] + events[3..] && events[3..] == [SessionEnd] + [];
  }
}
