/** The invariant of the whole system holds in every reachable state. */
module SystemInvariant {
  import opened ProposalIds
  import opened Messages
  import opened Acceptors
  import opened Proposers
  import opened Learners
  import opened Nodes
  import opened Servers
  import opened Systems
  import opened SystemSteps
  import C = Consensus
  import CS = ConsensusSteps

  // ----- what posting leaves alone

  predicate NetGrows(net: Network, net': Network) {
    && net.prepares <= net'.prepares && net.promises <= net'.promises && net.accepts <= net'.accepts
    && net.permits <= net'.permits && net.prepareAcks <= net'.prepareAcks && net.acceptAcks <= net'.acceptAcks
    && net.heartbeats <= net'.heartbeats
  }

  predicate SameTable(s: ServerState, s': ServerState) {
    s' == s.(majority := s'.majority)
  }

  /** New broadcasts and refusals name the posting server, and each prepare, refusal or heartbeat was
      one of the effects. */
  ghost predicate PostedBy(uid: Uid, effects: seq<Effect>, net: Network, net': Network) {
    && (forall m <- net'.prepares :: m in net.prepares || (m.from == uid && SendPrepare(m.id) in effects))
    && (forall m <- net'.accepts :: m in net.accepts || m.from == uid)
    && (forall m <- net'.acceptAcks :: m in net.acceptAcks
          || (m.from == uid && SendAcceptNack(m.to, m.id, m.promised) in effects))
    && (forall m <- net'.prepareAcks :: m in net.prepareAcks
          || (m.from == uid && SendPrepareNack(m.to, m.id, m.promised) in effects))
    && (forall m <- net'.heartbeats :: m in net.heartbeats
          || (m.from == uid && SendHeartbeat(m.leaderUid, m.leaderId) in effects))
  }

  lemma PostFrame(s: ServerState, net: Network, e: Effect)
    ensures var (s', net') := s.Post(net, e);
            SameTable(s, s') && NetGrows(net, net') && PostedBy(s.uid, [e], net, net')
  {
  }

  lemma {:induction false} PostAllFrame(s: ServerState, net: Network, effects: seq<Effect>)
    ensures var (s', net') := s.PostAll(net, effects);
            SameTable(s, s') && NetGrows(net, net') && PostedBy(s.uid, effects, net, net')
    decreases |effects|
  {
    hide ServerState.Post;
    if effects != [] {
      var (s1, net1) := s.Post(net, effects[0]);
      PostFrame(s, net, effects[0]);
      PostAllFrame(s1, net1, effects[1..]);
      assert effects[0] in effects;
      assert forall x <- effects[1..] :: x in effects;
    }
  }

  // ----- what a handler leaves alone

  /** Only requests are refused, each kind with its own refusal. */
  lemma NoRefusals(cfg: Setup, m: Member, e: Event)
    ensures forall x <- React(cfg, m, e).1 ::
              (x.SendAcceptNack? ==> e.GetAccept?) && (x.SendPrepareNack? ==> e.GetPrepare?)
  {
    hide ProposalId.Compare, ProposerState.Observe, LearnerState.ReceiveAccepted, NodeState.ReceivePromise,
      NodeState.Pulse;
    match e
    case GetPromise(p, now) =>
      PromiseNeverRefuses(m.node, p, now);
    case Pulse(now) =>
      PulseNeverRefuses(m.node, now);
    case GetPermit(p, blank) =>
      HearNeverRefuses(cfg, m.node, p, blank);
    case _ =>
  }

  lemma PulseNeverRefuses(n: NodeState, now: nat)
    ensures forall x <- n.Pulse(now).1 :: !x.SendAcceptNack? && !x.SendPrepareNack?
  {
    hide ProposalId.Compare, ProposerState.Observe;
  }

  lemma PromiseNeverRefuses(n: NodeState, p: PromiseMessage, now: nat)
    ensures forall x <- n.ReceivePromise(p.from, p.id, p.prevId, p.prevValue, now).1 ::
              !x.SendAcceptNack? && !x.SendPrepareNack?
  {
    hide ProposalId.Compare, ProposerState.Observe, NodeState.Pulse;
    var r' := n.proposer.ReceivePromise(p.from, p.id, p.prevId, p.prevValue).0;
    PulseNeverRefuses(n.(proposer := r', leaderUid := r'.uid, leaderId := r'.ballot, acquiring := false), now);
  }

  lemma HearNeverRefuses(cfg: Setup, n: NodeState, p: PermitMessage, blank: Tally)
    ensures forall x <- Hear(cfg, n, p, blank).1 :: !x.SendAcceptNack? && !x.SendPrepareNack?
  {
  }

  predicate TouchesAcceptor(e: Event) {
    e.GetPrepare? || e.GetAccept? || e.Persisted? || e.Crash? || e.Save?
  }

  /** Which events change which role of the node. */
  lemma RolesTouched(cfg: Setup, m: Member, e: Event)
    ensures var n' := React(cfg, m, e).0;
            && (!TouchesAcceptor(e) ==>
                  n'.acceptor == m.node.acceptor.(active := if e.SetActive? then e.active else m.node.acceptor.active))
            && (!e.GetPermit? && !e.Crash? ==> n'.learner == m.node.learner)
            && (!MayOpen(e) && !e.GetAcceptAck? ==> n'.acceptNacks == m.node.acceptNacks)
  {
    hide ProposalId.Compare, ProposerState.Observe, LearnerState.ReceiveAccepted, Opening, NodeState.Pulse,
      NodeState.ReceivePromise, NodeState.PollLiveness, NodeState.ReceivePrepareNack, NodeState.ReceiveHeartbeat,
      NodeState.ReceiveAcceptNack;
    if MayOpen(e) {
      assert React(cfg, m, e).0.acceptor == m.node.acceptor && React(cfg, m, e).0.learner == m.node.learner by {
        OpeningRoles(cfg, m, e);
      }
    } else if OnlyTells(e) {
      TellShape(cfg, m, e);
      if e.GetAcceptAck? { RefusalRoles(cfg, m, e); }
    } else if e.GetPromise? {
      PromiseShape(m.node, e.promise, e.now);
    }
  }

  lemma OpeningRoles(cfg: Setup, m: Member, e: Event)
    requires MayOpen(e)
    ensures React(cfg, m, e).0.acceptor == m.node.acceptor && React(cfg, m, e).0.learner == m.node.learner
  {
    hide React;
    OpeningShape(cfg, m, e);
  }

  lemma RefusalRoles(cfg: Setup, m: Member, e: Event)
    requires e.GetAcceptAck?
    ensures React(cfg, m, e).0.acceptor == m.node.acceptor && React(cfg, m, e).0.learner == m.node.learner
  {
    hide ProposalId.Compare, ProposerState.Observe;
  }

  // ----- one event, as the rest of the invariant sees it

  /** m' follows m at u: its parts come from the handler, and the network only gains messages
      that u sent. */
  ghost predicate Follows(cfg: Setup, s: Cluster, s': Cluster, u: Uid, e: Event) {
    && u in s.members && u in s'.members
    && var m, m' := s.members[u], s'.members[u];
    && s'.members == s.members[u := m']
    && m'.node == React(cfg, m, e).0
    && m'.server.uid == m.server.uid && m'.server.quorumSize == m.server.quorumSize
    && m'.server.maxChosen == m.server.maxChosen
    && m'.server.peers == (if e.ChangePeers? then e.peers else m.server.peers)
    && m'.saved == (if e.Save? then m.node.acceptor.triple else m.saved)
    && m'.log == LogAfter(m.log, e)
    && NetGrows(s.net, s'.net) && PostedBy(m.server.uid, React(cfg, m, e).1, s.net, s'.net)
  }

  lemma StepFollows(cfg: Setup, s: Cluster, s': Cluster, u: Uid, e: Event)
    requires Step(cfg, s, s', u, e)
    ensures Follows(cfg, s, s', u, e)
  {
    hide React, ServerState.PostAll, PostedBy, NetGrows, Enabled, C.NewVotes, TriedAfter, LogAfter;
    StepAt(cfg, s, s', u, e);
    var m := s.members[u];
    PostAllFrame(m.server, s.net, React(cfg, m, e).1);
  }

  lemma ServersStayOk(cfg: Setup, s: Cluster, s': Cluster, u: Uid, e: Event)
    requires Follows(cfg, s, s', u, e) && Enabled(cfg, s, u, e)
    requires forall x <- s.members :: ServerOk(cfg, x, s.members[x].server)
    ensures forall x <- s'.members :: ServerOk(cfg, x, s'.members[x].server)
  {
    hide React, PostedBy, NetGrows, LogAfter, GoodPeers;
    assert ServerOk(cfg, u, s.members[u].server);
  }

  // ----- acceptors

  lemma AcceptorsStayOk(cfg: Setup, s: Cluster, s': Cluster, u: Uid, e: Event)
    requires Follows(cfg, s, s', u, e) && CS.Grows(Abs(cfg, s), Abs(cfg, s'))
    requires forall x <- s.members :: Systems.AcceptorOk(cfg, s, x)
    requires Systems.AcceptorOk(cfg, s', u)
    ensures forall x <- s'.members :: Systems.AcceptorOk(cfg, s', x)
  {
    hide React, PostedBy, NetGrows, LogAfter, CS.Grows, C.MayBecome, ProposersOf, TriedOf, TargetsOf, StableOf;
    forall x <- s'.members ensures Systems.AcceptorOk(cfg, s', x) {
      if x != u {
        assert Systems.AcceptorOk(cfg, s, x);
        if cfg.durable {
          MayBecomeStays(Abs(cfg, s), Abs(cfg, s'), x, s.members[x].saved, s.members[x].node.acceptor.triple);
        }
      }
    }
  }

  /** The acceptor that handled a request: replies are pending exactly while memory is ahead. */
  lemma RequestKeepsPending(m: Member, e: Event)
    requires AtAcceptor(e)
    requires e.GetPrepare? ==> e.prepare.from != "" && e.prepare.id != NO_ID
    requires e.GetAccept? ==> e.accept.from != "" && e.accept.id != NO_ID
    requires m.node.acceptor.pendingPromise != "" ==> m.node.acceptor.triple.promised != NO_ID
    requires m.node.acceptor.pendingAccept != "" ==> m.node.acceptor.triple.accepted != NO_ID
    ensures var a, a' := m.node.acceptor, AcceptorPart(m, e).0;
            && (a'.pendingPromise != "" ==> a'.triple.promised != NO_ID)
            && (a'.pendingAccept != "" ==> a'.triple.accepted != NO_ID)
            && a'.active == a.active
            && (a.active && !a'.PersistenceRequired() ==> a' == a.(lastPrepareAt := a'.lastPrepareAt))
  {
    hide ProposalId.Compare;
  }

  lemma SendersAreNamed(cfg: Setup, s: Cluster, u: Uid, e: Event)
    requires SystemInv(cfg, s) && cfg.Valid() && AtAcceptor(e) && Enabled(cfg, s, u, e)
    ensures e.GetPrepare? ==> e.prepare.from != "" && e.prepare.id != NO_ID
    ensures e.GetAccept? ==> e.accept.from != "" && e.accept.id != NO_ID
  {
    hide C.Inv, C.Known, C.Reached, C.Requested, ProposersOf, TriedOf, TargetsOf, StableOf, Systems.AcceptorOk,
      LearnerOk, NacksOk, RefusalOk, ServerOk;
    if e.GetPrepare? {
      PrepareReaches(cfg.core, Abs(cfg, s), e.prepare, u);
      KnownIsNotNone(Abs(cfg, s), e.prepare.id);
    } else {
      AcceptReaches(cfg.core, Abs(cfg, s), e.accept, u);
      KnownIsNotNone(Abs(cfg, s), e.accept.id);
    }
  }

  lemma KnownIsNotNone(a: C.State, b: ProposalId)
    requires C.Known(a, b)
    ensures b != NO_ID
  {
  }

  lemma SystemAt(cfg: Setup, s: Cluster, u: Uid)
    requires cfg.Valid() && SystemInv(cfg, s) && u in s.members
    ensures At(cfg, s, u)
  {
    hide C.Inv, Systems.AcceptorOk, LearnerOk, NacksOk, RefusalOk, ServerOk, SendersNamed;
  }

  lemma RequestKeepsAcceptorOk(cfg: Setup, s: Cluster, s': Cluster, u: Uid, e: Event)
    requires cfg.Valid() && SystemInv(cfg, s) && Step(cfg, s, s', u, e) && AtAcceptor(e)
    requires Follows(cfg, s, s', u, e) && CS.Grows(Abs(cfg, s), Abs(cfg, s'))
    ensures Systems.AcceptorOk(cfg, s', u)
  {
    hide SystemInv, Step, Follows, CS.Grows, C.MayBecome, ProposersOf, TriedOf, TargetsOf, StableOf, AcceptorPart, At;
    StepAt(cfg, s, s', u, e);
    SystemAt(cfg, s, u);
    SendersAreNamed(cfg, s, u, e);
    RequestFacts(cfg, s, u, e);
    MemoryFacts(cfg, s, u);
    AtAcceptorOk(cfg, s, u);
    FollowsAcceptor(cfg, s, s', u, e);
    RequestKeepsPending(s.members[u], e);
    if cfg.durable {
      AcceptorMoves(Abs(cfg, s), u, s.members[u].saved, s.members[u], e);
      MayBecomeStays(Abs(cfg, s), Abs(cfg, s'), u, s.members[u].saved, AcceptorPart(s.members[u], e).0.triple);
    }
  }

  lemma AtAcceptorOk(cfg: Setup, s: Cluster, u: Uid)
    requires At(cfg, s, u)
    ensures Systems.AcceptorOk(cfg, s, u)
  {
    hide C.Inv, Systems.AcceptorOk;
  }

  lemma FollowsAcceptor(cfg: Setup, s: Cluster, s': Cluster, u: Uid, e: Event)
    requires Follows(cfg, s, s', u, e)
    ensures u in s.members && u in s'.members
    ensures s'.members[u].node == React(cfg, s.members[u], e).0
    ensures s'.members[u].saved == if e.Save? then s.members[u].node.acceptor.triple else s.members[u].saved
    ensures AtAcceptor(e) ==> s'.members[u].node.acceptor == AcceptorPart(s.members[u], e).0
  {
    hide PostedBy, NetGrows, LogAfter;
    if AtAcceptor(e) {
      AcceptorReact(cfg, s.members[u], e);
    }
    hide React, AcceptorPart;
  }

  lemma AcceptorReact(cfg: Setup, m: Member, e: Event)
    requires AtAcceptor(e)
    ensures React(cfg, m, e).0.acceptor == AcceptorPart(m, e).0
  {
    hide AcceptorState.ReceivePrepare, AcceptorState.ReceiveAcceptRequest;
  }

  lemma OtherKeepsAcceptorOk(cfg: Setup, s: Cluster, s': Cluster, u: Uid, e: Event)
    requires cfg.Valid() && SystemInv(cfg, s) && Step(cfg, s, s', u, e) && !AtAcceptor(e)
    requires Follows(cfg, s, s', u, e) && CS.Grows(Abs(cfg, s), Abs(cfg, s'))
    ensures Systems.AcceptorOk(cfg, s', u)
  {
    hide SystemInv, Step, Follows, CS.Grows, C.MayBecome, ProposersOf, TriedOf, TargetsOf, StableOf, AcceptorPart, At,
      React;
    StepAt(cfg, s, s', u, e);
    SystemAt(cfg, s, u);
    AtAcceptorOk(cfg, s, u);
    FollowsAcceptor(cfg, s, s', u, e);
    RolesTouched(cfg, s.members[u], e);
    AcceptorOfOther(cfg, s.members[u], e);
    var m := s.members[u];
    MayBecomeSelf(Abs(cfg, s'), u, s'.members[u].saved);
    if cfg.durable {
      MayBecomeStays(Abs(cfg, s), Abs(cfg, s'), u, m.saved, m.node.acceptor.triple);
    }
  }

  /** What flushing, saving and crashing do to the acceptor. */
  lemma AcceptorOfOther(cfg: Setup, m: Member, e: Event)
    ensures var a, a' := m.node.acceptor, React(cfg, m, e).0.acceptor;
            && (e.Save? ==> a' == a)
            && (e.Persisted? ==> a' == a.(pendingPromise := "", pendingAccept := ""))
            && (e.Crash? ==> a' == NewAcceptor(true, e.now).Recover(m.saved))
  {
  }

  // ----- learners

  lemma PermitIsVote(c: C.Config, a: C.State, m: PermitMessage)
    requires C.Inv(c, a) && m in a.permits
    ensures C.Vote(m.from, m.id, m.value) in a.votes
  {
    hide C.WellFormed, C.PromiseOk, C.AcceptOk, C.VoteOk, C.ProposerOk, C.AcceptorOk, C.PrepareOk, C.AcceptMatchesOwner,
      C.OneValue;
    assert C.PermitOk(a, m);
  }

  lemma LearnerStaysOk(cfg: Setup, s: Cluster, s': Cluster, u: Uid, e: Event)
    requires SystemInv(cfg, s) && Step(cfg, s, s', u, e) && Follows(cfg, s, s', u, e)
    requires CS.Grows(Abs(cfg, s), Abs(cfg, s')) && LearnerOk(cfg, s, u)
    ensures LearnerOk(cfg, s', u)
  {
    hide React, PostedBy, NetGrows, C.Inv, CS.Grows, ProposersOf, TriedOf, TargetsOf, StableOf, Systems.AcceptorOk,
      NacksOk, RefusalOk, ServerOk, After, Run, LearnerState.ReceiveAccepted;
    assert s.votes <= s'.votes by { VotesGrow(cfg, s, s'); }
    var m, m' := s.members[u], s'.members[u];
    RolesTouched(cfg, m, e);
    LearnerOfOther(cfg, m, e);
    if e.GetPermit? {
      var p := e.permit;
      var r := Report(p.from, p.id, p.value, e.blank);
      PermitIsVote(cfg.core, Abs(cfg, s), p);
      RunAppend(cfg.core.quorumSize, m.log, r);
      forall x <- m'.log ensures C.Vote(x.from, x.id, x.value) in s'.votes {
        assert x in m.log || x == r;
      }
    }
    assert e.Crash? ==> Run(cfg.core.quorumSize, []) == NEW_LEARNER by { RunNothing(cfg); }
  }

  lemma RunNothing(cfg: Setup)
    ensures Run(cfg.core.quorumSize, []) == NEW_LEARNER
  {
  }

  lemma VotesGrow(cfg: Setup, s: Cluster, s': Cluster)
    requires CS.Grows(Abs(cfg, s), Abs(cfg, s'))
    ensures s.votes <= s'.votes
  {
  }

  lemma LearnerOfOther(cfg: Setup, m: Member, e: Event)
    ensures e.Crash? ==> React(cfg, m, e).0.learner == NEW_LEARNER
    ensures e.GetPermit? ==>
              React(cfg, m, e).0.learner
              == m.node.learner.ReceiveAccepted(cfg.core.quorumSize,
                                                Report(e.permit.from, e.permit.id, e.permit.value, e.blank)).0
  {
    hide LearnerState.ReceiveAccepted;
  }

  lemma LearnersStayOk(cfg: Setup, s: Cluster, s': Cluster, u: Uid, e: Event)
    requires SystemInv(cfg, s) && Step(cfg, s, s', u, e) && Follows(cfg, s, s', u, e)
    requires CS.Grows(Abs(cfg, s), Abs(cfg, s'))
    ensures forall x <- s'.members :: LearnerOk(cfg, s', x)
  {
    hide React, PostedBy, NetGrows, C.Inv, CS.Grows, ProposersOf, TriedOf, TargetsOf, StableOf, Systems.AcceptorOk,
      NacksOk, RefusalOk, ServerOk, After, Run, LogAfter;
    VotesGrow(cfg, s, s');
    forall x <- s'.members ensures LearnerOk(cfg, s', x) {
      assert LearnerOk(cfg, s, x);
      if x == u { LearnerStaysOk(cfg, s, s', u, e); }
    }
  }

  // ----- refusals

  lemma StablePromiseRises(cfg: Setup, s: Cluster, s': Cluster, x: Uid)
    requires CS.Grows(Abs(cfg, s), Abs(cfg, s')) && x in s.members && x in s'.members && !cfg.durable
    ensures s.members[x].node.acceptor.triple.promised.Le(s'.members[x].node.acceptor.triple.promised)
  {
    AbsAt(cfg, s, x);
    AbsAt(cfg, s', x);
    hide ProposersOf, TriedOf, TargetsOf, StableOf;
  }

  lemma KnownStays(cfg: Setup, s: Cluster, s': Cluster, b: ProposalId)
    requires CS.Grows(Abs(cfg, s), Abs(cfg, s')) && C.Known(Abs(cfg, s), b)
    ensures C.Known(Abs(cfg, s'), b)
  {
    hide ProposersOf, TriedOf, TargetsOf, StableOf;
  }

  lemma RefusalStays(cfg: Setup, s: Cluster, s': Cluster, m: AcceptAckMessage)
    requires CS.Grows(Abs(cfg, s), Abs(cfg, s')) && RefusalOk(cfg, s, m) && s.members.Keys <= s'.members.Keys
    ensures RefusalOk(cfg, s', m)
  {
    hide CS.Grows, C.Known, ProposersOf, TriedOf, TargetsOf, StableOf;
    KnownStays(cfg, s, s', m.id);
    if !cfg.durable {
      StablePromiseRises(cfg, s, s', m.from);
      LtLeTransitive(m.id, s.members[m.from].node.acceptor.triple.promised,
                            s'.members[m.from].node.acceptor.triple.promised);
    }
  }

  /** A refusal means that the acceptor has promised more than it was asked for. */
  lemma RefusalMeans(a: AcceptorState, from: Uid, id: ProposalId, value: Value, x: Effect)
    requires x in a.ReceiveAcceptRequest(from, id, value).1 && x.SendAcceptNack?
    ensures x == SendAcceptNack(from, id, a.triple.promised)
    ensures id.Lt(a.triple.promised) && a.ReceiveAcceptRequest(from, id, value).0 == a
  {
    OrderIsStrictAndTotal(id, a.triple.promised);
  }

  lemma NewRefusalIsHandled(cfg: Setup, s: Cluster, s': Cluster, u: Uid, e: Event, m: AcceptAckMessage)
    requires Follows(cfg, s, s', u, e) && s.members[u].server.uid == u
    requires m in s'.net.acceptAcks && m !in s.net.acceptAcks
    ensures e.GetAccept? && m.from == u && m.id == e.accept.id
    ensures m.id.Lt(s.members[u].node.acceptor.triple.promised)
    ensures s'.members[u].node.acceptor == s.members[u].node.acceptor
  {
    hide React, NetGrows, LogAfter, AcceptorState.ReceiveAcceptRequest, ProposalId.Lt;
    var mem := s.members[u];
    var x := SendAcceptNack(m.to, m.id, m.promised);
    assert x in React(cfg, mem, e).1;
    if e.GetAccept? {
      AcceptReacts(cfg, mem, e);
      RefusalMeans(mem.node.acceptor, e.accept.from, e.accept.id, e.accept.value, x);
    } else {
      NoRefusals(cfg, mem, e);
    }
  }

  lemma NewRefusalOk(cfg: Setup, s: Cluster, s': Cluster, u: Uid, e: Event, m: AcceptAckMessage)
    requires cfg.Valid() && SystemInv(cfg, s) && Step(cfg, s, s', u, e) && Follows(cfg, s, s', u, e)
    requires CS.Grows(Abs(cfg, s), Abs(cfg, s'))
    requires m in s'.net.acceptAcks && m !in s.net.acceptAcks
    ensures RefusalOk(cfg, s', m)
  {
    hide SystemInv, Step, CS.Grows, React, PostedBy, NetGrows, LogAfter, C.Known, C.Requested, Abs, At, ProposalId.Lt,
      ServerOk;
    StepAt(cfg, s, s', u, e);
    SystemAt(cfg, s, u);
    AtFacts(cfg, s, u);
    NewRefusalIsHandled(cfg, s, s', u, e, m);
    RequestFacts(cfg, s, u, e);
    KnownStays(cfg, s, s', m.id);
  }

  lemma AcceptReacts(cfg: Setup, m: Member, e: Event)
    requires e.GetAccept?
    ensures React(cfg, m, e).1 == m.node.acceptor.ReceiveAcceptRequest(e.accept.from, e.accept.id, e.accept.value).1
    ensures React(cfg, m, e).0.acceptor
         == m.node.acceptor.ReceiveAcceptRequest(e.accept.from, e.accept.id, e.accept.value).0
  {
    hide AcceptorState.ReceiveAcceptRequest;
  }

  lemma RefusalsStayOk(cfg: Setup, s: Cluster, s': Cluster, u: Uid, e: Event)
    requires cfg.Valid() && SystemInv(cfg, s) && Step(cfg, s, s', u, e) && Follows(cfg, s, s', u, e)
    requires CS.Grows(Abs(cfg, s), Abs(cfg, s'))
    ensures forall m <- s'.net.acceptAcks :: RefusalOk(cfg, s', m)
  {
    hide SystemInv, Step, CS.Grows, React, PostedBy, NetGrows, LogAfter, RefusalOk;
    forall m <- s'.net.acceptAcks ensures RefusalOk(cfg, s', m) {
      if m in s.net.acceptAcks {
        OldRefusal(cfg, s, m);
        RefusalStays(cfg, s, s', m);
      } else {
        NewRefusalOk(cfg, s, s', u, e, m);
      }
    }
  }

  lemma OldRefusal(cfg: Setup, s: Cluster, m: AcceptAckMessage)
    requires SystemInv(cfg, s) && m in s.net.acceptAcks
    ensures RefusalOk(cfg, s, m)
  {
    hide C.Inv, RefusalOk, Systems.AcceptorOk, LearnerOk, NacksOk, ServerOk, SendersNamed;
  }

  lemma SendersStayNamed(cfg: Setup, s: Cluster, s': Cluster, u: Uid, e: Event)
    requires cfg.Valid() && SystemInv(cfg, s) && Follows(cfg, s, s', u, e)
    ensures SendersNamed(s')
  {
    hide C.Inv, RefusalOk, Systems.AcceptorOk, LearnerOk, NacksOk, React, NetGrows, LogAfter;
    assert ServerOk(cfg, u, s.members[u].server);
  }

  // ----- collected refusals

  /** Only an opening event moves the ballot prepared last, and it clears the refusals. */
  lemma TriedMoves(cfg: Setup, s: Cluster, s': Cluster, u: Uid, e: Event)
    requires Step(cfg, s, s', u, e) && u in s.members
    ensures u in s'.members
    ensures s'.members[u].lastTried == s.members[u].lastTried || s'.members[u].node.acceptNacks == {}
  {
    hide React, Enabled, ServerState.PostAll;
    StepAt(cfg, s, s', u, e);
    var m := s.members[u];
    if MayOpen(e) {
      OpeningShape(cfg, m, e);
      if React(cfg, m, e).1 == [] { assert TriedAfter(m.lastTried, []) == m.lastTried; }
    } else {
      NeverPrepares(cfg, m, e);
      TriedUnlessPrepared(m.lastTried, React(cfg, m, e).1);
    }
  }

  lemma NeverPrepares(cfg: Setup, m: Member, e: Event)
    requires !MayOpen(e)
    ensures forall i :: 0 <= i < |React(cfg, m, e).1| ==> !React(cfg, m, e).1[i].SendPrepare?
  {
    if MaySendAccept(e) {
      RoundShape(cfg, m, e);
      hide React;
    } else if OnlyTells(e) {
      TellShape(cfg, m, e);
      hide React;
    } else {
      hide ProposalId.Compare;
    }
  }

  /** A refusal is recorded only for the ballot prepared last. */
  lemma RecordedRefusal(cfg: Setup, s: Cluster, u: Uid, e: Event)
    requires cfg.Valid() && SystemInv(cfg, s) && u in s.members && e.GetAcceptAck? && e.acceptAck in s.net.acceptAcks
    requires React(cfg, s.members[u], e).0.acceptNacks != s.members[u].node.acceptNacks
    ensures e.acceptAck.id == s.members[u].lastTried
    ensures React(cfg, s.members[u], e).0.acceptNacks == s.members[u].node.acceptNacks + {e.acceptAck.from}
  {
    hide SystemInv, C.Inv, ProposersOf, TriedOf, TargetsOf, StableOf, CS.HoldsTo, C.ProposerOk;
    SystemAt(cfg, s, u);
    AtFacts(cfg, s, u);
    AbsAt(cfg, s, u);
    OldRefusal(cfg, s, e.acceptAck);
    var r := s.members[u].node.proposer;
    var ack := e.acceptAck;
    CS.OwnFacts(cfg.core, Abs(cfg, s), u);
    var p := r.Observe(ack.promised);
    OrderIsStrictAndTotal(ack.id, p.ballot);
    NumberRoundTrip(ack.promised, r.ballot);
    OrderIsLexicographic(ack.promised, r.ballot);
    OrderIsStrictAndTotal(ack.promised, r.ballot);
    assert ack.id == p.ballot;
  }

  lemma NacksStayOk(cfg: Setup, s: Cluster, s': Cluster, u: Uid, e: Event)
    requires cfg.Valid() && SystemInv(cfg, s) && Step(cfg, s, s', u, e) && Follows(cfg, s, s', u, e)
    ensures forall x <- s'.members :: NacksOk(s', x)
  {
    hide React, PostedBy, C.Inv, ProposersOf, TriedOf, TargetsOf, StableOf, Systems.AcceptorOk, RefusalOk, ServerOk,
      LearnerOk, After, LogAfter;
    StepAt(cfg, s, s', u, e);
    TriedMoves(cfg, s, s', u, e);
    RolesTouched(cfg, s.members[u], e);
    if MayOpen(e) { OpeningShape(cfg, s.members[u], e); }
    if e.GetAcceptAck? && s'.members[u].node.acceptNacks != s.members[u].node.acceptNacks {
      RecordedRefusal(cfg, s, u, e);
    }
    forall x <- s'.members ensures NacksOk(s', x) {
      assert NacksOk(s, x);
      OwnNacks(s, s', u, x, e);
    }
  }

  lemma OwnNacks(s: Cluster, s': Cluster, u: Uid, x: Uid, e: Event)
    requires u in s.members && u in s'.members && s'.members == s.members[u := s'.members[u]]
    requires x in s'.members && NacksOk(s, x) && NetGrows(s.net, s'.net)
    requires s'.members[u].lastTried == s.members[u].lastTried || s'.members[u].node.acceptNacks == {}
    requires || s'.members[u].node.acceptNacks == {}
             || s'.members[u].node.acceptNacks == s.members[u].node.acceptNacks
             || (e.GetAcceptAck? && e.acceptAck in s.net.acceptAcks && e.acceptAck.id == s.members[u].lastTried
                 && s'.members[u].node.acceptNacks == s.members[u].node.acceptNacks + {e.acceptAck.from})
    ensures NacksOk(s', x)
  {
  }

  // ----- the whole invariant

  lemma StepKeepsInv(cfg: Setup, s: Cluster, s': Cluster, u: Uid, e: Event)
    requires cfg.Valid() && SystemInv(cfg, s) && Step(cfg, s, s', u, e)
    ensures SystemInv(cfg, s') && CS.Grows(Abs(cfg, s), Abs(cfg, s')) && NetGrows(s.net, s'.net)
  {
    hide Step, C.Inv, CS.Grows, Abs, RefusalOk, Systems.AcceptorOk, LearnerOk, NacksOk, ServerOk, SendersNamed, At,
      Enabled, React, PostedBy, NetGrows, LogAfter;
    StepAt(cfg, s, s', u, e);
    SystemAt(cfg, s, u);
    EventIsCoreStep(cfg, s, s', u, e);
    StepFollows(cfg, s, s', u, e);
    ServersStayOk(cfg, s, s', u, e);
    if AtAcceptor(e) {
      RequestKeepsAcceptorOk(cfg, s, s', u, e);
    } else {
      OtherKeepsAcceptorOk(cfg, s, s', u, e);
    }
    AcceptorsStayOk(cfg, s, s', u, e);
    LearnersStayOk(cfg, s, s', u, e);
    NacksStayOk(cfg, s, s', u, e);
    RefusalsStayOk(cfg, s, s', u, e);
    SendersStayNamed(cfg, s, s', u, e);
  }
}
