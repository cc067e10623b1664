/** What acceptors answer, to whom and when: every request that is not taken up is answered, and what
    refusals say is true. */
module Replies {
  import opened ProposalIds
  import opened Messages
  import opened Acceptors
  import opened Proposers
  import opened Nodes
  import opened Servers
  import opened Systems
  import opened SystemSteps
  import opened SystemInvariant
  import opened Theorems
  import opened Ballots
  import opened Leadership
  import C = Consensus
  import CS = ConsensusSteps

  // ----- prepare requests

  /** The acceptor stands at a ballot above id. */
  predicate PromisedAbove(t: Triple, id: ProposalId) {
    t.promised.IsValid() && id.Lt(t.promised)
  }

  /** A prepare request is refused, naming the ballot promised, if and only if the acceptor is active
      and promised more; it is answered with a promise at once if and only if the acceptor is active
      and promised just this; and the promise is raised, its reply held back, if and only if nothing as
      high was promised and no other promise is held back. */
  lemma PrepareAnswers(a: AcceptorState, from: Uid, id: ProposalId, now: nat)
    ensures var (a', replies) := a.ReceivePrepare(from, id, now);
            var t := a.triple;
            && (replies == [SendPrepareNack(from, id, t.promised)] <==> a.active && PromisedAbove(t, id))
            && (replies == [SendPromise(from, id, t.accepted, t.value)]
                <==> a.active && t.promised.IsValid() && id == t.promised)
            && (replies == [] || replies == [SendPrepareNack(from, id, t.promised)]
                || replies == [SendPromise(from, id, t.accepted, t.value)])
            && (replies != [] ==> a'.triple == t)
            && (a'.triple != t || (a'.pendingPromise != a.pendingPromise)
                ==> a'.triple == t.(promised := id) && replies == []
                    && a'.pendingPromise == if a.active then from else "")
            && (a.pendingPromise == "" && (!t.promised.IsValid() || t.promised.Lt(id)) ==> a'.triple.promised == id)
            && (a.pendingPromise != "" || (t.promised.IsValid() && id.Le(t.promised)) ==> a'.triple == t)
            && a'.lastPrepareAt == now && a'.pendingAccept == a.pendingAccept && a'.active == a.active
  {
    OrderIsStrictAndTotal(id, a.triple.promised);
    hide ProposalId.Compare;
  }

  // ----- accept requests

  /** The request is for the vote the acceptor cast last. */
  predicate IsOwnVote(t: Triple, id: ProposalId, value: Value) {
    t.accepted.IsValid() && id == t.accepted && value == t.value
  }

  /** An accept request is refused, naming the ballot promised, if and only if the acceptor is active,
      promised more, and did not vote just so; it is permitted at once if and only if the acceptor is
      active and did vote just so; and a vote is cast, its reply held back, if and only if nothing
      higher was promised and no other vote is held back. */
  lemma AcceptAnswers(a: AcceptorState, from: Uid, id: ProposalId, value: Value)
    ensures var (a', replies) := a.ReceiveAcceptRequest(from, id, value);
            var t := a.triple;
            && (replies == [SendAcceptNack(from, id, t.promised)]
                <==> a.active && PromisedAbove(t, id) && !IsOwnVote(t, id, value))
            && (replies == [SendPermit(from, id, value)] <==> a.active && IsOwnVote(t, id, value))
            && (replies == [] || replies == [SendAcceptNack(from, id, t.promised)]
                || replies == [SendPermit(from, id, value)])
            && (replies != [] ==> a' == a)
            && (a' != a ==> a' == a.(triple := Triple(id, id, value), pendingAccept := if a.active then from else "")
                            && replies == [])
            && (a.pendingAccept == "" && !IsOwnVote(t, id, value) && !PromisedAbove(t, id)
                ==> a'.triple == Triple(id, id, value))
            && (a.pendingAccept != "" || IsOwnVote(t, id, value) || PromisedAbove(t, id) ==> a' == a)
  {
    OrderIsStrictAndTotal(id, a.triple.promised);
    OrderIsStrictAndTotal(id, a.triple.accepted);
    hide ProposalId.Compare;
  }

  // ----- held replies

  /** persisted() says just what the acceptor would answer at once to the requests it held back, the
      promise before the vote; nothing is held back any more, so a second call says nothing. */
  lemma FlushIsImmediateAnswer(a: AcceptorState, now: nat)
    requires a.active
    requires a.pendingPromise != "" ==> a.triple.promised.IsValid()
    requires a.pendingAccept != "" ==> a.triple.accepted.IsValid()
    ensures var t := a.triple;
            var (a', replies) := a.Persisted();
            && replies == (if a.pendingPromise == "" then []
                           else a.ReceivePrepare(a.pendingPromise, t.promised, now).1)
                          + (if a.pendingAccept == "" then []
                             else a.ReceiveAcceptRequest(a.pendingAccept, t.accepted, t.value).1)
            && !a'.PersistenceRequired() && a'.triple == t && a'.active
            && a'.Persisted().0 == a' && a'.Persisted().1 == []
  {
    hide ProposalId.Compare;
    var t := a.triple;
    OrderIsStrictAndTotal(t.promised, t.promised);
    OrderIsStrictAndTotal(t.accepted, t.accepted);
    if a.pendingPromise != "" {
      assert a.ReceivePrepare(a.pendingPromise, t.promised, now).1
          == [SendPromise(a.pendingPromise, t.promised, t.accepted, t.value)];
    }
    if a.pendingAccept != "" {
      assert a.ReceiveAcceptRequest(a.pendingAccept, t.accepted, t.value).1
          == [SendPermit(a.pendingAccept, t.accepted, t.value)];
    }
    assert a.Persisted().0 == a.(pendingPromise := "", pendingAccept := "");
  }

  /** An inactive acceptor forgets what it held back. */
  lemma InactiveFlushIsSilent(a: AcceptorState)
    requires !a.active
    ensures a.Persisted().1 == [] && !a.Persisted().0.PersistenceRequired() && a.Persisted().0.triple == a.triple
  {
  }

  /** Recovering what was saved brings back the triple and touches nothing else, so what was held back
      is still flushed, from the recovered triple. */
  lemma RecoverRoundTrip(a: AcceptorState, saved: Triple)
    ensures a.Recover(saved).triple == saved && a.Recover(a.triple) == a
    ensures a.Recover(saved).Recover(a.triple) == a
    ensures a.Recover(saved).PersistenceRequired() <==> a.PersistenceRequired()
  {
  }

  // ----- nodes switched off

  predicate OnTheWire(x: Effect) {
    x.SendPrepare? || x.SendPromise? || x.SendAccept? || x.SendPermit? || x.SendPrepareNack? || x.SendAcceptNack?
  }

  lemma SilentPromise(n: NodeState, p: PromiseMessage, now: nat)
    requires !n.proposer.active
    ensures forall x <- n.ReceivePromise(p.from, p.id, p.prevId, p.prevValue, now).1 :: !OnTheWire(x)
  {
    hide ProposalId.Compare, ProposerState.Observe, NodeState.Pulse;
    ObserveRaises(n.proposer, p.id);
    var r' := n.proposer.ReceivePromise(p.from, p.id, p.prevId, p.prevValue).0;
    SilentPulse(n.(proposer := r', leaderUid := r'.uid, leaderId := r'.ballot, acquiring := false), now);
  }

  lemma SilentPulse(n: NodeState, now: nat)
    ensures forall x <- n.Pulse(now).1 :: !OnTheWire(x)
  {
    hide ProposalId.Compare, ProposerState.Observe;
  }

  /** Both roles are switched together. A node that is switched off says nothing of either phase,
      whatever reaches it, until it opens a ballot; switching it on again undoes switching it off. */
  lemma InactiveNodeIsSilent(cfg: Setup, m: Member, e: Event)
    requires !MayOpen(e) && !e.SetActive? && !e.Crash?
    ensures var off := m.(node := m.node.SetActive(false));
            forall x <- React(cfg, off, e).1 :: !OnTheWire(x)
    ensures m.node.SetActive(true).proposer.active && m.node.SetActive(true).acceptor.active
    ensures m.node.proposer.active && m.node.acceptor.active ==> m.node.SetActive(false).SetActive(true) == m.node
  {
    hide ProposalId.Compare, ProposerState.Observe, NodeState.Pulse, NodeState.ReceivePromise, Systems.Hear;
    var off := m.(node := m.node.SetActive(false));
    match e
    case GetPromise(p, now) => SilentPromise(off.node, p, now);
    case Pulse(now) => SilentPulse(off.node, now);
    case GetPermit(p, blank) => HearAnnouncesNothing(cfg, off.node, p, blank);
    case _ =>
  }

  // ----- on the network

  lemma ReplyPosted(cfg: Setup, s: Cluster, u: Uid, e: Event)
    requires u in s.members && AtAcceptor(e) && AcceptorPart(s.members[u], e).1 != []
    ensures After(cfg, s, u, e).net == s.members[u].server.Post(s.net, AcceptorPart(s.members[u], e).1[0]).1
  {
    hide AcceptorPart, ServerState.Post, After;
    AcceptorEffect(cfg, s, u, e);
  }

  /** STALE REQUESTS ARE ANSWERED. An accept request that reaches an active acceptor which promised more
      and did not vote just so puts a refusal on the network that names the ballot promised, if the
      server knows the sender. */
  lemma StaleAcceptIsRefused(cfg: Setup, s: Cluster, s': Cluster, u: Uid, p: AcceptMessage)
    requires u in s.members && s.members[u].server.uid == u && Step(cfg, s, s', u, Event.GetAccept(p))
    requires var a := s.members[u].node.acceptor;
             a.active && PromisedAbove(a.triple, p.id) && !IsOwnVote(a.triple, p.id, p.value)
    requires p.from in s.members[u].server.peers
    ensures AcceptAckMessage(u, p.from, p.id, s.members[u].node.acceptor.triple.promised) in s'.net.acceptAcks
  {
    hide AcceptorState.ReceiveAcceptRequest, After, Enabled, PromisedAbove, IsOwnVote;
    StepAt(cfg, s, s', u, Event.GetAccept(p));
    AcceptAnswers(s.members[u].node.acceptor, p.from, p.id, p.value);
    ReplyPosted(cfg, s, u, Event.GetAccept(p));
  }

  /** The same for a stale prepare request. */
  lemma StalePrepareIsRefused(cfg: Setup, s: Cluster, s': Cluster, u: Uid, p: PrepareMessage, now: nat)
    requires u in s.members && s.members[u].server.uid == u && Step(cfg, s, s', u, Event.GetPrepare(p, now))
    requires s.members[u].node.acceptor.active && PromisedAbove(s.members[u].node.acceptor.triple, p.id)
    requires p.from in s.members[u].server.peers
    ensures PrepareAckMessage(u, p.from, p.id, s.members[u].node.acceptor.triple.promised) in s'.net.prepareAcks
  {
    hide AcceptorState.ReceivePrepare, After, Enabled, PromisedAbove;
    StepAt(cfg, s, s', u, Event.GetPrepare(p, now));
    PrepareAnswers(s.members[u].node.acceptor, p.from, p.id, now);
    ReplyPosted(cfg, s, u, Event.GetPrepare(p, now));
  }

  // ----- what prepare refusals say is true

  /** The message names a ballot its sender had promised at this moment, above the one refused. */
  predicate TrueAt(s: Cluster, m: PrepareAckMessage) {
    && m.from in s.members
    && m.promised == s.members[m.from].node.acceptor.triple.promised
    && m.id.Lt(m.promised)
  }

  lemma PrepareReplies(a: AcceptorState, from: Uid, id: ProposalId, now: nat)
    ensures forall x <- a.ReceivePrepare(from, id, now).1 ::
              x.SendPrepareNack? ==> id.Lt(a.triple.promised) && x == SendPrepareNack(from, id, a.triple.promised)
  {
    OrderIsStrictAndTotal(id, a.triple.promised);
    hide ProposalId.Compare;
  }

  lemma NewPrepareRefusal(cfg: Setup, s: Cluster, s': Cluster, u: Uid, e: Event, m: PrepareAckMessage)
    requires cfg.Valid() && SystemInv(cfg, s) && Step(cfg, s, s', u, e)
    requires m in s'.net.prepareAcks && m !in s.net.prepareAcks
    ensures TrueAt(s, m) && TrueAt(s', m) && e.GetPrepare? && m.from == u && m.id == e.prepare.id
    ensures u in s.members && (cfg.durable ==> s.members[u].node.acceptor.active)
  {
    hide SystemInv, React, NetGrows, LogAfter, Step, At, After, AcceptorState.ReceivePrepare, ProposalId.Compare,
      C.MayBecome, Abs;
    StepAt(cfg, s, s', u, e);
    StepFollows(cfg, s, s', u, e);
    SystemAt(cfg, s, u);
    AtFacts(cfg, s, u);
    AtAcceptorOk(cfg, s, u);
    NoRefusals(cfg, s.members[u], e);
    assert SendPrepareNack(m.to, m.id, m.promised) in React(cfg, s.members[u], e).1;
    PrepareReacts(cfg, s.members[u], e);
    PrepareReplies(s.members[u].node.acceptor, e.prepare.from, e.prepare.id, e.now);
    PrepareAnswers(s.members[u].node.acceptor, e.prepare.from, e.prepare.id, e.now);
  }

  lemma PrepareReacts(cfg: Setup, m: Member, e: Event)
    requires e.GetPrepare?
    ensures React(cfg, m, e).1 == m.node.acceptor.ReceivePrepare(e.prepare.from, e.prepare.id, e.now).1
    ensures React(cfg, m, e).0.acceptor == m.node.acceptor.ReceivePrepare(e.prepare.from, e.prepare.id, e.now).0
  {
    hide AcceptorState.ReceivePrepare;
  }

  /** REFUSALS ARE TRUE. Every prepare refusal on the network names a prepared ballot above the refused
      one, which its sender had promised at an earlier moment of the run. */
  lemma {:induction false} PrepareRefusalsAreTrue(cfg: Setup, b: seq<Cluster>, i: nat, m: PrepareAckMessage)
    returns (k: nat)
    requires cfg.Valid() && IsRun(cfg, b) && i < |b| && m in b[i].net.prepareAcks
    ensures k <= i && TrueAt(b[k], m) && m in b[k].net.prepareAcks
    ensures C.Known(Abs(cfg, b[k]), m.promised) && m.id.Lt(m.promised)
  {
    hide SystemInv, Step, Init, C.Known, Abs;
    if i == 0 {
      assert false by { NothingSentAtFirst(cfg, b); }
    } else if m in b[i - 1].net.prepareAcks {
      k := PrepareRefusalsAreTrue(cfg, b, i - 1, m);
    } else {
      assert Next(cfg, b[i - 1], b[i - 1 + 1]);
      var u, e :| Step(cfg, b[i - 1], b[i], u, e);
      InvariantAlways(cfg, b, i - 1);
      InvariantAlways(cfg, b, i);
      NewPrepareRefusal(cfg, b[i - 1], b[i], u, e, m);
      PromisedIsKnown(cfg, b[i], m.from);
      NoIdIsBottom(m.id);
      k := i;
    }
  }

  lemma NothingSentAtFirst(cfg: Setup, b: seq<Cluster>)
    requires IsRun(cfg, b)
    ensures b[0].net == EMPTY_NETWORK
  {
  }

  /** What an acceptor has promised, in memory too, is a ballot its owner prepared. */
  lemma PromisedIsKnown(cfg: Setup, s: Cluster, u: Uid)
    requires cfg.Valid() && SystemInv(cfg, s) && u in s.members
    ensures var t := s.members[u].node.acceptor.triple;
            t.promised == NO_ID || C.Known(Abs(cfg, s), t.promised)
  {
    hide SystemInv, C.Inv, C.Known, C.Reached, ProposersOf, TriedOf, TargetsOf, StableOf, At;
    SystemAt(cfg, s, u);
    AtFacts(cfg, s, u);
    AtAcceptorOk(cfg, s, u);
    AbsAt(cfg, s, u);
    StablePromised(cfg.core, Abs(cfg, s), u);
  }

  /** Without crashes the refuser stands by it. */
  lemma PrepareRefusalsStand(cfg: Setup, b: seq<Cluster>, i: nat, m: PrepareAckMessage)
    requires cfg.Valid() && !cfg.durable && IsRun(cfg, b) && i < |b| && m in b[i].net.prepareAcks
    ensures m.from in b[i].members && m.promised.Le(b[i].members[m.from].node.acceptor.triple.promised)
  {
    hide SystemInv, IsRun, C.Inv, CS.Grows, ProposalId.Compare, C.Known, ProposersOf, TriedOf, TargetsOf, StableOf;
    var k := PrepareRefusalsAreTrue(cfg, b, i, m);
    InvariantAlways(cfg, b, k);
    InvariantAlways(cfg, b, i);
    InvIsCore(cfg, b[k]);
    InvIsCore(cfg, b[i]);
    HistoryGrows(cfg, b, k, i);
    StablePromiseRises(cfg, b[k], b[i], m.from);
  }

  /** RETRIES EXCEED WHAT REFUSERS PROMISED. A ballot that a node opens on a prepare refusal is above
      the ballot the refuser had promised when it refused. */
  lemma RetryExceedsPromise(
    cfg: Setup, b: seq<Cluster>, i: nat, u: Uid, ack: PrepareAckMessage, m: PrepareMessage) returns (k: nat)
    requires cfg.Valid() && IsRun(cfg, b) && i + 1 < |b|
    requires Step(cfg, b[i], b[i + 1], u, Event.GetPrepareAck(ack))
    requires m in b[i + 1].net.prepares && m !in b[i].net.prepares
    ensures k <= i && ack.from in b[k].members
    ensures b[k].members[ack.from].node.acceptor.triple.promised.Lt(m.id) && ack.id.Lt(m.id)
  {
    hide SystemInv, IsRun, After, React, ProposalId.Compare, C.Known, Abs;
    InvariantAlways(cfg, b, i);
    StepAt(cfg, b[i], b[i + 1], u, Event.GetPrepareAck(ack));
    k := PrepareRefusalsAreTrue(cfg, b, i, ack);
    RetryExceedsRefusal(cfg, b[i], b[i + 1], u, Event.GetPrepareAck(ack), m);
    LtTransitive(ack.id, ack.promised, m.id);
  }

  /** A refusal that reaches a node after the lead makes it ask for the next ballot, above the promise
      named and all it held; one that reaches another node only raises its ballot. */
  lemma PrepareNackRetriesIff(n: NodeState, from: Uid, id: ProposalId, promised: ProposalId)
    requires n.proposer.ballot.number < MAX_NUMBER && promised.number < MAX_NUMBER
    ensures var (n', effects) := n.ReceivePrepareNack(from, id, promised);
            && (effects != [] <==> n.acquiring)
            && n.proposer.ballot.number <= n'.proposer.ballot.number
            && promised.number <= n'.proposer.ballot.number
            && n'.acquiring == n.acquiring && n'.leaderId == n.leaderId && n'.leaderUid == n.leaderUid
            && (n.acquiring ==>
                  && effects == [SendPrepare(n'.proposer.ballot)] && n'.acceptNacks == {}
                  && n.proposer.ballot.Lt(n'.proposer.ballot) && promised.Lt(n'.proposer.ballot)
                  && !n'.proposer.leader && n'.proposer.promises == {} && n'.proposer.active)
            && (!n.acquiring ==> n' == n.(proposer := n.proposer.(ballot := n'.proposer.ballot)))
  {
    ObserveRaises(n.proposer, promised);
    IncrementExceedsIff(n.proposer.Observe(promised).ballot);
    var next := ProposalId(n.proposer.Observe(promised).ballot.number + 1, n.proposer.ballot.uid);
    OrderIsLexicographic(n.proposer.ballot, next);
    OrderIsLexicographic(promised, next);
    hide ProposerState.Observe, ProposalId.Compare, ProposalId.IncrementNumber;
  }
}
