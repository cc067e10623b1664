/** Ballots over whole runs: they never fall, never repeat, and beat everything observed. */
module Ballots {
  import opened ProposalIds
  import opened Messages
  import opened Proposers
  import opened Nodes
  import opened Systems
  import opened SystemSteps
  import opened SystemInvariant
  import opened Theorems
  import C = Consensus
  import CS = ConsensusSteps

  /** The IDs an event makes the node's proposer observe. */
  function Observed(m: Member, e: Event): set<ProposalId> {
    match e
    case GetPromise(p, _) => {p.id}
    case GetPrepareAck(p) => {p.promised}
    case GetAcceptAck(p) => {p.promised} + if StepsDown(m, p) then {p.id} else {}
    case GetHeartbeat(p, _) => if m.node.LosesTo(p.leaderUid, p.leaderId) then {p.leaderId} else {}
    case _ => {}
  }

  /** The refusal makes the leader give up, and it then observes the refused ballot too. */
  predicate StepsDown(m: Member, p: AcceptAckMessage) {
    m.node.proposer.leader && !m.node.ReceiveAcceptNack(p.from, p.id, p.promised).0.proposer.leader
  }

  /** Observing raises the number to at least that of the ID, and never lowers it. */
  lemma ObserveRaises(r: ProposerState, id: ProposalId)
    ensures r.Observe(id) == r.(ballot := r.Observe(id).ballot) && r.Observe(id).ballot.uid == r.ballot.uid
    ensures r.ballot.number <= r.Observe(id).ballot.number && id.number <= r.Observe(id).ballot.number
    ensures r.Observe(id).ballot.number == r.ballot.number || r.Observe(id).ballot.number == id.number
  {
    NumberRoundTrip(id, r.ballot);
    OrderIsLexicographic(r.ballot, id);
    OrderIsStrictAndTotal(id, r.ballot);
  }

  lemma PromiseObserves(r: ProposerState, p: PromiseMessage)
    ensures r.ReceivePromise(p.from, p.id, p.prevId, p.prevValue).0.ballot == r.Observe(p.id).ballot
  {
    hide ProposalId.Compare, ProposalId.SetNumber;
  }

  lemma ToldRaises(r: ProposerState, r': ProposerState)
    requires Told(r, r')
    ensures r'.ballot.uid == r.ballot.uid && r.ballot.number <= r'.ballot.number
  {
    hide ProposerState.Observe;
    var leader: bool, active: bool, id: ProposalId :|
      (leader ==> r.leader) && r' == r.(leader := leader, active := active).Observe(id);
    ObserveRaises(r.(leader := leader, active := active), id);
  }

  lemma OpeningRaises(m: Member, e: Event, n': NodeState, effects: seq<Effect>)
    requires MayOpen(e) && Opening(m.node, n', effects, BeforeOpening(m, e))
    requires BeforeOpening(m, e).ballot.number < MAX_NUMBER
    ensures n'.proposer.ballot.uid == m.node.proposer.ballot.uid
    ensures m.node.proposer.ballot.number <= n'.proposer.ballot.number
    ensures forall x <- Observed(m, e) :: x.number <= n'.proposer.ballot.number
  {
    hide ProposerState.Observe;
    if e.GetPrepareAck? { ObserveRaises(m.node.proposer, e.prepareAck.promised); }
    CS.PreparedState(BeforeOpening(m, e));
  }

  /** An event never lowers the ballot of the node it happens to, and takes it to every ID observed. */
  lemma EventRaises(cfg: Setup, s: Cluster, u: Uid, e: Event)
    requires Enabled(cfg, s, u, e)
    ensures var m := s.members[u];
            var r, r' := m.node.proposer, React(cfg, m, e).0.proposer;
            && r'.ballot.uid == r.ballot.uid && r.ballot.number <= r'.ballot.number
            && forall x <- Observed(m, e) :: x.number <= r'.ballot.number
  {
    var m := s.members[u];
    if MayOpen(e) {
      OpeningShape(cfg, m, e);
      hide React, Opening, BeforeOpening;
      OpeningRaises(m, e, React(cfg, m, e).0, React(cfg, m, e).1) by { RoomToOpen(cfg, s, u, e); }
    } else if MaySendAccept(e) {
      RoundShape(cfg, m, e);
      hide React, ProposerState.ReceivePromise, ProposerState.Observe;
      if e.GetPromise? {
        PromiseObserves(m.node.proposer, e.promise);
        ObserveRaises(m.node.proposer, e.promise.id);
      }
    } else if OnlyTells(e) {
      TellRaises(cfg, m, e);
    } else {
      hide ProposalId.Compare;
    }
  }

  lemma RoomToOpen(cfg: Setup, s: Cluster, u: Uid, e: Event)
    requires Enabled(cfg, s, u, e) && MayOpen(e)
    ensures BeforeOpening(s.members[u], e).ballot.number < MAX_NUMBER
  {
  }

  lemma TellRaises(cfg: Setup, m: Member, e: Event)
    requires OnlyTells(e)
    ensures var r, r' := m.node.proposer, React(cfg, m, e).0.proposer;
            && r'.ballot.uid == r.ballot.uid && r.ballot.number <= r'.ballot.number
            && forall x <- Observed(m, e) :: x.number <= r'.ballot.number
  {
    hide ProposerState.Observe, ProposalId.Compare, Told;
    if e.GetAcceptAck? {
      RefusalTells(cfg, m, e);
      ToldRaises(m.node.proposer, AfterRefusal(m, e));
      ToldRaises(AfterRefusal(m, e), React(cfg, m, e).0.proposer);
      ObserveRaises(m.node.proposer, e.acceptAck.promised);
      if StepsDown(m, e.acceptAck) { RefusedIsObserved(m, e.acceptAck); }
    } else {
      TellShape(cfg, m, e);
      ToldRaises(m.node.proposer, React(cfg, m, e).0.proposer);
      if e.GetHeartbeat? {
        ObserveRaises(m.node.proposer.(leader := false), e.heartbeat.leaderId);
      }
    }
  }

  lemma RefusedIsObserved(m: Member, p: AcceptAckMessage)
    requires StepsDown(m, p)
    ensures p.id.number <= m.node.ReceiveAcceptNack(p.from, p.id, p.promised).0.proposer.ballot.number
  {
    hide ProposerState.Observe, ProposalId.Compare;
    ObserveRaises(m.node.proposer, p.promised);
    ObserveRaises(m.node.proposer.Observe(p.promised).(leader := false), p.id);
  }

  lemma StepRaises(cfg: Setup, s: Cluster, s': Cluster, u: Uid, e: Event, x: Uid)
    requires Step(cfg, s, s', u, e) && x in s.members
    ensures x in s'.members
    ensures s.members[x].node.proposer.ballot.number <= s'.members[x].node.proposer.ballot.number
    ensures x == u ==> s'.members[x].node == React(cfg, s.members[x], e).0
  {
    hide React, Enabled, PostedBy, NetGrows, LogAfter, After;
    StepAt(cfg, s, s', u, e);
    StepFollows(cfg, s, s', u, e);
    EventRaises(cfg, s, u, e);
  }

  /** A proposer's ballot number never falls, over a whole run. */
  lemma {:induction false} BallotsNeverFall(cfg: Setup, b: seq<Cluster>, i: nat, j: nat, u: Uid)
    requires IsRun(cfg, b) && i <= j < |b| && u in b[i].members
    ensures u in b[j].members
    ensures b[i].members[u].node.proposer.ballot.number <= b[j].members[u].node.proposer.ballot.number
    decreases j - i
  {
    hide Step, Init;
    if i < j {
      BallotsNeverFall(cfg, b, i, j - 1, u);
      assert Next(cfg, b[j - 1], b[j - 1 + 1]);
      var w, e :| Step(cfg, b[j - 1], b[j], w, e);
      StepRaises(cfg, b[j - 1], b[j], w, e, u);
    }
  }

  lemma NewPrepareWasSent(cfg: Setup, s: Cluster, s': Cluster, u: Uid, e: Event, m: PrepareMessage)
    requires cfg.Valid() && SystemInv(cfg, s) && Step(cfg, s, s', u, e)
    requires m in s'.net.prepares && m !in s.net.prepares
    ensures Enabled(cfg, s, u, e) && u in s.members && m.from == u
    ensures SendPrepare(m.id) in React(cfg, s.members[u], e).1
  {
    hide SystemInv, React, NetGrows, LogAfter, Step, At, Enabled, After;
    StepAt(cfg, s, s', u, e);
    StepFollows(cfg, s, s', u, e);
    SystemAt(cfg, s, u);
    AtFacts(cfg, s, u);
  }

  lemma SentPrepareIsNext(cfg: Setup, m: Member, e: Event, id: ProposalId)
    requires SendPrepare(id) in React(cfg, m, e).1
    ensures MayOpen(e) && id == BeforeOpening(m, e).Prepare(true).0.ballot
  {
    hide React, BeforeOpening, ProposalId.IncrementNumber;
    if MayOpen(e) {
      OpeningShape(cfg, m, e);
    } else {
      NeverPrepares(cfg, m, e);
    }
  }

  predicate IsNextBallot(m: Member, e: Event, id: ProposalId) {
    id.number == BeforeOpening(m, e).ballot.number + 1 && id.uid == m.node.proposer.ballot.uid
  }

  /** Where a new prepare request comes from: its ballot is the next one after the proposer's, as
      it was once the event's own ID had been observed. */
  lemma NewPrepareIsNextBallot(cfg: Setup, s: Cluster, s': Cluster, u: Uid, e: Event, m: PrepareMessage)
    requires cfg.Valid() && SystemInv(cfg, s) && Step(cfg, s, s', u, e)
    requires m in s'.net.prepares && m !in s.net.prepares
    ensures MayOpen(e) && u in s.members && m.from == u
    ensures IsNextBallot(s.members[u], e, m.id)
  {
    hide SystemInv, React, Step, Enabled, BeforeOpening, ProposerState.Observe, ProposerState.Prepare;
    NewPrepareWasSent(cfg, s, s', u, e, m);
    var mem := s.members[u];
    SentPrepareIsNext(cfg, mem, e, m.id);
    RoomToOpen(cfg, s, u, e);
    CS.PreparedState(BeforeOpening(mem, e));
    OpeningKeepsUid(mem, e);
  }

  lemma OpeningKeepsUid(m: Member, e: Event)
    requires MayOpen(e)
    ensures BeforeOpening(m, e).ballot.uid == m.node.proposer.ballot.uid
  {
    hide ProposerState.Observe;
    ObserveRaises(m.node.proposer, if e.GetPrepareAck? then e.prepareAck.promised else m.node.proposer.ballot);
  }

  /** UNIQUE BALLOTS. A new prepare request is for a ballot of its sender that was never prepared
      before by anyone, above all ballots its sender prepared and above the ballot it held. */
  lemma PreparedBallotsNeverRepeat(cfg: Setup, b: seq<Cluster>, i: nat, u: Uid, e: Event, m: PrepareMessage)
    requires cfg.Valid() && IsRun(cfg, b) && i + 1 < |b| && Step(cfg, b[i], b[i + 1], u, e)
    requires m in b[i + 1].net.prepares && m !in b[i].net.prepares
    ensures m.from == u == m.id.uid && u in b[i].members
    ensures b[i].members[u].node.proposer.ballot.Lt(m.id)
    ensures forall x <- b[i].net.prepares :: x.id != m.id && (x.id.uid == u ==> x.id.Lt(m.id))
  {
    hide SystemInv, Step, C.Inv, IsRun, ProposersOf, TriedOf, TargetsOf, StableOf, ProposerState.Observe, CS.HoldsTo,
      C.ProposerOk;
    InvariantAlways(cfg, b, i);
    NewPrepareIsNextBallot(cfg, b[i], b[i + 1], u, e, m);
    InvIsCore(cfg, b[i]);
    AbsAt(cfg, b[i], u);
    var a := Abs(cfg, b[i]);
    var r := b[i].members[u].node.proposer;
    CS.OwnFacts(cfg.core, a, u);
    ObserveRaises(r, if e.GetPrepareAck? then e.prepareAck.promised else r.ballot);
    OrderIsLexicographic(r.ballot, m.id);
    forall x <- b[i].net.prepares ensures x.id != m.id && (x.id.uid == u ==> x.id.Lt(m.id)) {
      PreparedIsKnown(cfg.core, a, x);
      OrderIsLexicographic(x.id, m.id);
    }
  }

  lemma PreparedIsKnown(c: C.Config, a: C.State, m: PrepareMessage)
    requires C.Inv(c, a) && m in a.prepares
    ensures C.Known(a, m.id)
  {
    hide C.WellFormed, C.PromiseOk, C.AcceptOk, C.VoteOk, C.PermitOk, C.ProposerOk, C.AcceptorOk,
      C.AcceptMatchesOwner, C.OneValue;
    assert C.PrepareOk(a, m);
  }

  /** A new ballot exceeds every ID its owner ever observed. */
  lemma NewBallotExceedsObserved(
    cfg: Setup, b: seq<Cluster>, k: nat, d: Event, x: ProposalId, i: nat, u: Uid, e: Event, m: PrepareMessage)
    requires cfg.Valid() && IsRun(cfg, b) && k < i && i + 1 < |b|
    requires Step(cfg, b[k], b[k + 1], u, d) && x in Observed(b[k].members[u], d)
    requires Step(cfg, b[i], b[i + 1], u, e) && m in b[i + 1].net.prepares && m !in b[i].net.prepares
    ensures x.Lt(m.id)
  {
    hide SystemInv, IsRun, Observed, ProposerState.Observe, React, Enabled, After;
    StepAt(cfg, b[k], b[k + 1], u, d);
    EventRaises(cfg, b[k], u, d);
    StepRaises(cfg, b[k], b[k + 1], u, d, u);
    BallotsNeverFall(cfg, b, k + 1, i, u);
    InvariantAlways(cfg, b, i);
    NewPrepareIsNextBallot(cfg, b[i], b[i + 1], u, e, m);
    var r := b[i].members[u].node.proposer;
    ObserveRaises(r, if e.GetPrepareAck? then e.prepareAck.promised else r.ballot);
    OrderIsLexicographic(x, m.id);
  }

  /** A ballot opened on a prepare refusal exceeds the promise that caused the refusal. */
  lemma RetryExceedsRefusal(cfg: Setup, s: Cluster, s': Cluster, u: Uid, e: Event, m: PrepareMessage)
    requires cfg.Valid() && SystemInv(cfg, s) && Step(cfg, s, s', u, e) && e.GetPrepareAck?
    requires m in s'.net.prepares && m !in s.net.prepares
    ensures e.prepareAck.promised.Lt(m.id)
  {
    hide SystemInv, Step, ProposerState.Observe;
    NewPrepareIsNextBallot(cfg, s, s', u, e, m);
    ObserveRaises(s.members[u].node.proposer, e.prepareAck.promised);
    OrderIsLexicographic(e.prepareAck.promised, m.id);
  }
}
