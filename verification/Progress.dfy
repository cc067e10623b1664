/** What leaders do get done in runs: whoever leads has asked for its value. */
module Progress {
  import opened ProposalIds
  import opened Messages
  import opened Proposers
  import opened Nodes
  import opened Systems
  import opened SystemSteps
  import opened SystemInvariant
  import opened Theorems
  import opened Ballots
  import opened Leadership
  import C = Consensus
  import CS = ConsensusSteps

  /** If u leads and holds a value, an accept request of u for this value and the ballot it prepared
      last is on the network. */
  ghost predicate HasAsked(s: Cluster, u: Uid) {
    && u in s.members
    && (s.members[u].node.proposer.leader && s.members[u].node.proposer.value != "" ==>
          Asked(s, u, s.members[u].lastTried, s.members[u].node.proposer.value))
  }

  ghost predicate Asked(s: Cluster, u: Uid, id: ProposalId, value: Value) {
    exists m <- s.net.accepts :: m.from == u && m.id == id && m.value == value
  }

  /** A proposer that leads with a value, and did not before, asks for it now. */
  lemma NewLeadAsks(m: Member, e: Event)
    requires MaySendAccept(e) && m.node.proposer.active
    requires m.node.proposer.leader ==> |m.node.proposer.promises| >= m.node.proposer.quorumSize
    ensures var r := m.node.proposer;
            var (r', sent) := ProposerPart(m, e);
            && (r'.leader && r'.value != "" ==>
                  (r.leader && r.value == r'.value) || SendAccept(r'.ballot, r'.value) in sent)
            && (forall x <- sent :: x.SendAccept? ==> x.id == r'.ballot)
  {
    match e
    case GetPromise(p, _) => CountAsks(m.node.proposer, p);
    case _ =>
  }

  lemma CountAsks(r: ProposerState, p: PromiseMessage)
    requires r.active && (r.leader ==> |r.promises| >= r.quorumSize)
    ensures var (r', sent) := r.ReceivePromise(p.from, p.id, p.prevId, p.prevValue);
            && (r'.leader && r'.value != "" ==>
                  (r.leader && r.value == r'.value) || SendAccept(r'.ballot, r'.value) in sent)
            && (forall x <- sent :: x.SendAccept? ==> x.id == r'.ballot)
  {
    ObserveRaises(r, p.id);
    if p.from !in r.promises {
      assert |r.promises + {p.from}| == |r.promises| + 1;
    }
    hide ProposerState.Observe, ProposalId.Compare;
  }

  lemma RoundKeepsAsked(cfg: Setup, s: Cluster, s': Cluster, u: Uid, e: Event)
    requires cfg.Valid() && SystemInv(cfg, s) && Step(cfg, s, s', u, e) && MaySendAccept(e) && HasAsked(s, u)
    requires s.members[u].node.proposer.active
    ensures HasAsked(s', u)
  {
    hide SystemInv, C.Inv, After, React, ProposerPart, ProposersOf, TriedOf, TargetsOf, StableOf, CS.HoldsTo, At,
      CS.SameProposer;
    StepAt(cfg, s, s', u, e);
    SystemAt(cfg, s, u);
    AtFacts(cfg, s, u);
    AbsAt(cfg, s, u);
    CS.OwnFacts(cfg.core, Abs(cfg, s), u);
    RoundEffect(cfg, s, u, e);
    NewLeadAsks(s.members[u], e);
    var m, m' := s.members[u], s'.members[u];
    var (r', sent) := ProposerPart(m, e);
    if r'.leader && r'.value != "" && SendAccept(r'.ballot, r'.value) in sent {
      SentOnOpenBallot(cfg, s, u, e);
      assert AcceptMessage(u, m.server.Recipients(), r'.ballot, r'.value)
          in C.AcceptsIn(u, m.server.Recipients(), sent);
    } else if r'.leader && r'.value != "" {
      var x :| x in s.net.accepts && x.from == u && x.id == m.lastTried && x.value == r'.value;
    }
  }

  /** An accept request leaves only for the ballot prepared last. */
  lemma SentOnOpenBallot(cfg: Setup, s: Cluster, u: Uid, e: Event)
    requires cfg.Valid() && SystemInv(cfg, s) && Enabled(cfg, s, u, e) && MaySendAccept(e)
    requires exists x <- ProposerPart(s.members[u], e).1 :: x.SendAccept?
    ensures ProposerPart(s.members[u], e).0.ballot == s.members[u].lastTried
  {
    hide SystemInv, C.Inv, ProposersOf, TriedOf, TargetsOf, StableOf, At, C.ProposerOk, CS.HoldsTo;
    SystemAt(cfg, s, u);
    AtFacts(cfg, s, u);
    AbsAt(cfg, s, u);
    if e.GetPromise? {
      CountedIsCurrent(s.members[u].node.proposer, e.promise);
      hide ProposerState.ReceivePromise, ProposerState.Observe;
      CS.OwnPromiseIsForLastTried(cfg.core, Abs(cfg, s), u, e.promise);
    }
  }

  lemma CountedIsCurrent(r: ProposerState, p: PromiseMessage)
    ensures var (r', sent) := r.ReceivePromise(p.from, p.id, p.prevId, p.prevValue);
            && r'.ballot == r.Observe(p.id).ballot
            && (sent != [] ==> p.id == r.Observe(p.id).ballot)
  {
    OrderIsStrictAndTotal(p.id, r.Observe(p.id).ballot);
    hide ProposerState.Observe, ProposalId.Compare;
  }

  /** Every other event leaves the value alone, and gives no lead. */
  lemma OtherKeepsValue(cfg: Setup, s: Cluster, u: Uid, e: Event)
    requires u in s.members && !MaySendAccept(e)
    ensures var m, m' := s.members[u], After(cfg, s, u, e).members[u];
            && m'.node.proposer.value == m.node.proposer.value
            && (m'.node.proposer.leader ==> m.node.proposer.leader && m'.lastTried == m.lastTried)
  {
    var m := s.members[u];
    if MayOpen(e) {
      OpeningEffect(cfg, s, u, e);
      ObserveRaises(m.node.proposer, if e.GetPrepareAck? then e.prepareAck.promised else NO_ID);
      hide React, After, ProposerState.Observe;
    } else if OnlyTells(e) {
      TellEffect(cfg, s, u, e);
      TellKeepsValue(cfg, m, e);
      hide React, After;
    } else {
      NeverPrepares(cfg, m, e);
      TriedUnlessPrepared(m.lastTried, React(cfg, m, e).1);
      ProposerUntouched(cfg, m, e);
      hide React, TriedAfter;
    }
  }

  lemma TellKeepsValue(cfg: Setup, m: Member, e: Event)
    requires OnlyTells(e)
    ensures var r, r' := m.node.proposer, React(cfg, m, e).0.proposer;
            r'.value == r.value && (r'.leader ==> r.leader)
  {
    if e.GetAcceptAck? {
      StepsDownIff(m.node, e.acceptAck.from, e.acceptAck.id, e.acceptAck.promised);
      hide NodeState.ReceiveAcceptNack;
    } else {
      TellShape(cfg, m, e);
      ToldKeepsValue(m.node.proposer, React(cfg, m, e).0.proposer);
      hide React, Told;
    }
  }

  lemma ToldKeepsValue(r: ProposerState, r': ProposerState)
    requires Told(r, r')
    ensures r'.value == r.value && (r'.leader ==> r.leader)
  {
    hide ProposerState.Observe;
    var leader: bool, active: bool, id: ProposalId :|
      (leader ==> r.leader) && r' == r.(leader := leader, active := active).Observe(id);
    ObserveRaises(r.(leader := leader, active := active), id);
  }

  lemma ProposerUntouched(cfg: Setup, m: Member, e: Event)
    requires !MaySendAccept(e) && !MayOpen(e) && !OnlyTells(e)
    ensures React(cfg, m, e).0.proposer == m.node.proposer
  {
    hide ProposalId.Compare, Systems.Hear;
    if e.GetPermit? { HearAnnouncesNothing(cfg, m.node, e.permit, e.blank); }
  }

  lemma StepKeepsAsked(cfg: Setup, s: Cluster, s': Cluster, x: Uid, e: Event, u: Uid)
    requires cfg.Valid() && SystemInv(cfg, s) && Step(cfg, s, s', x, e) && HasAsked(s, u)
    requires s.members[u].node.proposer.active
    ensures HasAsked(s', u)
  {
    hide SystemInv, Step, React, PostedBy, LogAfter, After;
    StepAt(cfg, s, s', x, e);
    StepFollows(cfg, s, s', x, e);
    if x != u {
      AskedStays(s, s', u, s.members[u].lastTried, s.members[u].node.proposer.value);
    } else if MaySendAccept(e) {
      RoundKeepsAsked(cfg, s, s', u, e);
    } else {
      OtherKeepsValue(cfg, s, u, e);
      AskedStays(s, s', u, s.members[u].lastTried, s.members[u].node.proposer.value);
    }
  }

  lemma AskedStays(s: Cluster, s': Cluster, u: Uid, id: ProposalId, value: Value)
    requires NetGrows(s.net, s'.net)
    ensures Asked(s, u, id, value) ==> Asked(s', u, id, value)
  {
  }

  /** LEADERS ASK. Over a run in which u has been active throughout: whenever u leads and holds a value,
      it has sent an accept request with this value for the ballot it prepared last, whichever of value
      and promises came first. */
  lemma {:induction false} LeaderHasAsked(cfg: Setup, b: seq<Cluster>, i: nat, u: Uid)
    requires cfg.Valid() && IsRun(cfg, b) && i < |b| && u in b[0].members
    requires forall k :: 0 <= k < i && u in b[k].members ==> b[k].members[u].node.proposer.active
    ensures HasAsked(b[i], u)
  {
    hide Step, SystemInv;
    if i == 0 {
      assert FreshMember(cfg, u, b[0].members[u]);
    } else {
      LeaderHasAsked(cfg, b, i - 1, u);
      assert Next(cfg, b[i - 1], b[i - 1 + 1]);
      var x, e :| Step(cfg, b[i - 1], b[i], x, e);
      InvariantAlways(cfg, b, i - 1);
      StepKeepsAsked(cfg, b[i - 1], b[i], x, e, u);
    }
  }
}
