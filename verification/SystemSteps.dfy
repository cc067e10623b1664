/** Every event of the cluster is a few small steps of the consensus core: it keeps the invariant of
    the core and only adds to its history. */
module SystemSteps {
  import opened ProposalIds
  import opened Messages
  import opened Acceptors
  import opened Proposers
  import opened Learners
  import opened Nodes
  import opened Servers
  import opened Systems
  import C = Consensus
  import CS = ConsensusSteps

  // ----- posting what a handler sent

  predicate Quiet(e: Effect) {
    !e.SendPrepare? && !e.SendPromise? && !e.SendAccept? && !e.SendPermit?
  }

  /** The two networks hold the same phase 1 and phase 2 messages. */
  predicate SameCore(net: Network, net': Network) {
    && net'.prepares == net.prepares && net'.promises == net.promises
    && net'.accepts == net.accepts && net'.permits == net.permits
  }

  predicate OnlyAccepts(effects: seq<Effect>) {
    forall i :: 0 <= i < |effects| ==> Quiet(effects[i]) || effects[i].SendAccept?
  }

  /** Effects without prepares and replies post exactly their accept requests. */
  lemma {:induction false} PostAccepts(s: ServerState, net: Network, effects: seq<Effect>)
    requires OnlyAccepts(effects)
    ensures s.PostAll(net, effects).0 == s
    ensures var net' := s.PostAll(net, effects).1;
            && net'.prepares == net.prepares && net'.promises == net.promises && net'.permits == net.permits
            && net'.accepts == net.accepts + C.AcceptsIn(s.uid, s.Recipients(), effects)
    decreases |effects|
  {
    if effects == [] {
      assert C.AcceptsIn(s.uid, s.Recipients(), effects) == {};
    } else {
      var net1 := s.Post(net, effects[0]).1;
      PostAccepts(s, net1, effects[1..]);
      AcceptsInSplit(s.uid, s.Recipients(), effects);
    }
  }

  lemma AcceptsInSplit(p: Uid, to: set<Uid>, effects: seq<Effect>)
    requires effects != []
    ensures C.AcceptsIn(p, to, effects) == C.AcceptsIn(p, to, [effects[0]]) + C.AcceptsIn(p, to, effects[1..])
    ensures effects[0].SendAccept? ==>
              C.AcceptsIn(p, to, [effects[0]]) == {AcceptMessage(p, to, effects[0].id, effects[0].value)}
    ensures !effects[0].SendAccept? ==> C.AcceptsIn(p, to, [effects[0]]) == {}
  {
    assert effects == [effects[0]] + effects[1..];
  }

  /** Effects that add no accept requests to those of a leading part. */
  lemma AcceptsInAppend(p: Uid, to: set<Uid>, a: seq<Effect>, b: seq<Effect>)
    requires forall i :: 0 <= i < |b| ==> Quiet(b[i])
    ensures C.AcceptsIn(p, to, a + b) == C.AcceptsIn(p, to, a)
  {
  }

  lemma {:induction false} TriedUnlessPrepared(tried: ProposalId, effects: seq<Effect>)
    requires forall i :: 0 <= i < |effects| ==> !effects[i].SendPrepare?
    ensures TriedAfter(tried, effects) == tried
    decreases |effects|
  {
    if effects != [] {
      TriedUnlessPrepared(tried, effects[1..]);
    }
  }

  // ----- the cluster seen as the core

  lemma ProposersUpdate(ms: map<Uid, Member>, u: Uid, m: Member)
    requires u in ms
    ensures ProposersOf(ms[u := m]) == ProposersOf(ms)[u := m.node.proposer]
    ensures m.node.proposer == ms[u].node.proposer ==> ProposersOf(ms[u := m]) == ProposersOf(ms)
  {
  }

  lemma TriedUpdate(ms: map<Uid, Member>, u: Uid, m: Member)
    requires u in ms
    ensures TriedOf(ms[u := m]) == TriedOf(ms)[u := m.lastTried]
    ensures m.lastTried == ms[u].lastTried ==> TriedOf(ms[u := m]) == TriedOf(ms)
  {
  }

  lemma TargetsUpdate(ms: map<Uid, Member>, u: Uid, m: Member)
    requires u in ms
    ensures TargetsOf(ms[u := m]) == TargetsOf(ms)[u := m.server.majority]
    ensures m.server.majority == ms[u].server.majority ==> TargetsOf(ms[u := m]) == TargetsOf(ms)
  {
  }

  lemma StableUpdate(cfg: Setup, ms: map<Uid, Member>, u: Uid, m: Member)
    requires u in ms
    ensures StableOf(cfg, ms[u := m]) == StableOf(cfg, ms)[u := Stable(cfg, m)]
    ensures Stable(cfg, m) == Stable(cfg, ms[u]) ==> StableOf(cfg, ms[u := m]) == StableOf(cfg, ms)
  {
  }

  lemma AbsUpdate(cfg: Setup, s: Cluster, s': Cluster, u: Uid, m': Member)
    requires u in s.members && s'.members == s.members[u := m']
    ensures Abs(cfg, s').proposers == Abs(cfg, s).proposers[u := m'.node.proposer]
    ensures Abs(cfg, s').lastTried == Abs(cfg, s).lastTried[u := m'.lastTried]
    ensures Abs(cfg, s').targets == Abs(cfg, s).targets[u := m'.server.majority]
    ensures Abs(cfg, s').stable == Abs(cfg, s).stable[u := Stable(cfg, m')]
    ensures m'.node.proposer == s.members[u].node.proposer ==> Abs(cfg, s').proposers == Abs(cfg, s).proposers
    ensures m'.lastTried == s.members[u].lastTried ==> Abs(cfg, s').lastTried == Abs(cfg, s).lastTried
    ensures m'.server.majority == s.members[u].server.majority ==> Abs(cfg, s').targets == Abs(cfg, s).targets
    ensures Stable(cfg, m') == Stable(cfg, s.members[u]) ==> Abs(cfg, s').stable == Abs(cfg, s).stable
  {
    hide ProposersOf, TriedOf, TargetsOf, StableOf;
    ProposersUpdate(s.members, u, m');
    TriedUpdate(s.members, u, m');
    TargetsUpdate(s.members, u, m');
    StableUpdate(cfg, s.members, u, m');
  }

  /** The member's entries in the core. */
  lemma AbsAt(cfg: Setup, s: Cluster, u: Uid)
    requires u in s.members
    ensures u in Abs(cfg, s).proposers && Abs(cfg, s).proposers[u] == s.members[u].node.proposer
    ensures u in Abs(cfg, s).lastTried && Abs(cfg, s).lastTried[u] == s.members[u].lastTried
    ensures u in Abs(cfg, s).targets && Abs(cfg, s).targets[u] == s.members[u].server.majority
    ensures u in Abs(cfg, s).stable && Abs(cfg, s).stable[u] == Stable(cfg, s.members[u])
  {
  }

  lemma RecipientsAreChosen(server: ServerState)
    ensures server.Recipients() <= server.majority
  {
  }

  // ----- events as steps of the core

  /** What an event at u may rely on. */
  ghost predicate At(cfg: Setup, s: Cluster, u: Uid) {
    && cfg.Valid() && s.members.Keys == cfg.core.nodes && u in s.members
    && C.Inv(cfg.core, Abs(cfg, s))
    && ServerOk(cfg, u, s.members[u].server)
    && Systems.AcceptorOk(cfg, s, u)
  }

  ghost predicate CoreStep(cfg: Setup, s: Cluster, s': Cluster) {
    && C.Inv(cfg.core, Abs(cfg, s'))
    && CS.Grows(Abs(cfg, s), Abs(cfg, s'))
  }

  lemma GrowsTransitive(a: C.State, b: C.State, c: C.State)
    requires CS.Grows(a, b) && CS.Grows(b, c)
    ensures CS.Grows(a, c)
  {
    forall x <- a.stable.Keys
      ensures a.stable[x].promised.Le(c.stable[x].promised)
      ensures a.stable[x].accepted.Le(c.stable[x].accepted)
    {
      LeTransitive(a.stable[x].promised, b.stable[x].promised, c.stable[x].promised);
      LeTransitive(a.stable[x].accepted, b.stable[x].accepted, c.stable[x].accepted);
    }
    forall v <- c.votes
      ensures v in a.votes || (v.from in a.stable && a.stable[v.from].promised.Le(v.id))
    {
      if v !in b.votes {
        LeTransitive(a.stable[v.from].promised, b.stable[v.from].promised, v.id);
      }
    }
  }

  /** The core is untouched. */
  lemma StutterStep(cfg: Setup, s: Cluster, s': Cluster)
    requires cfg.Valid() && C.Inv(cfg.core, Abs(cfg, s)) && Abs(cfg, s') == Abs(cfg, s)
    ensures CoreStep(cfg, s, s')
  {
    hide C.Inv, CS.Grows, Abs;
    StutterKeepsInv(cfg.core, Abs(cfg, s));
  }

  /** Only u's proposer has changed, by being told of an ID and perhaps losing the lead first. */
  lemma ToldStep(
    cfg: Setup, s: Cluster, t: C.State, u: Uid, r: ProposerState, leader: bool, active: bool, id: ProposalId)
    requires cfg.Valid() && C.Inv(cfg.core, Abs(cfg, s)) && u in s.members
    requires leader ==> s.members[u].node.proposer.leader
    requires r == s.members[u].node.proposer.(leader := leader, active := active).Observe(id)
    requires t == Abs(cfg, s).(proposers := Abs(cfg, s).proposers[u := r])
    ensures C.Inv(cfg.core, t) && CS.Grows(Abs(cfg, s), t)
  {
    hide C.Inv, CS.Grows, Abs;
    AbsAt(cfg, s, u);
    var a := Abs(cfg, s);
    var flagged := s.members[u].node.proposer.(leader := leader, active := active);
    var b := a.(proposers := a.proposers[u := flagged]);
    CS.FlagsKeepInv(cfg.core, a, b, u, leader, active);
    assert b.proposers[u := r] == a.proposers[u := r];
    CS.ObserveKeepsInv(cfg.core, b, t, u, id);
    GrowsTransitive(a, b, t);
  }

  /** The selection gives no acceptors at all or exactly a quorum of nodes. */
  lemma SelectionIsQuorumOrNone(cfg: Setup, u: Uid, server: ServerState)
    requires ServerOk(cfg, u, server)
    requires server.majority <= cfg.core.nodes
    requires server.majority == {} || |server.majority| == cfg.core.quorumSize
    ensures server.SelectMajority().majority <= cfg.core.nodes
    ensures server.SelectMajority().majority == {} || |server.SelectMajority().majority| == cfg.core.quorumSize
    ensures ServerOk(cfg, u, server.SelectMajority())
  {
    TooFewPeersKeepsChoice(server);
    if |server.peers| >= server.quorumSize {
      SelectionIsTheCyclicSuccessors(server);
    }
  }

  lemma MajorityFacts(cfg: Setup, s: Cluster, u: Uid)
    requires cfg.Valid() && C.Inv(cfg.core, Abs(cfg, s)) && u in s.members && u in cfg.core.nodes
    ensures s.members[u].server.majority <= cfg.core.nodes
    ensures s.members[u].server.majority == {} || |s.members[u].server.majority| == cfg.core.quorumSize
  {
    hide C.Inv, Abs;
    AbsAt(cfg, s, u);
    CS.InvIsWellFormed(cfg.core, Abs(cfg, s));
    CS.TargetsAreNodes(cfg.core, Abs(cfg, s), u);
  }

  lemma PostPrepare(server: ServerState, net: Network, id: ProposalId)
    ensures var (server', net') := server.PostAll(net, [SendPrepare(id)]);
            && server' == server.SelectMajority()
            && net' == net.(prepares := net'.prepares)
            && net'.prepares == net.prepares
                 + if server'.majority == {} then {} else {PrepareMessage(server.uid, server'.Recipients(), id)}
  {
    var (s1, net1) := server.Post(net, SendPrepare(id));
    assert [SendPrepare(id)][1..] == [];
    assert s1.PostAll(net1, []) == (s1, net1);
  }

  /** A proposer opens a ballot, perhaps after being told of an ID: t is the core in between. */
  ghost predicate OpensFrom(cfg: Setup, s: Cluster, t: C.State, s': Cluster, u: Uid, r: ProposerState, m': Member) {
    && t == Abs(cfg, s).(proposers := Abs(cfg, s).proposers[u := r])
    && r.ballot.number < MAX_NUMBER
    && u in s.members
    && m'.node.proposer == r.Prepare(true).0 && m'.lastTried == r.Prepare(true).0.ballot
    && (m'.server, s'.net) == s.members[u].server.PostAll(s.net, [SendPrepare(m'.lastTried)])
    && Stable(cfg, m') == Stable(cfg, s.members[u])
    && s'.members == s.members[u := m'] && s'.votes == s.votes && s'.inputs == s.inputs
  }

  lemma OpenedMajority(cfg: Setup, s: Cluster, t: C.State, s': Cluster, u: Uid, r: ProposerState, m': Member)
    requires At(cfg, s, u) && OpensFrom(cfg, s, t, s', u, r, m')
    ensures m'.server.majority <= cfg.core.nodes
    ensures m'.server.majority == {} || |m'.server.majority| == cfg.core.quorumSize
    ensures s'.net == s.net.(prepares := s'.net.prepares) && s.net.prepares <= s'.net.prepares
    ensures forall x <- s'.net.prepares - s.net.prepares :: x.id == m'.lastTried && x.to <= m'.server.majority
  {
    hide C.Inv, ProposersOf, TriedOf, TargetsOf, StableOf, Stable, ServerState.PostAll, ServerState.SelectMajority,
      ServerState.Recipients, ProposerState.Prepare;
    PostPrepare(s.members[u].server, s.net, m'.lastTried);
    MajorityFacts(cfg, s, u);
    SelectionIsQuorumOrNone(cfg, u, s.members[u].server);
    RecipientsAreChosen(m'.server);
  }

  lemma OpenedAbs(cfg: Setup, s: Cluster, t: C.State, s': Cluster, u: Uid, r: ProposerState, m': Member)
    requires OpensFrom(cfg, s, t, s', u, r, m')
    requires s'.net == s.net.(prepares := s'.net.prepares)
    ensures Abs(cfg, s') == t.(proposers := t.proposers[u := m'.node.proposer],
                               lastTried := t.lastTried[u := m'.lastTried],
                               targets := t.targets[u := m'.server.majority], prepares := s'.net.prepares)
  {
    hide ProposersOf, TriedOf, TargetsOf, StableOf, Stable, ServerState.PostAll, ProposerState.Prepare;
    AbsUpdate(cfg, s, s', u, m');
    assert Abs(cfg, s').proposers == t.proposers[u := m'.node.proposer];
  }

  lemma OpeningIsCoreOpen(cfg: Setup, s: Cluster, t: C.State, s': Cluster, u: Uid, r: ProposerState, m': Member)
    requires At(cfg, s, u) && OpensFrom(cfg, s, t, s', u, r, m')
    ensures C.Opens(cfg.core, t, Abs(cfg, s'), u, m'.server.majority, s'.net.prepares - s.net.prepares)
  {
    hide At, C.Inv, ServerOk, ProposersOf, TriedOf, TargetsOf, StableOf, Stable, ServerState.PostAll,
      ServerState.Post, C.WellFormed, ProposerState.Prepare, Systems.AcceptorOk;
    OpenedMajority(cfg, s, t, s', u, r, m');
    OpenedAbs(cfg, s, t, s', u, r, m');
    AtFacts(cfg, s, u);
    AbsAt(cfg, s, u);
    assert t.prepares + (s'.net.prepares - s.net.prepares) == s'.net.prepares;
  }

  lemma OpenStep(cfg: Setup, s: Cluster, t: C.State, s': Cluster, u: Uid, r: ProposerState, m': Member)
    requires At(cfg, s, u) && OpensFrom(cfg, s, t, s', u, r, m')
    requires C.Inv(cfg.core, t) && CS.Grows(Abs(cfg, s), t)
    ensures CoreStep(cfg, s, s')
  {
    AtFacts(cfg, s, u);
    OpeningIsCoreOpen(cfg, s, t, s', u, r, m');
    hide At, C.Inv, CS.Grows, C.Opens, OpensFrom, Abs;
    CS.OpenKeepsInv(cfg.core, t, Abs(cfg, s'), u, m'.server.majority, s'.net.prepares - s.net.prepares);
    GrowsTransitive(Abs(cfg, s), t, Abs(cfg, s'));
  }

  /** Nothing the core sees has changed. */
  lemma StutterKeepsInv(c: C.Config, s: C.State)
    requires c.Valid() && C.Inv(c, s)
    ensures CS.Grows(s, s)
  {
    hide C.Inv;
    CS.SameKeys(c, s);
  }

  // ----- events that may open a ballot

  /** The handler left the node's proposer at r, or opened the next ballot from there. */
  predicate Opening(n: NodeState, n': NodeState, effects: seq<Effect>, r: ProposerState) {
    && n'.acceptor == n.acceptor && n'.learner == n.learner
    && if effects == [] then n'.proposer == r && n'.acceptNacks == n.acceptNacks
       else && effects == [SendPrepare(n'.proposer.ballot)]
            && n'.proposer == r.Prepare(true).0 && n'.acceptNacks == {}
  }

  predicate MayOpen(e: Event) {
    e.PollLiveness? || e.AcquireLeadership? || e.PrepareNow? || e.GetPrepareAck?
  }

  /** The proposer just before an event might open a ballot. */
  function BeforeOpening(m: Member, e: Event): ProposerState {
    if e.GetPrepareAck? then m.node.proposer.Observe(e.prepareAck.promised) else m.node.proposer
  }

  lemma OpeningShape(cfg: Setup, m: Member, e: Event)
    requires MayOpen(e)
    ensures Opening(m.node, React(cfg, m, e).0, React(cfg, m, e).1, BeforeOpening(m, e))
  {
    hide ProposerState.Observe, ProposalId.IncrementNumber, Elapsed;
  }

  lemma OpeningKeepsStable(cfg: Setup, s: Cluster, u: Uid, e: Event)
    requires u in s.members && MayOpen(e)
    ensures Stable(cfg, After(cfg, s, u, e).members[u]) == Stable(cfg, s.members[u])
    ensures After(cfg, s, u, e).votes == s.votes && After(cfg, s, u, e).inputs == s.inputs
    ensures After(cfg, s, u, e).members == s.members[u := After(cfg, s, u, e).members[u]]
  {
    OpeningShape(cfg, s.members[u], e);
    hide React;
  }

  lemma TriedAfterOne(tried: ProposalId, id: ProposalId)
    ensures TriedAfter(tried, [SendPrepare(id)]) == id
  {
    assert [SendPrepare(id)][1..] == [];
    assert TriedAfter(id, []) == id;
  }

  /** What an opening event does to the member and the network. */
  lemma OpeningEffect(cfg: Setup, s: Cluster, u: Uid, e: Event)
    requires u in s.members && MayOpen(e)
    ensures var s' := After(cfg, s, u, e);
            var m, m', r := s.members[u], s'.members[u], BeforeOpening(s.members[u], e);
            if React(cfg, m, e).1 == []
            then m'.node.proposer == r && m'.lastTried == m.lastTried && m'.server == m.server && s'.net == s.net
            else && m'.node.proposer == r.Prepare(true).0 && m'.lastTried == r.Prepare(true).0.ballot
                 && (m'.server, s'.net) == m.server.PostAll(s.net, [SendPrepare(m'.lastTried)])
  {
    OpeningShape(cfg, s.members[u], e);
    var r := BeforeOpening(s.members[u], e);
    TriedAfterOne(s.members[u].lastTried, r.Prepare(true).0.ballot);
    hide React, BeforeOpening, ServerState.Post, ProposalId.IncrementNumber;
  }

  lemma OpeningEvent(cfg: Setup, s: Cluster, s': Cluster, u: Uid, e: Event)
    requires At(cfg, s, u) && Step(cfg, s, s', u, e) && MayOpen(e)
    ensures CoreStep(cfg, s, s')
  {
    hide At, C.Inv, CS.Grows, React, ServerState.PostAll, TriedAfter, ProposersOf, TriedOf, TargetsOf, StableOf,
      Stable;
    var m, m' := s.members[u], s'.members[u];
    var r := BeforeOpening(m, e);
    OpeningKeepsStable(cfg, s, u, e);
    OpeningEffect(cfg, s, u, e);
    var a := Abs(cfg, s);
    var t := a.(proposers := a.proposers[u := r]);
    AtFacts(cfg, s, u);
    BeforeOpeningTold(cfg, s, t, u, e);
    if React(cfg, m, e).1 == [] {
      AbsUpdate(cfg, s, s', u, m');
      assert Abs(cfg, s') == t;
    } else {
      OpenStep(cfg, s, t, s', u, r, m');
    }
  }

  lemma AtFacts(cfg: Setup, s: Cluster, u: Uid)
    requires At(cfg, s, u)
    ensures cfg.Valid() && C.Inv(cfg.core, Abs(cfg, s)) && u in cfg.core.nodes && u in s.members
    ensures ServerOk(cfg, u, s.members[u].server) && s.members[u].server.uid == u
  {
    hide C.Inv;
  }

  lemma BeforeOpeningTold(cfg: Setup, s: Cluster, t: C.State, u: Uid, e: Event)
    requires cfg.Valid() && C.Inv(cfg.core, Abs(cfg, s)) && u in s.members && MayOpen(e)
    requires t == Abs(cfg, s).(proposers := Abs(cfg, s).proposers[u := BeforeOpening(s.members[u], e)])
    ensures C.Inv(cfg.core, t) && CS.Grows(Abs(cfg, s), t)
  {
    hide C.Inv, CS.Grows, Abs;
    var r := s.members[u].node.proposer;
    var id := if e.GetPrepareAck? then e.prepareAck.promised else r.ballot;
    OrderIsStrictAndTotal(r.ballot, r.ballot);
    assert r.(leader := r.leader, active := r.active) == r;
    ToldStep(cfg, s, t, u, BeforeOpening(s.members[u], e), r.leader, r.active, id);
  }

  // ----- events that may send accept requests

  predicate MaySendAccept(e: Event) {
    e.GetPromise? || e.SetProposal? || e.ResendAccept?
  }

  /** What the proposer itself does in such an event. */
  function ProposerPart(m: Member, e: Event): (ProposerState, seq<Effect>)
    requires MaySendAccept(e)
  {
    var r := m.node.proposer;
    match e
    case GetPromise(p, _) => r.ReceivePromise(p.from, p.id, p.prevId, p.prevValue)
    case SetProposal(v) => r.SetProposal(v)
    case ResendAccept => (r, r.ResendAccept())
  }

  predicate AllQuiet(effects: seq<Effect>) {
    forall i :: 0 <= i < |effects| ==> Quiet(effects[i])
  }

  /** A node that pulses tells itself its own ballot, which leaves its proposer alone. */
  lemma PulseShape(n: NodeState, now: nat)
    ensures var (n', effects) := n.Pulse(now);
            n'.proposer == n.proposer && n'.acceptor == n.acceptor && n'.learner == n.learner
            && n'.acceptNacks == n.acceptNacks && AllQuiet(effects)
  {
    hide ProposerState.Observe, ProposalId.Compare;
  }

  lemma RoundShape(cfg: Setup, m: Member, e: Event)
    requires MaySendAccept(e)
    ensures var (n', effects) := React(cfg, m, e);
            && n'.proposer == ProposerPart(m, e).0 && n'.acceptor == m.node.acceptor
            && n'.learner == m.node.learner && n'.acceptNacks == m.node.acceptNacks
            && |ProposerPart(m, e).1| <= |effects|
            && effects[..|ProposerPart(m, e).1|] == ProposerPart(m, e).1
            && AllQuiet(effects[|ProposerPart(m, e).1|..])
            && OnlyAccepts(effects)
  {
    if e.GetPromise? {
      var p := e.promise;
      PromiseShape(m.node, p, e.now);
      PromiseEffects(m.node.proposer, p);
      OnlyAcceptsAppend(ProposerPart(m, e).1, React(cfg, m, e).1);
    }
  }

  lemma PromiseEffects(r: ProposerState, p: PromiseMessage)
    ensures OnlyAccepts(r.ReceivePromise(p.from, p.id, p.prevId, p.prevValue).1)
  {
    hide ProposerState.Observe, ProposalId.Compare;
  }

  lemma OnlyAcceptsAppend(a: seq<Effect>, whole: seq<Effect>)
    requires |a| <= |whole| && whole[..|a|] == a && OnlyAccepts(a) && AllQuiet(whole[|a|..])
    ensures OnlyAccepts(whole)
  {
    forall i | 0 <= i < |whole| ensures Quiet(whole[i]) || whole[i].SendAccept? {
      if i < |a| { assert whole[i] == a[i]; } else { assert whole[i] == whole[|a|..][i - |a|]; }
    }
  }

  lemma PromiseShape(n: NodeState, p: PromiseMessage, now: nat)
    ensures var (r', sent) := n.proposer.ReceivePromise(p.from, p.id, p.prevId, p.prevValue);
            var (n', effects) := n.ReceivePromise(p.from, p.id, p.prevId, p.prevValue, now);
            && n'.proposer == r' && n'.acceptor == n.acceptor && n'.learner == n.learner
            && n'.acceptNacks == n.acceptNacks
            && |sent| <= |effects| && effects[..|sent|] == sent && AllQuiet(effects[|sent|..])
  {
    hide ProposerState.ReceivePromise, NodeState.Pulse;
    var (r', sent) := n.proposer.ReceivePromise(p.from, p.id, p.prevId, p.prevValue);
    PulseShape(n.(proposer := r', leaderUid := r'.uid, leaderId := r'.ballot, acquiring := false), now);
  }

  lemma RoundEffect(cfg: Setup, s: Cluster, u: Uid, e: Event)
    requires u in s.members && MaySendAccept(e)
    ensures var s' := After(cfg, s, u, e);
            var m, m' := s.members[u], s'.members[u];
            && m'.node.proposer == ProposerPart(m, e).0 && m'.lastTried == m.lastTried && m'.server == m.server
            && Stable(cfg, m') == Stable(cfg, m) && s'.members == s.members[u := m']
            && s'.net.prepares == s.net.prepares && s'.net.promises == s.net.promises
            && s'.net.permits == s.net.permits
            && s'.net.accepts == s.net.accepts
                 + C.AcceptsIn(m.server.uid, m.server.Recipients(), ProposerPart(m, e).1)
            && s'.votes == s.votes
            && s'.inputs == if e.SetProposal? then s.inputs + {e.value} else s.inputs
  {
    var m := s.members[u];
    RoundShape(cfg, m, e);
    hide React, ProposerPart, OnlyAccepts;
    var effects := React(cfg, m, e).1;
    var sent := ProposerPart(m, e).1;
    assert effects == sent + effects[|sent|..];
    PostAccepts(m.server, s.net, effects);
    AcceptsInAppend(m.server.uid, m.server.Recipients(), sent, effects[|sent|..]);
    NoPrepareAmong(effects);
    TriedUnlessPrepared(m.lastTried, effects);
  }

  lemma NoPrepareAmong(effects: seq<Effect>)
    requires OnlyAccepts(effects)
    ensures forall i :: 0 <= i < |effects| ==> !effects[i].SendPrepare?
  {
  }

  lemma RoundEvent(cfg: Setup, s: Cluster, s': Cluster, u: Uid, e: Event)
    requires At(cfg, s, u) && Step(cfg, s, s', u, e) && MaySendAccept(e)
    ensures CoreStep(cfg, s, s')
  {
    hide At, C.Inv, CS.Grows, After, React, ProposersOf, TriedOf, TargetsOf, StableOf, Stable, C.AcceptsIn,
      ProposerState.SetProposal, ProposerState.ReceivePromise, ProposerState.ResendAccept;
    AtFacts(cfg, s, u);
    RoundEffect(cfg, s, u, e);
    var m, m' := s.members[u], s'.members[u];
    AbsAt(cfg, s, u);
    AbsUpdate(cfg, s, s', u, m');
    var a, b := Abs(cfg, s), Abs(cfg, s');
    var to := m.server.Recipients();
    RecipientsAreChosen(m.server);
    match e
    case GetPromise(p, _) =>
      assert C.Counts(cfg.core, a, b, u, p, to);
      CS.CountKeepsInv(cfg.core, a, b, u, p, to);
    case SetProposal(v) =>
      assert C.Proposes(cfg.core, a, b, u, v, to);
      CS.ProposeKeepsInv(cfg.core, a, b, u, v, to);
    case ResendAccept =>
      assert a.proposers[u := m.node.proposer] == a.proposers;
      assert C.Resends(cfg.core, a, b, u, to);
      CS.ResendKeepsInv(cfg.core, a, b, u, to);
  }

  // ----- events that only tell a proposer something

  predicate OnlyTells(e: Event) {
    e.Pulse? || e.GetAcceptAck? || e.GetHeartbeat? || e.SetActive?
  }

  /** Told(r, r'): r' is r with its flags perhaps changed, the lead only given up, and then told
      of some ID. */
  ghost predicate Told(r: ProposerState, r': ProposerState) {
    exists leader: bool, active: bool, id: ProposalId ::
      (leader ==> r.leader) && r' == r.(leader := leader, active := active).Observe(id)
  }

  lemma ToldNothing(r: ProposerState)
    ensures Told(r, r)
  {
    OrderIsStrictAndTotal(r.ballot, r.ballot);
    assert r.(leader := r.leader, active := r.active).Observe(r.ballot) == r;
  }

  lemma ToldKeepsInv(cfg: Setup, s: Cluster, t: C.State, u: Uid, r: ProposerState)
    requires cfg.Valid() && C.Inv(cfg.core, Abs(cfg, s)) && u in s.members
    requires Told(s.members[u].node.proposer, r)
    requires t == Abs(cfg, s).(proposers := Abs(cfg, s).proposers[u := r])
    ensures C.Inv(cfg.core, t) && CS.Grows(Abs(cfg, s), t)
  {
    hide C.Inv, CS.Grows, Abs;
    var q := s.members[u].node.proposer;
    var leader: bool, active: bool, id: ProposalId :|
      (leader ==> q.leader) && r == q.(leader := leader, active := active).Observe(id);
    ToldStep(cfg, s, t, u, r, leader, active, id);
  }

  /** The proposer once it has been told the ID a refusal names. */
  function AfterRefusal(m: Member, e: Event): ProposerState
    requires e.GetAcceptAck?
  {
    m.node.proposer.Observe(e.acceptAck.promised)
  }

  lemma TellShape(cfg: Setup, m: Member, e: Event)
    requires OnlyTells(e)
    ensures var (n', effects) := React(cfg, m, e);
            && n'.learner == m.node.learner
            && n'.acceptor.(active := m.node.acceptor.active) == m.node.acceptor
            && (!e.SetActive? ==> n'.acceptor == m.node.acceptor)
            && (e.SetActive? ==> n'.acceptor.active == e.active)
            && AllQuiet(effects)
            && (!e.GetAcceptAck? ==> Told(m.node.proposer, n'.proposer) && n'.acceptNacks == m.node.acceptNacks)
  {
    hide ProposerState.Observe, ProposalId.Compare, Told;
    var r := m.node.proposer;
    match e
    case Pulse(now) =>
      PulseShape(m.node, now);
      ToldNothing(r);
    case GetHeartbeat(p, _) =>
      HeartbeatTells(m.node, p, e.now);
    case SetActive(active) =>
      assert Told(r, r.(active := active)) by {
        OrderIsStrictAndTotal(r.ballot, r.ballot);
        ToldFlags(r, r.leader, active);
      }
    case GetAcceptAck(p) =>
  }

  lemma ToldFlags(r: ProposerState, leader: bool, active: bool)
    requires leader ==> r.leader
    ensures Told(r, r.(leader := leader, active := active))
  {
    OrderIsStrictAndTotal(r.ballot, r.ballot);
    assert r.(leader := leader, active := active).Observe(r.ballot) == r.(leader := leader, active := active);
  }

  lemma ToldId(r: ProposerState, leader: bool, id: ProposalId)
    requires leader ==> r.leader
    ensures Told(r, r.(leader := leader).Observe(id))
  {
    assert r.(leader := leader, active := r.active) == r.(leader := leader);
  }

  lemma HeartbeatTells(n: NodeState, p: HeartbeatMessage, now: nat)
    ensures Told(n.proposer, n.ReceiveHeartbeat(p.leaderUid, p.leaderId, now).0.proposer)
  {
    hide ProposerState.Observe, ProposalId.Compare, Told;
    ToldNothing(n.proposer);
    ToldId(n.proposer, false, p.leaderId);
  }

  /** A refusal tells the proposer twice: the promised ID, and on stepping down its own. */
  lemma RefusalTells(cfg: Setup, m: Member, e: Event)
    requires e.GetAcceptAck?
    ensures Told(m.node.proposer, AfterRefusal(m, e))
    ensures Told(AfterRefusal(m, e), React(cfg, m, e).0.proposer)
  {
    hide ProposerState.Observe, ProposalId.Compare, Told;
    var r := m.node.proposer;
    ToldId(r, r.leader, e.acceptAck.promised);
    assert r.(leader := r.leader) == r;
    ToldNothing(AfterRefusal(m, e));
    ToldId(AfterRefusal(m, e), false, e.acceptAck.id);
  }

  lemma QuietAreOnlyAccepts(effects: seq<Effect>)
    requires AllQuiet(effects)
    ensures OnlyAccepts(effects)
    ensures forall p: Uid, to: set<Uid> :: C.AcceptsIn(p, to, effects) == {}
  {
  }

  lemma TellEffect(cfg: Setup, s: Cluster, u: Uid, e: Event)
    requires u in s.members && OnlyTells(e)
    ensures var s' := After(cfg, s, u, e);
            var m, m' := s.members[u], s'.members[u];
            && m'.node == React(cfg, m, e).0 && m'.lastTried == m.lastTried && m'.server == m.server
            && m'.saved == m.saved && m'.log == m.log
            && Stable(cfg, m') == Stable(cfg, m) && s'.members == s.members[u := m']
            && SameCore(s.net, s'.net) && s'.votes == s.votes && s'.inputs == s.inputs
  {
    var m := s.members[u];
    TellShape(cfg, m, e);
    hide React, OnlyAccepts;
    var effects := React(cfg, m, e).1;
    QuietAreOnlyAccepts(effects);
    PostAccepts(m.server, s.net, effects);
    NoPrepareAmong(effects);
    TriedUnlessPrepared(m.lastTried, effects);
  }

  lemma TellEvent(cfg: Setup, s: Cluster, s': Cluster, u: Uid, e: Event)
    requires At(cfg, s, u) && Step(cfg, s, s', u, e) && OnlyTells(e)
    ensures CoreStep(cfg, s, s')
  {
    hide At, C.Inv, CS.Grows, After, React, ProposersOf, TriedOf, TargetsOf, StableOf, Stable, Told;
    AtFacts(cfg, s, u);
    TellEffect(cfg, s, u, e);
    var m, m' := s.members[u], s'.members[u];
    TellShape(cfg, m, e);
    AbsUpdate(cfg, s, s', u, m');
    assert Abs(cfg, s') == Abs(cfg, s).(proposers := Abs(cfg, s).proposers[u := m'.node.proposer]);
    if e.GetAcceptAck? {
      RefusalEvent(cfg, s, s', u, e, m');
    } else {
      ToldKeepsInv(cfg, s, Abs(cfg, s'), u, m'.node.proposer);
    }
  }

  lemma RefusalEvent(cfg: Setup, s: Cluster, s': Cluster, u: Uid, e: Event, m': Member)
    requires cfg.Valid() && C.Inv(cfg.core, Abs(cfg, s)) && u in s.members && e.GetAcceptAck?
    requires m'.node == React(cfg, s.members[u], e).0
    requires Abs(cfg, s') == Abs(cfg, s).(proposers := Abs(cfg, s).proposers[u := m'.node.proposer])
    ensures CoreStep(cfg, s, s')
  {
    hide C.Inv, CS.Grows, React, ProposersOf, TriedOf, TargetsOf, StableOf, Stable, Told;
    var m := s.members[u];
    RefusalTells(cfg, m, e);
    var a := Abs(cfg, s);
    var between := m.(node := m.node.(proposer := AfterRefusal(m, e)));
    var s1 := s.(members := s.members[u := between]);
    SameStable(cfg, m, between);
    AbsUpdate(cfg, s, s1, u, between);
    ToldKeepsInv(cfg, s, Abs(cfg, s1), u, AfterRefusal(m, e));
    assert Abs(cfg, s1).proposers[u := m'.node.proposer] == a.proposers[u := m'.node.proposer];
    ToldKeepsInv(cfg, s1, Abs(cfg, s'), u, m'.node.proposer);
    GrowsTransitive(a, Abs(cfg, s1), Abs(cfg, s'));
  }

  lemma SameStable(cfg: Setup, m: Member, m': Member)
    requires m'.saved == m.saved && m'.node.acceptor.triple == m.node.acceptor.triple
    ensures Stable(cfg, m') == Stable(cfg, m)
  {
  }

  // ----- events at an acceptor

  lemma PostOne(server: ServerState, net: Network, e: Effect)
    ensures server.PostAll(net, [e]) == server.Post(net, e)
  {
    var (s1, net1) := server.Post(net, e);
    assert [e][1..] == [];
    assert s1.PostAll(net1, []) == (s1, net1);
  }

  lemma MayBecomeSelf(a: C.State, u: Uid, t: Triple)
    ensures C.MayBecome(a, u, t, t)
  {
  }

  lemma MayBecomeStays(a: C.State, b: C.State, u: Uid, t: Triple, t': Triple)
    requires CS.Grows(a, b) && C.MayBecome(a, u, t, t')
    ensures C.MayBecome(b, u, t, t')
  {
  }

  lemma PrepareMayBecome(a: C.State, u: Uid, t: Triple, mem: Triple, id: ProposalId)
    requires C.MayBecome(a, u, t, mem) && C.Known(a, id) && C.Reached(a, u, id)
    requires mem.promised == NO_ID || mem.promised.Lt(id)
    ensures C.MayBecome(a, u, t, mem.(promised := id))
  {
    NoIdIsBottom(id);
    LeTransitive(t.promised, mem.promised, id);
    if mem.accepted.Le(mem.promised) {
      LeTransitive(mem.accepted, mem.promised, id);
    }
  }

  lemma AcceptMayBecome(a: C.State, u: Uid, t: Triple, mem: Triple, id: ProposalId, value: Value)
    requires C.MayBecome(a, u, t, mem) && C.Known(a, id) && C.Requested(a, u, id, value)
    requires mem.promised == NO_ID || mem.promised.Le(id)
    ensures C.MayBecome(a, u, t, Triple(id, id, value))
  {
    NoIdIsBottom(id);
    LeTransitive(t.promised, mem.promised, id);
    assert C.Reached(a, u, id);
  }

  /** Memory is something the stable triple may become, and its promise is a real ballot or none. */
  lemma MemoryFacts(cfg: Setup, s: Cluster, u: Uid)
    requires At(cfg, s, u)
    ensures var t := s.members[u].node.acceptor.triple;
            && C.MayBecome(Abs(cfg, s), u, Stable(cfg, s.members[u]), t)
            && (t.promised == NO_ID || t.promised.IsValid())
  {
    hide C.Inv, C.WellFormed, Abs;
    AbsAt(cfg, s, u);
    StablePromised(cfg.core, Abs(cfg, s), u);
    var t := s.members[u].node.acceptor.triple;
    if C.Known(Abs(cfg, s), t.promised) {
      CS.InvIsWellFormed(cfg.core, Abs(cfg, s));
      CS.KnownIsValid(cfg.core, Abs(cfg, s), t.promised);
    }
    MayBecomeSelf(Abs(cfg, s), u, t);
  }

  lemma StablePromised(c: C.Config, a: C.State, u: Uid)
    requires c.Valid() && C.Inv(c, a) && u in c.nodes
    ensures u in a.stable && (a.stable[u].promised == NO_ID || a.stable[u].promised.IsValid())
    ensures C.AcceptorOk(a, u)
  {
    hide C.WellFormed, C.PromiseOk, C.AcceptOk, C.VoteOk, C.PermitOk, C.ProposerOk, C.PrepareOk, C.AcceptMatchesOwner,
      C.OneValue;
    CS.InvIsWellFormed(c, a);
    assert C.AcceptorOk(a, u);
    if C.Known(a, a.stable[u].promised) {
      CS.KnownIsValid(c, a, a.stable[u].promised);
    }
  }

  lemma PrepareReaches(c: C.Config, a: C.State, m: PrepareMessage, u: Uid)
    requires C.Inv(c, a) && m in a.prepares && u in m.to
    ensures C.Known(a, m.id) && C.Reached(a, u, m.id)
  {
    hide C.WellFormed, C.PromiseOk, C.AcceptOk, C.VoteOk, C.PermitOk, C.ProposerOk, C.AcceptorOk,
      C.AcceptMatchesOwner, C.OneValue;
    assert C.PrepareOk(a, m);
  }

  lemma AcceptReaches(c: C.Config, a: C.State, m: AcceptMessage, u: Uid)
    requires C.Inv(c, a) && m in a.accepts && u in m.to
    ensures C.Known(a, m.id) && C.Requested(a, u, m.id, m.value)
  {
    hide C.Inv, C.Justified;
    CS.AcceptHolds(c, a, m);
  }

  /** u's acceptor has moved to t' in memory; nothing was sent that the core sees. */
  lemma MoveStep(cfg: Setup, s: Cluster, s': Cluster, u: Uid, m': Member)
    requires At(cfg, s, u)
    requires C.MayBecome(Abs(cfg, s), u, Stable(cfg, s.members[u]), Stable(cfg, m'))
    requires m'.node.proposer == s.members[u].node.proposer && m'.server.majority == s.members[u].server.majority
    requires m'.lastTried == s.members[u].lastTried
    requires s'.members == s.members[u := m'] && SameCore(s.net, s'.net) && s'.inputs == s.inputs
    requires s'.votes == s.votes + C.NewVotes(u, Stable(cfg, s.members[u]), Stable(cfg, m'))
    ensures CoreStep(cfg, s, s')
  {
    hide At, C.Inv, CS.Grows, C.MayBecome, C.NewVotes, ProposersOf, TriedOf, TargetsOf, StableOf, Stable;
    AtFacts(cfg, s, u);
    AbsAt(cfg, s, u);
    AbsUpdate(cfg, s, s', u, m');
    assert C.Commits(cfg.core, Abs(cfg, s), Abs(cfg, s'), u, Stable(cfg, m'));
    CS.CommitKeepsInv(cfg.core, Abs(cfg, s), Abs(cfg, s'), u, Stable(cfg, m'));
  }

  /** u's acceptor has sent promises and permits that its stable triple stands for. */
  ghost predicate Stands(cfg: Setup, s: Cluster, u: Uid, promise: PromiseMessage) {
    && u in s.members && promise.from == u
    && var t := Stable(cfg, s.members[u]);
    && promise.id == t.promised && promise.id != NO_ID
    && promise.prevId == t.accepted && promise.prevValue == t.value
  }

  lemma ReplyStep(
    cfg: Setup, s: Cluster, s': Cluster, u: Uid, promises: set<PromiseMessage>, permits: set<PermitMessage>)
    requires cfg.Valid() && C.Inv(cfg.core, Abs(cfg, s))
    requires promises == {} || exists p :: promises == {p} && Stands(cfg, s, u, p)
    requires permits == {} || exists p :: permits == {p} && C.Vote(p.from, p.id, p.value) in s.votes
    requires Abs(cfg, s') == Abs(cfg, s).(promises := s.net.promises + promises, permits := s.net.permits + permits)
    ensures CoreStep(cfg, s, s')
  {
    hide C.Inv, CS.Grows, ProposersOf, TriedOf, TargetsOf, StableOf;
    var a, b := Abs(cfg, s), Abs(cfg, s');
    var t := a.(promises := a.promises + promises);
    if promises == {} {
      assert t == a;
      StutterKeepsInv(cfg.core, a);
    } else {
      var p :| promises == {p} && Stands(cfg, s, u, p);
      AbsAt(cfg, s, u);
      CS.PromiseKeepsInv(cfg.core, a, t, p);
    }
    if permits == {} {
      assert b == t;
    } else {
      var p :| permits == {p} && C.Vote(p.from, p.id, p.value) in s.votes;
      CS.PermitKeepsInv(cfg.core, t, b, p);
      GrowsTransitive(a, t, b);
    }
  }

  predicate AtAcceptor(e: Event) {
    e.GetPrepare? || e.GetAccept?
  }

  /** What the acceptor itself does with a request. */
  function AcceptorPart(m: Member, e: Event): (AcceptorState, seq<Effect>)
    requires AtAcceptor(e)
  {
    match e
    case GetPrepare(p, now) => m.node.acceptor.ReceivePrepare(p.from, p.id, now)
    case GetAccept(p) => m.node.acceptor.ReceiveAcceptRequest(p.from, p.id, p.value)
  }

  /** An acceptor either moves in memory and says nothing the core sees, or stays and replies with
      at most one message. */
  lemma AcceptorEffect(cfg: Setup, s: Cluster, u: Uid, e: Event)
    requires u in s.members && AtAcceptor(e)
    ensures var s' := After(cfg, s, u, e);
            var m, m' := s.members[u], s'.members[u];
            && m' == m.(node := m.node.(acceptor := AcceptorPart(m, e).0))
            && s'.members == s.members[u := m'] && s'.inputs == s.inputs
            && s'.votes == s.votes + C.NewVotes(u, Stable(cfg, m), Stable(cfg, m'))
            && |AcceptorPart(m, e).1| <= 1
            && s'.net == if AcceptorPart(m, e).1 == [] then s.net else m.server.Post(s.net, AcceptorPart(m, e).1[0]).1
  {
    hide ProposalId.Compare, ServerState.Post, C.NewVotes, Stable;
    var m := s.members[u];
    var effects := AcceptorPart(m, e).1;
    assert React(cfg, m, e) == (m.node.(acceptor := AcceptorPart(m, e).0), effects);
    if effects != [] {
      assert effects == [effects[0]];
      PostOne(m.server, s.net, effects[0]);
      ReplyLeavesServer(m.server, s.net, effects[0]);
      TriedUnlessPrepared(m.lastTried, effects);
    }
  }

  lemma ReplyLeavesServer(server: ServerState, net: Network, e: Effect)
    ensures !e.SendPrepare? ==> server.Post(net, e).0 == server
    ensures Quiet(e) ==> SameCore(net, server.Post(net, e).1)
  {
  }

  /** Where the acceptor's triple goes and what it says, given its present triple. */
  lemma AcceptorMoves(a: C.State, u: Uid, base: Triple, m: Member, e: Event)
    requires AtAcceptor(e)
    requires C.MayBecome(a, u, base, m.node.acceptor.triple)
    requires m.node.acceptor.triple.promised == NO_ID || m.node.acceptor.triple.promised.IsValid()
    requires e.GetPrepare? ==> C.Known(a, e.prepare.id) && C.Reached(a, u, e.prepare.id)
    requires e.GetAccept? ==> C.Known(a, e.accept.id) && C.Requested(a, u, e.accept.id, e.accept.value)
    ensures C.MayBecome(a, u, base, AcceptorPart(m, e).0.triple)
  {
    hide C.MayBecome, C.Known, C.Reached, C.Requested, ProposalId.Compare, ProposalId.Lt, ProposalId.Gt, ProposalId.Eq;
    var t := m.node.acceptor.triple;
    if e.GetPrepare? {
      OrderIsStrictAndTotal(e.prepare.id, t.promised);
      if AcceptorPart(m, e).0.triple != t {
        PrepareMayBecome(a, u, base, t, e.prepare.id);
      }
    } else {
      OrderIsStrictAndTotal(e.accept.id, t.promised);
      OrderIsStrictAndTotal(t.promised, e.accept.id);
      if AcceptorPart(m, e).0.triple != t {
        AcceptMayBecome(a, u, base, t, e.accept.id, e.accept.value);
      }
    }
  }

  lemma RequestFacts(cfg: Setup, s: Cluster, u: Uid, e: Event)
    requires At(cfg, s, u) && Enabled(cfg, s, u, e) && AtAcceptor(e)
    ensures e.GetPrepare? ==> C.Known(Abs(cfg, s), e.prepare.id) && C.Reached(Abs(cfg, s), u, e.prepare.id)
    ensures e.GetAccept? ==>
              C.Known(Abs(cfg, s), e.accept.id) && C.Requested(Abs(cfg, s), u, e.accept.id, e.accept.value)
  {
    hide At, C.Inv, C.Known, C.Reached, C.Requested, ProposersOf, TriedOf, TargetsOf, StableOf;
    AtFacts(cfg, s, u);
    if e.GetPrepare? {
      PrepareReaches(cfg.core, Abs(cfg, s), e.prepare, u);
    } else {
      AcceptReaches(cfg.core, Abs(cfg, s), e.accept, u);
    }
  }

  /** The acceptor replied, so it stayed put, and if the reply matters it is one the stable triple
      stands for. */
  lemma RepliesStand(cfg: Setup, s: Cluster, u: Uid, e: Event)
    requires u in s.members && AtAcceptor(e) && Enabled(cfg, s, u, e)
    requires AcceptorPart(s.members[u], e).1 != []
    ensures var m := s.members[u];
            var x := AcceptorPart(m, e).1[0];
            && AcceptorPart(m, e).0.triple == m.node.acceptor.triple
            && (Quiet(x) || (e.GetPrepare? && x.SendPromise?) || (e.GetAccept? && x.SendPermit?))
            && (x.SendPromise? ==> Stands(cfg, s, u, PromiseMessage(u, x.to, x.id, x.prevId, x.prevValue)))
            && (x.SendPermit? ==> Stable(cfg, m).accepted == x.id && Stable(cfg, m).value == x.value && x.id != NO_ID)
  {
    var m := s.members[u];
    if e.GetPrepare? {
      OrderIsStrictAndTotal(e.prepare.id, m.node.acceptor.triple.promised);
    } else {
      OrderIsStrictAndTotal(e.accept.id, m.node.acceptor.triple.accepted);
    }
    hide ProposalId.Compare;
  }

  lemma StableVote(c: C.Config, a: C.State, u: Uid)
    requires C.AcceptorOk(a, u) && a.stable[u].accepted != NO_ID
    ensures C.Vote(u, a.stable[u].accepted, a.stable[u].value) in a.votes
  {
  }

  lemma AcceptorReplies(cfg: Setup, s: Cluster, s': Cluster, u: Uid, e: Event)
    requires At(cfg, s, u) && Step(cfg, s, s', u, e) && AtAcceptor(e)
    requires AcceptorPart(s.members[u], e).1 != []
    ensures CoreStep(cfg, s, s')
  {
    hide At, C.Inv, CS.Grows, After, React, ProposersOf, TriedOf, TargetsOf, StableOf, Stable, Stands, Enabled,
      AcceptorPart, C.AcceptorOk;
    AtFacts(cfg, s, u);
    AcceptorEffect(cfg, s, u, e);
    RepliesStand(cfg, s, u, e);
    AbsAt(cfg, s, u);
    StablePromised(cfg.core, Abs(cfg, s), u);
    var m, m' := s.members[u], s'.members[u];
    var x := AcceptorPart(m, e).1[0];
    SameStable(cfg, m, m');
    AbsUpdate(cfg, s, s', u, m');
    var promises := s'.net.promises - s.net.promises;
    var permits := s'.net.permits - s.net.permits;
    if x.SendPermit? {
      StableVote(cfg.core, Abs(cfg, s), u);
    }
    PostedReply(m.server, s.net, x);
    assert s'.net.promises == s.net.promises + promises;
    assert s'.net.permits == s.net.permits + permits;
    assert s'.votes == s.votes;
    ReplyStep(cfg, s, s', u, promises, permits);
  }

  /** Posting one reply adds at most that one message. */
  lemma PostedReply(server: ServerState, net: Network, x: Effect)
    requires Quiet(x) || x.SendPromise? || x.SendPermit?
    ensures var net' := server.Post(net, x).1;
            && net'.prepares == net.prepares && net'.accepts == net.accepts
            && net.promises <= net'.promises && net.permits <= net'.permits
            && (net'.promises - net.promises == {}
                || (x.SendPromise? && net'.promises - net.promises
                                        == {PromiseMessage(server.uid, x.to, x.id, x.prevId, x.prevValue)}))
            && (net'.permits - net.permits == {}
                || (x.SendPermit? && net'.permits - net.permits
                                       == {PermitMessage(server.uid, x.to, x.id, x.value)}))
  {
  }

  lemma AcceptorSilent(cfg: Setup, s: Cluster, s': Cluster, u: Uid, e: Event)
    requires At(cfg, s, u) && Step(cfg, s, s', u, e) && AtAcceptor(e)
    requires AcceptorPart(s.members[u], e).1 == []
    ensures CoreStep(cfg, s, s')
  {
    hide At, C.Inv, CS.Grows, After, React, ProposersOf, TriedOf, TargetsOf, StableOf, Stands, Enabled, AcceptorPart,
      C.AcceptorOk, C.MayBecome;
    AtFacts(cfg, s, u);
    AcceptorEffect(cfg, s, u, e);
    RequestFacts(cfg, s, u, e);
    MemoryFacts(cfg, s, u);
    var m, m' := s.members[u], s'.members[u];
    if cfg.durable {
      MayBecomeSelf(Abs(cfg, s), u, m.saved);
    } else {
      AcceptorMoves(Abs(cfg, s), u, m.node.acceptor.triple, m, e);
    }
    MoveStep(cfg, s, s', u, m');
  }

  lemma AcceptorEvent(cfg: Setup, s: Cluster, s': Cluster, u: Uid, e: Event)
    requires At(cfg, s, u) && Step(cfg, s, s', u, e) && AtAcceptor(e)
    ensures CoreStep(cfg, s, s')
  {
    hide At, Step, CoreStep, AcceptorPart;
    assert u in s.members by { StepAt(cfg, s, s', u, e); }
    if AcceptorPart(s.members[u], e).1 == [] {
      AcceptorSilent(cfg, s, s', u, e);
    } else {
      AcceptorReplies(cfg, s, s', u, e);
    }
  }

  lemma StepAt(cfg: Setup, s: Cluster, s': Cluster, u: Uid, e: Event)
    requires Step(cfg, s, s', u, e)
    ensures u in s.members && Enabled(cfg, s, u, e) && s' == After(cfg, s, u, e)
  {
    hide After;
  }

  // ----- saving, flushing and crashing

  /** What persisted() adds to the network. */
  lemma FlushPosts(server: ServerState, net: Network, a: AcceptorState)
    ensures var (server', net') := server.PostAll(net, a.Persisted().1);
            && server' == server
            && net' == net.(promises := net'.promises, permits := net'.permits)
            && net.promises <= net'.promises && net.permits <= net'.permits
            && (net'.promises - net.promises == {}
                || (a.pendingPromise != ""
                    && net'.promises - net.promises
                         == {PromiseMessage(server.uid, a.pendingPromise,
                                            a.triple.promised, a.triple.accepted, a.triple.value)}))
            && (net'.permits - net.permits == {}
                || (a.pendingAccept != ""
                    && net'.permits - net.permits
                         == {PermitMessage(server.uid, a.pendingAccept, a.triple.accepted, a.triple.value)}))
  {
    hide ServerState.PostAll, ServerState.Post;
    var t := a.triple;
    var p := SendPromise(a.pendingPromise, t.promised, t.accepted, t.value);
    var q := SendPermit(a.pendingAccept, t.accepted, t.value);
    var ps := if a.active && a.pendingPromise != "" then [p] else [];
    var qs := if a.active && a.pendingAccept != "" then [q] else [];
    assert a.Persisted().1 == ps + qs;
    PostUpToTwo(server, net, p, q, ps, qs);
  }

  lemma PostUpToTwo(server: ServerState, net: Network, p: Effect, q: Effect, ps: seq<Effect>, qs: seq<Effect>)
    requires p.SendPromise? && q.SendPermit?
    requires (ps == [] || ps == [p]) && (qs == [] || qs == [q])
    ensures var (server', net') := server.PostAll(net, ps + qs);
            && server' == server
            && net' == net.(promises := net'.promises, permits := net'.permits)
            && net.promises <= net'.promises && net.permits <= net'.permits
            && (net'.promises - net.promises == {}
                || (ps == [p] && net'.promises - net.promises
                                   == {PromiseMessage(server.uid, p.to, p.id, p.prevId, p.prevValue)}))
            && (net'.permits - net.permits == {}
                || (qs == [q] && net'.permits - net.permits == {PermitMessage(server.uid, q.to, q.id, q.value)}))
  {
    PostOne(server, net, p);
    PostOne(server, net, q);
    if ps == [] {
      assert ps + qs == qs;
    } else if qs == [] {
      assert ps + qs == ps;
    } else {
      var net1 := server.Post(net, p).1;
      assert ps + qs == [p, q] && [p, q][1..] == [q];
      PostOne(server, net1, q);
    }
  }

  lemma {:induction false} FlushHasNoPrepare(a: AcceptorState)
    ensures forall i :: 0 <= i < |a.Persisted().1| ==> !a.Persisted().1[i].SendPrepare?
  {
  }

  lemma PersistedEvent(cfg: Setup, s: Cluster, s': Cluster, u: Uid, e: Event)
    requires At(cfg, s, u) && Step(cfg, s, s', u, e) && e.Persisted?
    ensures CoreStep(cfg, s, s')
  {
    hide At, C.Inv, CS.Grows, ProposersOf, TriedOf, TargetsOf, StableOf, C.AcceptorOk, ServerState.PostAll, TriedAfter,
      AcceptorState.Persisted;
    AtFacts(cfg, s, u);
    AbsAt(cfg, s, u);
    StablePromised(cfg.core, Abs(cfg, s), u);
    var m, m' := s.members[u], s'.members[u];
    var a := m.node.acceptor;
    PendingIsReal(cfg, s, u);
    FlushPosts(m.server, s.net, a);
    FlushHasNoPrepare(a);
    TriedUnlessPrepared(m.lastTried, a.Persisted().1);
    FlushKeepsTriple(a);
    AbsUpdate(cfg, s, s', u, m');
    if a.pendingAccept != "" {
      StableVote(cfg.core, Abs(cfg, s), u);
    }
    var promises := s'.net.promises - s.net.promises;
    var permits := s'.net.permits - s.net.permits;
    assert s'.net.promises == s.net.promises + promises;
    assert s'.net.permits == s.net.permits + permits;
    ReplyStep(cfg, s, s', u, promises, permits);
  }

  lemma FlushKeepsTriple(a: AcceptorState)
    ensures a.Persisted().0 == a.(pendingPromise := "", pendingAccept := "")
  {
  }

  lemma PendingIsReal(cfg: Setup, s: Cluster, u: Uid)
    requires At(cfg, s, u)
    ensures var a := s.members[u].node.acceptor;
            && (a.pendingPromise != "" ==> a.triple.promised != NO_ID)
            && (a.pendingAccept != "" ==> a.triple.accepted != NO_ID)
  {
    hide C.Inv, C.MayBecome;
  }

  lemma SaveEvent(cfg: Setup, s: Cluster, s': Cluster, u: Uid, e: Event)
    requires At(cfg, s, u) && Step(cfg, s, s', u, e) && e.Save?
    ensures CoreStep(cfg, s, s')
  {
    hide At, C.Inv, CS.Grows, ProposersOf, TriedOf, TargetsOf, StableOf, C.MayBecome, C.NewVotes;
    AtFacts(cfg, s, u);
    MemoryFacts(cfg, s, u);
    MoveStep(cfg, s, s', u, s'.members[u]);
  }

  predicate CoreIdle(e: Event) {
    e.Crash? || e.GetPermit? || e.ChangePeers?
  }

  lemma IdleEvent(cfg: Setup, s: Cluster, s': Cluster, u: Uid, e: Event)
    requires At(cfg, s, u) && Step(cfg, s, s', u, e) && CoreIdle(e)
    ensures CoreStep(cfg, s, s')
  {
    hide At, C.Inv, CS.Grows, ProposersOf, TriedOf, TargetsOf, StableOf, LearnerState.ReceiveAccepted,
      ServerState.PostAll, TriedAfter;
    AtFacts(cfg, s, u);
    IdlePosts(cfg, s, u, e);
    var m, m' := s.members[u], s'.members[u];
    AbsUpdate(cfg, s, s', u, m');
    assert s'.votes == s.votes;
    StutterStep(cfg, s, s');
  }

  /** Resolution is announced locally only. */
  lemma IdlePosts(cfg: Setup, s: Cluster, u: Uid, e: Event)
    requires u in s.members && CoreIdle(e)
    ensures var effects := React(cfg, s.members[u], e).1;
            && s.members[u].server.PostAll(s.net, effects) == (s.members[u].server, s.net)
            && TriedAfter(s.members[u].lastTried, effects) == s.members[u].lastTried
  {
    var m := s.members[u];
    var effects := React(cfg, m, e).1;
    assert effects == [] || (|effects| == 1 && effects == [effects[0]] && effects[0].OnResolution?);
    if effects != [] {
      PostOne(m.server, s.net, effects[0]);
      TriedUnlessPrepared(m.lastTried, effects);
    }
  }

  /** Every event of the cluster is a step of the consensus core: it keeps the core's invariant
      and only adds to its history. */
  lemma EventIsCoreStep(cfg: Setup, s: Cluster, s': Cluster, u: Uid, e: Event)
    requires At(cfg, s, u) && Step(cfg, s, s', u, e)
    ensures CoreStep(cfg, s, s')
  {
    hide At, Step, CoreStep;
    if MayOpen(e) { OpeningEvent(cfg, s, s', u, e); }
    else if MaySendAccept(e) { RoundEvent(cfg, s, s', u, e); }
    else if OnlyTells(e) { TellEvent(cfg, s, s', u, e); }
    else if AtAcceptor(e) { AcceptorEvent(cfg, s, s', u, e); }
    else if e.Persisted? { PersistedEvent(cfg, s, s', u, e); }
    else if e.Save? { SaveEvent(cfg, s, s', u, e); }
    else { IdleEvent(cfg, s, s', u, e); }
  }
}
