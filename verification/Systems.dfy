/** The whole cluster as a state machine: each node with its server, the network, and the events
    that can happen to a node. */
module Systems {
  import opened ProposalIds
  import opened Messages
  import opened Acceptors
  import opened Proposers
  import opened Learners
  import opened Nodes
  import opened Servers
  import C = Consensus

  /** durable = false: no crashes, replies as the code gives them.
      durable = true: acceptors are always active, save their triple to disk and may crash at any
      point; a request that would be answered at once waits while the answer is not on disk. */
  datatype Setup = Setup(
    core: C.Config,
    durable: bool,
    heartbeatTimeout: nat,
    livenessWindow: nat)
  {
    predicate Valid() {
      core.Valid()
    }
  }

  datatype Member = Member(
    node: NodeState,
    server: ServerState,
    saved: Triple,             // on disk
    lastTried: ProposalId,     // history: the ballot prepared last
    log: seq<Report>)          // history: the permits the learner was given, in order

  datatype Cluster = Cluster(
    members: map<Uid, Member>,
    net: Network,
    votes: set<C.Vote>,        // history
    inputs: set<Value>)        // history

  datatype Event =
    | PollLiveness(now: nat)
    | AcquireLeadership(now: nat)
    | Pulse(now: nat)
    | PrepareNow
    | GetPrepare(prepare: PrepareMessage, now: nat)
    | GetPromise(promise: PromiseMessage, now: nat)
    | GetAccept(accept: AcceptMessage)
    | GetPermit(permit: PermitMessage, blank: Tally)
    | GetPrepareAck(prepareAck: PrepareAckMessage)
    | GetAcceptAck(acceptAck: AcceptAckMessage)
    | GetHeartbeat(heartbeat: HeartbeatMessage, now: nat)
    | SetProposal(value: Value)
    | ResendAccept
    | SetActive(active: bool)
    | Save
    | Persisted
    | Crash(now: nat)
    | ChangePeers(peers: seq<Uid>)

  /** What an acceptor will not go back on: its memory, or its disk if it may crash. */
  function Stable(cfg: Setup, m: Member): Triple {
    if cfg.durable then m.saved else m.node.acceptor.triple
  }

  // ----- when an event may happen

  /** The prepare would be answered at once with the acceptor's present triple. */
  predicate AnswersPrepareAtOnce(a: AcceptorState, id: ProposalId) {
    a.triple.promised.IsValid() && id.Eq(a.triple.promised)
  }

  /** The accept request would be answered at once with the acceptor's present vote. */
  predicate AnswersAcceptAtOnce(a: AcceptorState, id: ProposalId, value: Value) {
    a.triple.accepted.IsValid() && id.Eq(a.triple.accepted) && a.triple.value == value
  }

  /** The vote in memory is the one on disk. */
  predicate VoteSaved(m: Member) {
    m.saved.accepted == m.node.acceptor.triple.accepted && m.saved.value == m.node.acceptor.triple.value
  }

  /** A peer table lists other nodes, in order. */
  ghost predicate GoodPeers(cfg: Setup, u: Uid, peers: seq<Uid>) {
    && Ascending(peers)
    && (forall x <- peers :: x in cfg.core.nodes && x != u)
  }

  ghost predicate Enabled(cfg: Setup, s: Cluster, u: Uid, e: Event) {
    && u in s.members
    && var m := s.members[u];
    && var r := m.node.proposer;
    match e
    case PollLiveness(_) => r.ballot.number < MAX_NUMBER
    case AcquireLeadership(_) => r.ballot.number < MAX_NUMBER
    case Pulse(_) => true
    case PrepareNow => r.ballot.number < MAX_NUMBER
    case GetPrepare(p, _) =>
      && p in s.net.prepares && u in p.to
      && (cfg.durable && AnswersPrepareAtOnce(m.node.acceptor, p.id) ==> m.saved == m.node.acceptor.triple)
    case GetPromise(p, _) => p in s.net.promises
    case GetAccept(p) =>
      && p in s.net.accepts && u in p.to
      && (cfg.durable && AnswersAcceptAtOnce(m.node.acceptor, p.id, p.value) ==> VoteSaved(m))
    case GetPermit(p, _) => p in s.net.permits
    case GetPrepareAck(p) => p in s.net.prepareAcks && r.ReceiveNack(p.promised).ballot.number < MAX_NUMBER
    case GetAcceptAck(p) => p in s.net.acceptAcks
    case GetHeartbeat(p, _) => p in s.net.heartbeats
    case SetProposal(v) => v != "" && (r.SetProposal(v).1 != [] ==> r.ballot == m.lastTried)
    case ResendAccept => r.ResendAccept() != [] ==> r.ballot == m.lastTried
    case SetActive(active) => cfg.durable ==> active
    case Save => cfg.durable
    case Persisted => cfg.durable ==> m.saved == m.node.acceptor.triple
    case Crash(_) => cfg.durable
    case ChangePeers(peers) => GoodPeers(cfg, u, peers)
  }

  // ----- what an event does

  function Hear(cfg: Setup, n: NodeState, m: PermitMessage, blank: Tally): (NodeState, seq<Effect>) {
    var (l, effects) := n.learner.ReceiveAccepted(cfg.core.quorumSize, Report(m.from, m.id, m.value, blank));
    (n.(learner := l), effects)
  }

  /** The handler an event runs, and what it sends. */
  function React(cfg: Setup, m: Member, e: Event): (NodeState, seq<Effect>) {
    var n := m.node;
    match e
    case PollLiveness(now) => n.PollLiveness(cfg.heartbeatTimeout, cfg.livenessWindow, now)
    case AcquireLeadership(now) => n.AcquireLeadership(cfg.heartbeatTimeout, now)
    case Pulse(now) => n.Pulse(now)
    case PrepareNow => n.Prepare(true)
    case GetPrepare(p, now) => n.ReceivePrepare(p.from, p.id, now)
    case GetPromise(p, now) => n.ReceivePromise(p.from, p.id, p.prevId, p.prevValue, now)
    case GetAccept(p) =>
      var (a, effects) := n.acceptor.ReceiveAcceptRequest(p.from, p.id, p.value);
      (n.(acceptor := a), effects)
    case GetPermit(p, blank) => Hear(cfg, n, p, blank)
    case GetPrepareAck(p) => n.ReceivePrepareNack(p.from, p.id, p.promised)
    case GetAcceptAck(p) => n.ReceiveAcceptNack(p.from, p.id, p.promised)
    case GetHeartbeat(p, now) => n.ReceiveHeartbeat(p.leaderUid, p.leaderId, now)
    case SetProposal(v) =>
      var (p, effects) := n.proposer.SetProposal(v);
      (n.(proposer := p), effects)
    case ResendAccept => (n, n.proposer.ResendAccept())
    case SetActive(active) => (n.SetActive(active), [])
    case Save => (n, [])
    case Persisted =>
      var (a, effects) := n.acceptor.Persisted();
      (n.(acceptor := a), effects)
    case Crash(now) => (n.(acceptor := NewAcceptor(true, now).Recover(m.saved), learner := NEW_LEARNER), [])
    case ChangePeers(_) => (n, [])
  }

  function TriedAfter(tried: ProposalId, effects: seq<Effect>): ProposalId
    decreases |effects|
  {
    if effects == [] then tried
    else TriedAfter(if effects[0].SendPrepare? then effects[0].id else tried, effects[1..])
  }

  function LogAfter(log: seq<Report>, e: Event): seq<Report> {
    match e
    case GetPermit(p, blank) => log + [Report(p.from, p.id, p.value, blank)]
    case Crash(_) => []
    case _ => log
  }

  function After(cfg: Setup, s: Cluster, u: Uid, e: Event): Cluster
    requires u in s.members
  {
    var m := s.members[u];
    var (n, effects) := React(cfg, m, e);
    var (server, net) := m.server.PostAll(s.net, effects);
    var m' := Member(
      n,
      if e.ChangePeers? then server.(peers := e.peers) else server,
      if e.Save? then m.node.acceptor.triple else m.saved,
      TriedAfter(m.lastTried, effects),
      LogAfter(m.log, e));
    Cluster(s.members[u := m'],
            net,
            s.votes + C.NewVotes(u, Stable(cfg, m), Stable(cfg, m')),
            if e.SetProposal? then s.inputs + {e.value} else s.inputs)
  }

  ghost predicate Step(cfg: Setup, s: Cluster, s': Cluster, u: Uid, e: Event) {
    Enabled(cfg, s, u, e) && s' == After(cfg, s, u, e)
  }

  ghost predicate Next(cfg: Setup, s: Cluster, s': Cluster) {
    exists u, e :: Step(cfg, s, s', u, e)
  }

  ghost predicate FreshMember(cfg: Setup, u: Uid, m: Member) {
    && (exists active: bool, now: nat ::
          m.node == NewNode(u, cfg.core.quorumSize, active, now, "") && (cfg.durable ==> active))
    && GoodPeers(cfg, u, m.server.peers)
    && m.server == ServerState(u, cfg.core.quorumSize, m.server.peers, "", {})
    && m.saved == NO_TRIPLE && m.lastTried == ProposalId(0, u) && m.log == []
  }

  ghost predicate Init(cfg: Setup, s: Cluster) {
    && s.members.Keys == cfg.core.nodes
    && (forall u <- s.members :: FreshMember(cfg, u, s.members[u]))
    && s.net == EMPTY_NETWORK && s.votes == {} && s.inputs == {}
  }

  // ----- the cluster seen as the consensus core

  function ProposersOf(ms: map<Uid, Member>): map<Uid, ProposerState> {
    map u | u in ms :: ms[u].node.proposer
  }

  function TriedOf(ms: map<Uid, Member>): map<Uid, ProposalId> {
    map u | u in ms :: ms[u].lastTried
  }

  function TargetsOf(ms: map<Uid, Member>): map<Uid, set<Uid>> {
    map u | u in ms :: ms[u].server.majority
  }

  function StableOf(cfg: Setup, ms: map<Uid, Member>): map<Uid, Triple> {
    map u | u in ms :: Stable(cfg, ms[u])
  }

  function Abs(cfg: Setup, s: Cluster): C.State {
    C.State(
      ProposersOf(s.members), TriedOf(s.members), TargetsOf(s.members), StableOf(cfg, s.members),
      s.net.prepares, s.net.promises, s.net.accepts, s.net.permits,
      s.votes, s.inputs)
  }

  // ----- invariant

  /** A server knows its node and the quorum size, lists other nodes, and has no last acceptor:
      nothing ever records one. */
  ghost predicate ServerOk(cfg: Setup, u: Uid, server: ServerState) {
    && server.uid == u && server.quorumSize == cfg.core.quorumSize && server.maxChosen == ""
    && GoodPeers(cfg, u, server.peers)
  }

  /** Memory is ahead of disk only by what a commit may add, and only while replies are pending. */
  ghost predicate AcceptorOk(cfg: Setup, s: Cluster, u: Uid) {
    && u in s.members
    && var a := s.members[u].node.acceptor;
    && (a.pendingPromise != "" ==> a.triple.promised != NO_ID)
    && (a.pendingAccept != "" ==> a.triple.accepted != NO_ID)
    && (cfg.durable ==>
          && a.active
          && C.MayBecome(Abs(cfg, s), u, s.members[u].saved, a.triple)
          && (!a.PersistenceRequired() ==> a.triple == s.members[u].saved))
  }

  ghost predicate LearnerOk(cfg: Setup, s: Cluster, u: Uid) {
    && u in s.members
    && s.members[u].node.learner == Run(cfg.core.quorumSize, s.members[u].log)
    && forall r <- s.members[u].log :: C.Vote(r.from, r.id, r.value) in s.votes
  }

  /** Every member of acceptNacks refused the ballot the node prepared last. */
  ghost predicate NacksOk(s: Cluster, u: Uid) {
    && u in s.members
    && forall a <- s.members[u].node.acceptNacks ::
         exists m <- s.net.acceptAcks :: m.from == a && m.id == s.members[u].lastTried
  }

  /** A refusal names a ballot that was prepared, and without crashes the refuser stands by it. */
  ghost predicate RefusalOk(cfg: Setup, s: Cluster, m: AcceptAckMessage) {
    && C.Known(Abs(cfg, s), m.id)
    && m.from in s.members
    && (!cfg.durable ==> m.id.Lt(s.members[m.from].node.acceptor.triple.promised))
  }

  ghost predicate SendersNamed(s: Cluster) {
    && (forall m <- s.net.prepares :: m.from != "")
    && (forall m <- s.net.accepts :: m.from != "")
  }

  ghost predicate SystemInv(cfg: Setup, s: Cluster) {
    && s.members.Keys == cfg.core.nodes
    && C.Inv(cfg.core, Abs(cfg, s))
    && (forall u <- s.members :: ServerOk(cfg, u, s.members[u].server))
    && (forall u <- s.members :: AcceptorOk(cfg, s, u))
    && (forall u <- s.members :: LearnerOk(cfg, s, u))
    && (forall u <- s.members :: NacksOk(s, u))
    && (forall m <- s.net.acceptAcks :: RefusalOk(cfg, s, m))
    && SendersNamed(s)
  }
}
