/** Two runs of three nodes: one in which the learner as written learns, so the theorems about runs are
    about something, and one in which learners disagree, because default-constructed counts are
    mistaken for reports. */
module Witness {
  import opened ProposalIds
  import opened Messages
  import opened Acceptors
  import opened Proposers
  import opened Learners
  import opened Nodes
  import opened Servers
  import opened Systems
  import opened SystemSteps
  import opened SystemInvariant
  import opened Theorems
  import C = Consensus
  import CS = ConsensusSteps

  /** Three nodes, each a proposer, an acceptor and a learner, with or without crashes. */
  datatype Trio = Trio(a: Uid, b: Uid, c: Uid, durable: bool) {
    predicate Valid() {
      a != "" && b != "" && c != "" && UidLess(a, b) && UidLess(b, c) && UidLess(a, c) && a != b && b != c && a != c
    }

    function Setup(): Systems.Setup {
      Systems.Setup(C.Config({a, b, c}, 2), durable, 0, 0)
    }

    function Peers(u: Uid): seq<Uid> {
      if u == a then [b, c] else if u == b then [a, c] else [a, b]
    }

    /** x and y are the other two. */
    predicate Others(u: Uid, x: Uid, y: Uid) {
      u in {a, b, c} && x in Peers(u) && y in Peers(u) && x != y
    }

    function Fresh(u: Uid): Member {
      Member(NewNode(u, 2, true, 0, ""), ServerState(u, 2, Peers(u), "", {}), NO_TRIPLE, ProposalId(0, u), [])
    }

    function Start(): Cluster {
      Cluster(map[a := Fresh(a), b := Fresh(b), c := Fresh(c)], EMPTY_NETWORK, {}, {})
    }
  }

  // ----- what a run is followed by

  datatype Part = Part(proposer: ProposerState, log: seq<Report>, triple: Triple, majority: set<Uid>)

  function PartOf(m: Member): Part {
    Part(m.node.proposer, m.log, m.node.acceptor.triple, m.server.majority)
  }

  /** Between turns: the acceptor holds nothing back, and the server is as configured. */
  predicate Rests(t: Trio, u: Uid, m: Member) {
    && m.node.acceptor.active && !m.node.acceptor.PersistenceRequired()
    && m.server == ServerState(u, 2, t.Peers(u), "", m.server.majority)
  }

  ghost predicate Looks(t: Trio, s: Cluster, v: map<Uid, Part>) {
    && v.Keys == {t.a, t.b, t.c} && s.members.Keys == v.Keys
    && forall u <- v :: Rests(t, u, s.members[u]) && PartOf(s.members[u]) == v[u]
  }

  ghost predicate Reachable(cfg: Setup, s: Cluster) {
    exists b :: IsRun(cfg, b) && b[|b| - 1] == s
  }

  /** A run leads to s, and s looks like v. */
  ghost predicate Arrived(t: Trio, s: Cluster, v: map<Uid, Part>) {
    Reachable(t.Setup(), s) && Looks(t, s, v)
  }

  lemma RunTo(cfg: Setup, s: Cluster) returns (b: seq<Cluster>)
    requires Reachable(cfg, s)
    ensures IsRun(cfg, b) && |b| > 0 && b[|b| - 1] == s
  {
    b :| IsRun(cfg, b) && b[|b| - 1] == s;
  }

  lemma ReachNext(cfg: Setup, s: Cluster, s': Cluster, u: Uid, e: Event)
    requires Reachable(cfg, s) && Step(cfg, s, s', u, e)
    ensures Reachable(cfg, s')
  {
    hide Step, Init;
    var b :| IsRun(cfg, b) && b[|b| - 1] == s;
    var next := b + [s'];
    forall i | 0 <= i < |next| - 1 ensures Next(cfg, next[i], next[i + 1]) {
      if i < |b| - 1 { assert Next(cfg, b[i], b[i + 1]); }
    }
    assert IsRun(cfg, next) && next[|next| - 1] == s';
  }

  /** One more event. */
  lemma Take(t: Trio, s: Cluster, u: Uid, e: Event) returns (s': Cluster)
    requires Reachable(t.Setup(), s) && u in s.members && Enabled(t.Setup(), s, u, e)
    ensures s' == After(t.Setup(), s, u, e)
    ensures Step(t.Setup(), s, s', u, e) && Reachable(t.Setup(), s') && Follows(t.Setup(), s, s', u, e)
    ensures u in s'.members && s'.members == s.members[u := s'.members[u]] && NetGrows(s.net, s'.net)
  {
    hide Enabled, After, Reachable, React;
    s' := After(t.Setup(), s, u, e);
    assert Step(t.Setup(), s, s', u, e);
    StepFollows(t.Setup(), s, s', u, e);
    ReachNext(t.Setup(), s, s', u, e);
  }

  lemma SameLog(cfg: Setup, s: Cluster, s': Cluster, u: Uid, e: Event)
    requires Follows(cfg, s, s', u, e) && !e.GetPermit? && !e.Crash?
    ensures s'.members[u].log == s.members[u].log
    ensures !TouchesAcceptor(e) && !e.SetActive? ==> s'.members[u].node.acceptor == s.members[u].node.acceptor
  {
    hide React, NetGrows, PostedBy;
    RolesTouched(cfg, s.members[u], e);
  }

  lemma PartLooks(t: Trio, s: Cluster, v: map<Uid, Part>, u: Uid)
    requires Looks(t, s, v) && u in v
    ensures u in s.members && Rests(t, u, s.members[u]) && PartOf(s.members[u]) == v[u]
  {
    hide Rests, PartOf;
  }

  lemma PartMoves(t: Trio, s: Cluster, s': Cluster, v: map<Uid, Part>, u: Uid)
    requires Looks(t, s, v) && u in v && u in s'.members && s'.members == s.members[u := s'.members[u]]
    requires Rests(t, u, s'.members[u])
    ensures Looks(t, s', v[u := PartOf(s'.members[u])])
  {
    hide Rests, PartOf;
  }

  lemma NetGrowsTransitive(x: Network, y: Network, z: Network)
    requires NetGrows(x, y) && NetGrows(y, z)
    ensures NetGrows(x, z)
  {
  }

  // ----- the turns of a run

  lemma Begin(t: Trio) returns (s: Cluster, v: map<Uid, Part>)
    requires t.Valid()
    ensures Arrived(t, s, v) && v.Keys == {t.a, t.b, t.c}
    ensures forall u <- v :: v[u] == Part(NewProposer(u, 2, true), [], NO_TRIPLE, {})
  {
    hide Looks, Reachable, PartOf, UidLess;
    s := t.Start();
    v := map u | u in {t.a, t.b, t.c} :: PartOf(t.Fresh(u));
    StartIsReachable(t);
    StartLooks(t, v);
    forall u <- v ensures v[u] == Part(NewProposer(u, 2, true), [], NO_TRIPLE, {}) {
      FreshRests(t, u);
    }
  }

  lemma StartIsReachable(t: Trio)
    requires t.Valid()
    ensures Reachable(t.Setup(), t.Start())
  {
    hide Init, Next;
    StartIsInit(t);
    assert IsRun(t.Setup(), [t.Start()]) && [t.Start()][0] == t.Start();
  }

  lemma StartLooks(t: Trio, v: map<Uid, Part>)
    requires t.Valid() && v == map u | u in {t.a, t.b, t.c} :: PartOf(t.Fresh(u))
    ensures Looks(t, t.Start(), v)
  {
    hide UidLess, PartOf, Rests;
    forall u | u in {t.a, t.b, t.c} ensures Rests(t, u, t.Fresh(u)) {
      FreshRests(t, u);
    }
  }

  lemma FreshRests(t: Trio, u: Uid)
    ensures Rests(t, u, t.Fresh(u))
    ensures PartOf(t.Fresh(u)) == Part(NewProposer(u, 2, true), [], NO_TRIPLE, {})
  {
  }

  lemma StartIsInit(t: Trio)
    requires t.Valid()
    ensures Init(t.Setup(), t.Start())
  {
    hide FreshMember, UidLess;
    FreshIsFresh(t, t.a);
    FreshIsFresh(t, t.b);
    FreshIsFresh(t, t.c);
  }

  lemma FreshIsFresh(t: Trio, u: Uid)
    requires GoodPeers(t.Setup(), u, t.Peers(u))
    ensures FreshMember(t.Setup(), u, t.Fresh(u))
  {
    hide GoodPeers;
    assert t.Fresh(u).node == NewNode(u, t.Setup().core.quorumSize, true, 0, "");
  }

  /** A client hands its value to u. */
  lemma Submits(t: Trio, s: Cluster, v: map<Uid, Part>, u: Uid, value: Value) returns (s': Cluster, v': map<Uid, Part>)
    requires Arrived(t, s, v) && u in v && value != "" && v[u].proposer.value == "" && !v[u].proposer.leader
    ensures Arrived(t, s', v') && v' == v[u := v[u].(proposer := v[u].proposer.(value := value))]
  {
    hide Looks, Reachable, After, React, Follows;
    var e := Event.SetProposal(value);
    PartLooks(t, s, v, u);
    s' := Take(t, s, u, e);
    RoundEffect(t.Setup(), s, u, e);
    SameLog(t.Setup(), s, s', u, e);
    PartMoves(t, s, s', v, u);
    v' := v[u := PartOf(s'.members[u])];
  }

  /** u opens its next ballot: it asks the other two. */
  lemma OpensBallot(t: Trio, s: Cluster, v: map<Uid, Part>, u: Uid, x: Uid, y: Uid)
    returns (s': Cluster, v': map<Uid, Part>)
    requires t.Valid() && Arrived(t, s, v) && t.Others(u, x, y) && u in v && v[u].proposer.ballot.number < MAX_NUMBER
    ensures Arrived(t, s', v') && NetGrows(s.net, s'.net)
    ensures v' == v[u := v[u].(proposer := v[u].proposer.Prepare(true).0, majority := {x, y})]
    ensures PrepareMessage(u, {x, y}, v'[u].proposer.ballot) in s'.net.prepares
  {
    hide Looks, Reachable, After, React, Follows, ServerState.SelectMajority, ServerState.Post, ServerState.PostAll,
      ProposerState.Prepare;
    var e := Event.PrepareNow;
    PartLooks(t, s, v, u);
    s' := Take(t, s, u, e);
    OpeningEffect(t.Setup(), s, u, e);
    OpeningSends(t.Setup(), s.members[u]);
    SameLog(t.Setup(), s, s', u, e);
    PostPrepare(s.members[u].server, s.net, s'.members[u].lastTried);
    BothTargeted(t, s.members[u].server, u, x, y);
    PartMoves(t, s, s', v, u);
    v' := v[u := PartOf(s'.members[u])];
  }

  lemma OpeningSends(cfg: Setup, m: Member)
    ensures React(cfg, m, Event.PrepareNow).1 != []
  {
  }

  lemma BothTargeted(t: Trio, s: ServerState, u: Uid, x: Uid, y: Uid)
    requires t.Valid() && t.Others(u, x, y) && s == ServerState(u, 2, t.Peers(u), "", s.majority)
    ensures s.SelectMajority().majority == {x, y} == s.SelectMajority().Recipients()
    ensures s.SelectMajority() == s.(majority := {x, y})
  {
    var start := UpperBound(s.peers, "");
    assert start == 0 by { assert UidLess("", s.peers[0]); }
    assert PeerAt(s.peers, start, 0) == s.peers[0] && PeerAt(s.peers, start, 1) == s.peers[1];
    assert NextPeers(s.peers, start, 2) == {s.peers[0], s.peers[1]} == {x, y};
  }

  /** The state of x's acceptor is saved if need be. */
  lemma Saves(t: Trio, s: Cluster, x: Uid) returns (s': Cluster)
    requires Reachable(t.Setup(), s) && x in s.members
    ensures Reachable(t.Setup(), s') && NetGrows(s.net, s'.net)
    ensures x in s'.members && s'.members == s.members[x := s'.members[x]]
    ensures s'.members[x] == s.members[x].(saved := s'.members[x].saved)
    ensures t.durable ==> s'.members[x].saved == s.members[x].node.acceptor.triple
  {
    if t.durable {
      hide Reachable, Follows, After, NetGrows, Enabled;
      assert Enabled(t.Setup(), s, x, Event.Save) by { MaySave(t, s, x); }
      s' := Take(t, s, x, Event.Save);
      SaveEffect(t.Setup(), s, x);
    } else {
      s' := s;
    }
  }

  lemma MaySave(t: Trio, s: Cluster, x: Uid)
    requires t.durable && x in s.members
    ensures Enabled(t.Setup(), s, x, Event.Save)
  {
  }

  lemma SaveEffect(cfg: Setup, s: Cluster, x: Uid)
    requires x in s.members
    ensures var m := s.members[x];
            After(cfg, s, x, Event.Save).members == s.members[x := m.(saved := m.node.acceptor.triple)]
  {
    hide C.NewVotes, Stable;
  }

  predicate FlushedTo(server: ServerState, a: AcceptorState, net: Network) {
    && (a.pendingPromise != "" && a.pendingPromise in server.peers ==>
          PromiseMessage(server.uid, a.pendingPromise, a.triple.promised, a.triple.accepted, a.triple.value)
            in net.promises)
    && (a.pendingAccept != "" && a.pendingAccept in server.peers ==>
          PermitMessage(server.uid, a.pendingAccept, a.triple.accepted, a.triple.value) in net.permits)
  }

  function Flushed(a: AcceptorState): AcceptorState {
    a.(pendingPromise := "", pendingAccept := "")
  }

  /** x's acceptor holds one kind of reply back; its state is saved and the reply leaves. */
  lemma Flushes(t: Trio, s: Cluster, x: Uid) returns (s': Cluster)
    requires Reachable(t.Setup(), s) && x in s.members
    requires var a := s.members[x].node.acceptor; a.active && (a.pendingPromise == "" || a.pendingAccept == "")
    ensures Reachable(t.Setup(), s') && NetGrows(s.net, s'.net)
    ensures x in s'.members && s'.members == s.members[x := s'.members[x]]
    ensures var m, m' := s.members[x], s'.members[x];
            && m'.node == m.node.(acceptor := Flushed(m.node.acceptor)) && m'.server == m.server && m'.log == m.log
            && FlushedTo(m.server, m.node.acceptor, s'.net)
  {
    hide Reachable, Follows, ServerState.PostAll, TriedAfter, FlushedTo, NetGrows;
    var mid := Saves(t, s, x);
    var m := mid.members[x];
    s' := Take(t, mid, x, Event.Persisted);
    FlushPosts(m.server, mid.net, m.node.acceptor);
    FlushOne(m.server, mid.net, m.node.acceptor);
    NetGrowsTransitive(s.net, mid.net, s'.net);
  }

  lemma FlushOne(server: ServerState, net: Network, a: AcceptorState)
    requires a.active && (a.pendingPromise == "" || a.pendingAccept == "")
    ensures FlushedTo(server, a, server.PostAll(net, a.Persisted().1).1)
  {
    var t := a.triple;
    if a.pendingPromise != "" {
      assert a.Persisted().1 == [SendPromise(a.pendingPromise, t.promised, t.accepted, t.value)];
      PostOne(server, net, a.Persisted().1[0]);
    } else if a.pendingAccept != "" {
      assert a.Persisted().1 == [SendPermit(a.pendingAccept, t.accepted, t.value)];
      PostOne(server, net, a.Persisted().1[0]);
    }
  }

  /** x handles a request by holding back a reply, which is then flushed. */
  lemma Answers(t: Trio, s: Cluster, v: map<Uid, Part>, x: Uid, e: Event) returns (s': Cluster, v': map<Uid, Part>)
    requires Arrived(t, s, v) && x in v && x in s.members && AtAcceptor(e) && Enabled(t.Setup(), s, x, e)
    requires var a' := AcceptorPart(s.members[x], e).0;
             && AcceptorPart(s.members[x], e).1 == [] && a'.active
             && (a'.pendingPromise == "" || a'.pendingAccept == "")
    ensures Arrived(t, s', v') && v' == v[x := v[x].(triple := AcceptorPart(s.members[x], e).0.triple)]
    ensures NetGrows(s.net, s'.net) && FlushedTo(s.members[x].server, AcceptorPart(s.members[x], e).0, s'.net)
  {
    hide Looks, Reachable, After, React, Follows, AcceptorPart, FlushedTo, NetGrows, Enabled, C.NewVotes;
    PartLooks(t, s, v, x);
    var mid := Take(t, s, x, e);
    AcceptorEffect(t.Setup(), s, x, e);
    s' := Flushes(t, mid, x);
    NetGrowsTransitive(s.net, mid.net, s'.net);
    PartMoves(t, s, s', v, x);
    v' := v[x := PartOf(s'.members[x])];
  }

  /** x promises u's ballot and says so. */
  lemma GivesPromise(t: Trio, s: Cluster, v: map<Uid, Part>, u: Uid, x: Uid, m: PrepareMessage)
    returns (s': Cluster, v': map<Uid, Part>)
    requires Arrived(t, s, v) && x in v && u in t.Peers(x) && u != ""
    requires m in s.net.prepares && x in m.to && m.from == u && m.id.IsValid()
    requires !v[x].triple.promised.IsValid() || v[x].triple.promised.Lt(m.id)
    ensures Arrived(t, s', v') && v' == v[x := v[x].(triple := v[x].triple.(promised := m.id))]
    ensures NetGrows(s.net, s'.net)
    ensures PromiseMessage(x, u, m.id, v[x].triple.accepted, v[x].triple.value) in s'.net.promises
  {
    hide Reachable, Looks, ProposalId.Compare, NetGrows;
    var e := Event.GetPrepare(m, 0);
    PartLooks(t, s, v, x);
    OrderIsStrictAndTotal(m.id, v[x].triple.promised);
    s', v' := Answers(t, s, v, x, e);
  }

  /** x votes for u's request and says so. */
  lemma CastsVote(t: Trio, s: Cluster, v: map<Uid, Part>, u: Uid, x: Uid, m: AcceptMessage)
    returns (s': Cluster, v': map<Uid, Part>)
    requires Arrived(t, s, v) && x in v && u in t.Peers(x) && u != ""
    requires m in s.net.accepts && x in m.to && m.from == u
    requires v[x].triple.promised == m.id && v[x].triple.accepted != m.id
    ensures Arrived(t, s', v') && v' == v[x := v[x].(triple := Triple(m.id, m.id, m.value))]
    ensures NetGrows(s.net, s'.net) && PermitMessage(x, u, m.id, m.value) in s'.net.permits
  {
    hide Reachable, Looks, ProposalId.Compare, NetGrows;
    var e := Event.GetAccept(m);
    PartLooks(t, s, v, x);
    OrderIsStrictAndTotal(m.id, m.id);
    OrderIsStrictAndTotal(m.id, v[x].triple.accepted);
    s', v' := Answers(t, s, v, x, e);
  }

  /** u counts a promise; whatever it then asks for goes to the acceptors chosen. */
  lemma CountsPromise(t: Trio, s: Cluster, v: map<Uid, Part>, u: Uid, m: PromiseMessage)
    returns (s': Cluster, v': map<Uid, Part>)
    requires Arrived(t, s, v) && u in v && m in s.net.promises && (forall a <- v[u].majority :: a in t.Peers(u))
    ensures Arrived(t, s', v') && NetGrows(s.net, s'.net)
    ensures v' == v[u := v[u].(proposer := v[u].proposer.ReceivePromise(m.from, m.id, m.prevId, m.prevValue).0)]
    ensures forall x <- v[u].proposer.ReceivePromise(m.from, m.id, m.prevId, m.prevValue).1 ::
              x.SendAccept? ==> AcceptMessage(u, v[u].majority, x.id, x.value) in s'.net.accepts
  {
    hide Looks, Reachable, After, React, Follows, ProposerState.ReceivePromise, NetGrows;
    var e := Event.GetPromise(m, 0);
    PartLooks(t, s, v, u);
    s' := Take(t, s, u, e);
    RoundEffect(t.Setup(), s, u, e);
    SameLog(t.Setup(), s, s', u, e);
    assert s.members[u].server.Recipients() == v[u].majority;
    PartMoves(t, s, s', v, u);
    v' := v[u := PartOf(s'.members[u])];
  }

  /** u's learner hears of a permit. */
  lemma HearsPermit(t: Trio, s: Cluster, v: map<Uid, Part>, u: Uid, m: PermitMessage, blank: Tally)
    returns (s': Cluster, v': map<Uid, Part>)
    requires Arrived(t, s, v) && u in v && m in s.net.permits
    ensures Arrived(t, s', v') && NetGrows(s.net, s'.net)
    ensures v' == v[u := v[u].(log := v[u].log + [Report(m.from, m.id, m.value, blank)])]
  {
    hide Looks, Reachable, Follows, LearnerState.ReceiveAccepted, ServerState.PostAll, TriedAfter, NetGrows;
    var e := Event.GetPermit(m, blank);
    PartLooks(t, s, v, u);
    s' := Take(t, s, u, e);
    IdlePosts(t.Setup(), s, u, e);
    PartMoves(t, s, s', v, u);
    v' := v[u := PartOf(s'.members[u])];
  }

  // ----- a ballot won

  /** r counts two promises, the later one reporting nothing that the first does not: it leads and
      asks for the value reported, or for its own. */
  lemma CountsBoth(r: ProposerState, x: Uid, y: Uid, T: Triple, U: Triple)
    requires r.promises == {} && r.quorumSize == 2 && r.active && r.lastAccepted == NO_ID && x != y
    requires T.accepted == NO_ID || T.accepted.IsValid()
    requires (U.accepted == T.accepted && U.value == T.value) || (U.accepted == NO_ID && U.value == "")
    requires Asks(r, T) != ""
    ensures var first := r.ReceivePromise(x, r.ballot, T.accepted, T.value);
            var second := first.0.ReceivePromise(y, r.ballot, U.accepted, U.value);
            && second.0 == r.(promises := {x, y}, leader := true, lastAccepted := T.accepted, value := Asks(r, T))
            && SendAccept(r.ballot, Asks(r, T)) in second.1
  {
    OrderIsStrictAndTotal(r.ballot, r.ballot);
    OrderIsStrictAndTotal(U.accepted, T.accepted);
    NoIdIsBottom(T.accepted);
    assert {x} + {y} == {x, y};
    hide ProposalId.Compare;
  }

  /** The value a proposer asks for that is told of the vote in T. */
  function Asks(r: ProposerState, T: Triple): Value {
    if T.value != "" then T.value else r.value
  }

  /** x's and y's triples let u win ballot id: nobody promised more, and y's vote is x's or none. */
  predicate MayWin(r: ProposerState, T: Triple, U: Triple, id: ProposalId) {
    && id.uid == r.ballot.uid && id.IsValid() && id.number == r.ballot.number + 1
    && r.quorumSize == 2 && r.lastAccepted == NO_ID
    && Asks(r, T) != ""
    && (T.accepted == NO_ID || T.accepted.IsValid())
    && ((U.accepted == T.accepted && U.value == T.value) || (U.accepted == NO_ID && U.value == ""))
    && (!T.promised.IsValid() || T.promised.Lt(id)) && (!U.promised.IsValid() || U.promised.Lt(id))
  }

  /** r, once it has won ballot id with x and y, where x's triple was T. */
  function Winner(r: ProposerState, x: Uid, y: Uid, T: Triple, id: ProposalId): ProposerState {
    r.(ballot := id, promises := {x, y}, leader := true, active := true,
       lastAccepted := T.accepted, value := Asks(r, T))
  }

  /** Every part is as it was, but for these three. */
  ghost predicate Become(
    v: map<Uid, Part>, v': map<Uid, Part>, u: Uid, r: ProposerState, x: Uid, y: Uid, id: ProposalId)
  {
    && u in v && x in v && y in v && u != x && u != y && x != y && v.Keys == v'.Keys == {u, x, y}
    && v'[u] == v[u].(proposer := r, majority := {x, y})
    && v'[x] == v[x].(triple := v[x].triple.(promised := id))
    && v'[y] == v[y].(triple := v[y].triple.(promised := id))
  }

  lemma ThreeNodes(t: Trio, s: Cluster, v: map<Uid, Part>, u: Uid, x: Uid, y: Uid)
    requires t.Valid() && Arrived(t, s, v) && t.Others(u, x, y)
    ensures u != "" && u != x && u != y && x != y && u in t.Peers(x) && u in t.Peers(y)
    ensures v.Keys == {u, x, y}
  {
    hide UidLess, Reachable, Rests, PartOf;
  }

  lemma MayWinMeans(r: ProposerState, T: Triple, U: Triple, id: ProposalId)
    requires MayWin(r, T, U, id)
    ensures r.ballot.number < MAX_NUMBER && r.Prepare(true).0.ballot == id && id.IsValid()
    ensures (!T.promised.IsValid() || T.promised.Lt(id)) && (!U.promised.IsValid() || U.promised.Lt(id))
  {
    CS.PreparedState(r);
    hide ProposalId.Compare, ProposerState.Prepare;
  }

  /** The prepare requests of u's next ballot, and both promises for it. */
  lemma Prepares(t: Trio, s: Cluster, v: map<Uid, Part>, u: Uid, x: Uid, y: Uid, id: ProposalId)
    returns (s': Cluster, v': map<Uid, Part>)
    requires t.Valid() && Arrived(t, s, v) && t.Others(u, x, y) && u in v && x in v && y in v
    requires MayWin(v[u].proposer, v[x].triple, v[y].triple, id)
    ensures Arrived(t, s', v') && NetGrows(s.net, s'.net)
    ensures Become(v, v', u, v[u].proposer.Prepare(true).0, x, y, id)
    ensures PromiseMessage(x, u, id, v[x].triple.accepted, v[x].triple.value) in s'.net.promises
    ensures PromiseMessage(y, u, id, v[y].triple.accepted, v[y].triple.value) in s'.net.promises
  {
    hide Arrived, ProposerState.Prepare, ProposalId.Compare, UidLess, MayWin, NetGrows, Trio.Others, Trio.Valid;
    MayWinMeans(v[u].proposer, v[x].triple, v[y].triple, id);
    ThreeNodes(t, s, v, u, x, y);
    var s1, v1 := OpensBallot(t, s, v, u, x, y);
    var ask := PrepareMessage(u, {x, y}, id);
    var s2, v2 := GivesPromise(t, s1, v1, u, x, ask);
    MessagesStay(s1.net, s2.net);
    s', v' := GivesPromise(t, s2, v2, u, y, ask);
    MessagesStay(s2.net, s'.net);
    NetGrowsTransitive(s.net, s1.net, s2.net);
    NetGrowsTransitive(s.net, s2.net, s'.net);
  }

  /** u wins ballot id and sends its accept request. */
  lemma Wins(t: Trio, s: Cluster, v: map<Uid, Part>, u: Uid, x: Uid, y: Uid, id: ProposalId)
    returns (s': Cluster, v': map<Uid, Part>)
    requires t.Valid() && Arrived(t, s, v) && t.Others(u, x, y) && u in v && x in v && y in v
    requires MayWin(v[u].proposer, v[x].triple, v[y].triple, id)
    ensures Arrived(t, s', v') && NetGrows(s.net, s'.net)
    ensures Become(v, v', u, Winner(v[u].proposer, x, y, v[x].triple, id), x, y, id)
    ensures AcceptMessage(u, {x, y}, id, Asks(v[u].proposer, v[x].triple)) in s'.net.accepts
  {
    hide Arrived, ProposerState.Prepare, ProposerState.ReceivePromise, ProposalId.Compare, UidLess, NetGrows;
    CS.PreparedState(v[u].proposer);
    ThreeNodes(t, s, v, u, x, y);
    var s1, v1 := Prepares(t, s, v, u, x, y, id);
    CountsBoth(v1[u].proposer, x, y, v[x].triple, v[y].triple);
    var s2, v2 := CountsPromise(t, s1, v1, u, PromiseMessage(x, u, id, v[x].triple.accepted, v[x].triple.value));
    MessagesStay(s1.net, s2.net);
    s', v' := CountsPromise(t, s2, v2, u, PromiseMessage(y, u, id, v[y].triple.accepted, v[y].triple.value));
    NetGrowsTransitive(s.net, s1.net, s2.net);
    NetGrowsTransitive(s.net, s2.net, s'.net);
  }

  lemma MessagesStay(x: Network, y: Network)
    requires NetGrows(x, y)
    ensures x.prepares <= y.prepares && x.promises <= y.promises && x.accepts <= y.accepts && x.permits <= y.permits
  {
  }

  // ----- a run that learns

  /** c wins ballot id, a and b vote, and c hears of both votes. */
  lemma RoundOfC(t: Trio, s: Cluster, v: map<Uid, Part>, id: ProposalId, value: Value, blank: Tally)
    returns (s': Cluster, v': map<Uid, Part>)
    requires t.Valid() && Arrived(t, s, v) && v.Keys == {t.a, t.b, t.c} && v[t.a].triple == v[t.b].triple
    requires MayWin(v[t.c].proposer, v[t.a].triple, v[t.b].triple, id) && value == Asks(v[t.c].proposer, v[t.a].triple)
    requires v[t.a].triple.accepted != id
    ensures Arrived(t, s', v') && v'.Keys == {t.a, t.b, t.c}
    ensures v'[t.c].log == v[t.c].log + [Report(t.a, id, value, blank), Report(t.b, id, value, blank)]
    ensures v'[t.c].proposer == Winner(v[t.c].proposer, t.a, t.b, v[t.a].triple, id)
    ensures v'[t.a].triple == v'[t.b].triple == Triple(id, id, value)
  {
    hide Arrived, MayWin, Winner, UidLess, NetGrows, Asks;
    ThreeNodes(t, s, v, t.c, t.a, t.b);
    var s1, v1 := Wins(t, s, v, t.c, t.a, t.b, id);
    var m := AcceptMessage(t.c, {t.a, t.b}, id, value);
    var s2, v2 := CastsVote(t, s1, v1, t.c, t.a, m);
    MessagesStay(s1.net, s2.net);
    var s3, v3 := CastsVote(t, s2, v2, t.c, t.b, m);
    MessagesStay(s2.net, s3.net);
    var s4, v4 := HearsPermit(t, s3, v3, t.c, PermitMessage(t.a, t.c, id, value), blank);
    MessagesStay(s3.net, s4.net);
    s', v' := HearsPermit(t, s4, v4, t.c, PermitMessage(t.b, t.c, id, value), blank);
  }

  /** The learner as written heard of one ballot from a and b, and they move on to the next. */
  lemma BothMayMove(a: Uid, b: Uid, first: ProposalId, second: ProposalId, value: Value, blank: Tally)
    requires a != b && first.IsValid() && second.IsValid() && first.Lt(second) && value != ""
    ensures var one := [Report(a, first, value, blank), Report(b, first, value, blank)];
            var two := [Report(a, second, value, blank), Report(b, second, value, blank)];
            !Run(2, one).IsComplete() && MayMove(Run(2, one), two, second)
  {
    hide Run, ProposalId.Compare;
    var one := [Report(a, first, value, blank), Report(b, first, value, blank)];
    assert Reporters(one, first) == {a, b} by { assert one[0] in one && one[1] in one; }
    OneBallotRun(2, one, first);
    OrderIsStrictAndTotal(first, second);
  }

  /** It is open after the first ballot and done after the second. */
  lemma SecondBallotLearns(a: Uid, b: Uid, first: ProposalId, second: ProposalId, value: Value, blank: Tally)
    requires a != b && first.IsValid() && second.IsValid() && first.Lt(second) && value != ""
    requires blank.acceptCount == 0 && blank.retentionCount != 1
    ensures var one := [Report(a, first, value, blank), Report(b, first, value, blank)];
            var two := [Report(a, second, value, blank), Report(b, second, value, blank)];
            && !Run(2, one).IsComplete() && HarmlessLog(2, one + two)
            && Run(2, one + two).IsComplete() && Run(2, one + two).finalValue == value
  {
    hide Run, MayMove, ProposalId.Compare;
    var one := [Report(a, first, value, blank), Report(b, first, value, blank)];
    var two := [Report(a, second, value, blank), Report(b, second, value, blank)];
    BothMayMove(a, b, first, second, value, blank);
    MoversCompleteIff(2, one, two, second);
    ResultIsReported(2, one + two);
  }

  lemma TwoRounds(t: Trio, value: Value, blank: Tally) returns (s: Cluster, v: map<Uid, Part>)
    requires t.Valid() && value != ""
    ensures Arrived(t, s, v) && t.c in v
    ensures var first, second := ProposalId(1, t.c), ProposalId(2, t.c);
            v[t.c].log == [Report(t.a, first, value, blank), Report(t.b, first, value, blank)]
                          + [Report(t.a, second, value, blank), Report(t.b, second, value, blank)]
  {
    hide Arrived, UidLess, ProposalId.Compare;
    var s0, v0 := Begin(t);
    assert v0[t.c].proposer == NewProposer(t.c, 2, true) && v0[t.a].triple == v0[t.b].triple == NO_TRIPLE;
    var s1, v1 := Submits(t, s0, v0, t.c, value);
    var first, second := ProposalId(1, t.c), ProposalId(2, t.c);
    OrderIsLexicographic(first, second);
    var s2, v2 := RoundOfC(t, s1, v1, first, value, blank);
    s, v := RoundOfC(t, s2, v2, second, value, blank);
  }

  /** NOT EMPTY. For every value there is a run, with and without crashes allowed, in which a learner
      as written holds it, and no default-constructed entry did harm. */
  lemma EveryValueCanBeLearned(t: Trio, value: Value) returns (b: seq<Cluster>)
    requires t.Valid() && value != ""
    ensures t.Setup().Valid() && IsRun(t.Setup(), b) && |b| > 0
    ensures t.c in b[|b| - 1].members && HarmlessLog(2, b[|b| - 1].members[t.c].log)
    ensures b[|b| - 1].members[t.c].node.learner.finalValue == value
  {
    hide IsRun, Reachable, Looks, UidLess, ProposalId.Compare, Run;
    var blank := Tally(0, 0, "");
    var s, v := TwoRounds(t, value, blank);
    var first, second := ProposalId(1, t.c), ProposalId(2, t.c);
    OrderIsLexicographic(first, second);
    SecondBallotLearns(t.a, t.b, first, second, value, blank);
    b := RunTo(t.Setup(), s);
    LearnerIsRun(t, b, v, t.c);
  }

  lemma LearnerIsRun(t: Trio, b: seq<Cluster>, v: map<Uid, Part>, u: Uid)
    requires t.Valid() && IsRun(t.Setup(), b) && |b| > 0 && Looks(t, b[|b| - 1], v) && u in v
    ensures u in b[|b| - 1].members && b[|b| - 1].members[u].log == v[u].log
    ensures b[|b| - 1].members[u].node.learner == Run(2, v[u].log)
  {
    hide IsRun, SystemInv, Rests, Run;
    InvariantAlways(t.Setup(), b, |b| - 1);
    InvIsLearner(t.Setup(), b[|b| - 1], u);
  }

  // ----- a run in which learners disagree

  /** A lone acceptor moves from one ballot to the next: where a default-constructed count is
      positive and stays, it completes a learner alone. */
  lemma LoneMoverCompletes(a: Uid, first: ProposalId, second: ProposalId, value: Value, blank: Tally)
    requires first.IsValid() && second.IsValid() && first.Lt(second) && value != "" && !HarmlessFor(2, blank)
    ensures var log := [Report(a, first, value, blank)] + [Report(a, second, value, blank)];
            Run(2, log).IsComplete() && Run(2, log).finalValue == value && Meets(log, iset{blank})
  {
    hide Run;
    var one, two := [Report(a, first, value, blank)], [Report(a, second, value, blank)];
    assert Reporters(one, first) == {a} by { assert one[0] in one; }
    OneBallotRun(2, one, first);
    OrderIsStrictAndTotal(first, second);
    assert MayMove(Run(2, one), two, second);
    MoversCompleteIff(2, one, two, second);
    ResultIsReported(2, one + two);
  }

  /** u wins ballot id with x and y, x alone votes, and w hears of the vote. */
  lemma LoneVote(
    t: Trio, s: Cluster, v: map<Uid, Part>, u: Uid, x: Uid, y: Uid, id: ProposalId, value: Value, w: Uid, blank: Tally)
    returns (s': Cluster, v': map<Uid, Part>)
    requires t.Valid() && Arrived(t, s, v) && t.Others(u, x, y) && u in v && x in v && y in v && w in v
    requires MayWin(v[u].proposer, v[x].triple, v[y].triple, id) && value == Asks(v[u].proposer, v[x].triple)
    requires v[x].triple.accepted != id
    ensures Arrived(t, s', v') && v'.Keys == v.Keys
    ensures v'[u].proposer == Winner(v[u].proposer, x, y, v[x].triple, id)
    ensures v'[x].proposer == v[x].proposer && v'[y].proposer == v[y].proposer
    ensures v'[u].triple == v[u].triple && v'[x].triple == Triple(id, id, value)
    ensures v'[y].triple == v[y].triple.(promised := id)
    ensures forall z <- v :: v'[z].log == if z == w then v[z].log + [Report(x, id, value, blank)] else v[z].log
  {
    hide Arrived, MayWin, Winner, UidLess, NetGrows, Asks;
    ThreeNodes(t, s, v, u, x, y);
    var s1, v1 := Wins(t, s, v, u, x, y, id);
    var s2, v2 := CastsVote(t, s1, v1, u, x, AcceptMessage(u, {x, y}, id, value));
    s', v' := HearsPermit(t, s2, v2, w, PermitMessage(x, u, id, value), blank);
  }

  /** b may win its first ballot, and c its own after a's vote in b's. */
  lemma FirstBallots(b: Uid, c: Uid, one: Value)
    requires b != "" && c != "" && UidLess(b, c) && one != ""
    ensures var vote := Triple(ProposalId(1, b), ProposalId(1, b), one);
            var r := NewProposer(b, 2, true).(value := one);
            && MayWin(r, NO_TRIPLE, NO_TRIPLE, ProposalId(1, b)) && Asks(r, NO_TRIPLE) == one
            && MayWin(NewProposer(c, 2, true), vote, NO_TRIPLE, ProposalId(1, c))
            && Asks(NewProposer(c, 2, true), vote) == one
  {
    OrderIsLexicographic(ProposalId(1, b), ProposalId(1, c));
  }

  /** First b, then c wins a ballot, and a alone votes in both: c's learner hears of both votes. */
  lemma FirstHalf(t: Trio, one: Value, other: Value, blank: Tally) returns (s: Cluster, v: map<Uid, Part>)
    requires t.Valid() && one != "" && other != ""
    ensures Arrived(t, s, v) && v.Keys == {t.a, t.b, t.c}
    ensures v[t.c].log == [Report(t.a, ProposalId(1, t.b), one, blank)] + [Report(t.a, ProposalId(1, t.c), one, blank)]
    ensures v[t.a].log == v[t.b].log == [] && v[t.a].proposer == NewProposer(t.a, 2, true).(value := other)
    ensures v[t.b].triple == Triple(ProposalId(1, t.c), NO_ID, "")
    ensures v[t.c].triple == Triple(ProposalId(1, t.b), NO_ID, "")
  {
    hide Arrived, UidLess, ProposalId.Compare, MayWin, Asks, Winner;
    var s0, v0 := Begin(t);
    var s1, v1 := Submits(t, s0, v0, t.b, one);
    var s2, v2 := Submits(t, s1, v1, t.a, other);
    FirstBallots(t.b, t.c, one);
    var s3, v3 := LoneVote(t, s2, v2, t.b, t.a, t.c, ProposalId(1, t.b), one, t.c, blank);
    s, v := LoneVote(t, s3, v3, t.c, t.a, t.b, ProposalId(1, t.c), one, t.c, blank);
  }

  /** Then a wins two ballots, and b alone votes in both: b's learner hears of both votes. */
  lemma SecondHalf(t: Trio, s0: Cluster, v0: map<Uid, Part>, other: Value, blank: Tally)
    returns (s: Cluster, v: map<Uid, Part>)
    requires t.Valid() && Arrived(t, s0, v0) && v0.Keys == {t.a, t.b, t.c} && other != "" && v0[t.b].log == []
    requires v0[t.a].proposer == NewProposer(t.a, 2, true).(value := other)
    requires v0[t.b].triple == Triple(ProposalId(1, t.c), NO_ID, "")
    requires v0[t.c].triple == Triple(ProposalId(1, t.b), NO_ID, "")
    ensures Arrived(t, s, v) && v.Keys == {t.a, t.b, t.c} && v[t.c].log == v0[t.c].log
    ensures v[t.b].log
         == [Report(t.b, ProposalId(2, t.a), other, blank)] + [Report(t.b, ProposalId(3, t.a), other, blank)]
  {
    hide Arrived, UidLess, ProposalId.Compare, ProposerState.Prepare;
    assert t.a != t.b && t.b != t.c && t.a != t.c;
    CS.PreparedState(v0[t.a].proposer);
    OrderIsLexicographic(ProposalId(1, t.c), ProposalId(2, t.a));
    OrderIsLexicographic(ProposalId(1, t.b), ProposalId(2, t.a));
    OrderIsLexicographic(ProposalId(2, t.a), ProposalId(3, t.a));
    var s1, v1 := OpensBallot(t, s0, v0, t.a, t.b, t.c);
    var s2, v2 := LoneVote(t, s1, v1, t.a, t.b, t.c, ProposalId(2, t.a), other, t.b, blank);
    s, v := LoneVote(t, s2, v2, t.a, t.b, t.c, ProposalId(3, t.a), other, t.b, blank);
  }

  /** DISAGREEMENT. For all counts that can be mistaken for reports there is a run, with and without
      crashes allowed, in which two learners as written hold different values, whichever they are. */
  lemma LearnersMayDisagree(t: Trio, one: Value, other: Value, blank: Tally) returns (b: seq<Cluster>)
    requires t.Valid() && one != "" && other != "" && !HarmlessFor(2, blank)
    ensures IsRun(t.Setup(), b) && |b| > 0 && t.b in b[|b| - 1].members && t.c in b[|b| - 1].members
    ensures b[|b| - 1].members[t.c].node.learner.finalValue == one
    ensures b[|b| - 1].members[t.b].node.learner.finalValue == other
    ensures Meets(b[|b| - 1].members[t.c].log, iset{blank}) && Meets(b[|b| - 1].members[t.b].log, iset{blank})
  {
    hide IsRun, Reachable, Looks, UidLess, ProposalId.Compare, Run, Meets;
    var s0, v0 := FirstHalf(t, one, other, blank);
    var s, v := SecondHalf(t, s0, v0, other, blank);
    assert UidLess(t.b, t.c);
    OrderIsLexicographic(ProposalId(1, t.b), ProposalId(1, t.c));
    OrderIsLexicographic(ProposalId(2, t.a), ProposalId(3, t.a));
    LoneMoverCompletes(t.a, ProposalId(1, t.b), ProposalId(1, t.c), one, blank);
    LoneMoverCompletes(t.b, ProposalId(2, t.a), ProposalId(3, t.a), other, blank);
    b := RunTo(t.Setup(), s);
    LearnerIsRun(t, b, v, t.c);
    LearnerIsRun(t, b, v, t.b);
  }

  /** Learners as written agree in all runs, when default-constructed entries hold any of the blanks. */
  ghost predicate AlwaysAgree(cfg: Setup, blanks: iset<Tally>) {
    forall b: seq<Cluster>, i: nat, u: Uid, j: nat, w: Uid ::
      IsRun(cfg, b) && i < |b| && j < |b| && Resolved(b[i], u, blanks) && Resolved(b[j], w, blanks)
      ==> b[i].members[u].node.learner.finalValue == b[j].members[w].node.learner.finalValue
  }

  ghost predicate Resolved(s: Cluster, u: Uid, blanks: iset<Tally>) {
    u in s.members && s.members[u].node.learner.IsComplete() && Meets(s.members[u].log, blanks)
  }

  /** AGREEMENT, EXACTLY WHEN. In a cluster of three, learners as written agree over all runs if and
      only if each count that a default-constructed entry may hold is harmless. */
  lemma AgreementIffHarmless(t: Trio, blanks: iset<Tally>)
    requires t.Valid()
    ensures AlwaysAgree(t.Setup(), blanks) <==> forall blank <- blanks :: HarmlessFor(2, blank)
  {
    hide IsRun, UidLess;
    if forall blank <- blanks :: HarmlessFor(2, blank) {
      forall b: seq<Cluster>, i: nat, u: Uid, j: nat, w: Uid
        | IsRun(t.Setup(), b) && i < |b| && j < |b| && Resolved(b[i], u, blanks) && Resolved(b[j], w, blanks)
        ensures b[i].members[u].node.learner.finalValue == b[j].members[w].node.learner.finalValue
      {
        LearnersAgree(t.Setup(), b, i, u, j, w);
      }
    } else {
      var blank :| blank in blanks && !HarmlessFor(2, blank);
      var b := LearnersMayDisagree(t, "v", "w", blank);
      assert Resolved(b[|b| - 1], t.c, blanks) && Resolved(b[|b| - 1], t.b, blanks);
      assert "v"[0] != "w"[0];
    }
  }
}
