/** The server's side of the messenger: which acceptors a ballot is sent to, and what reaches the
    network. */
module Servers {
  import opened ProposalIds
  import opened Messages
  import opened Quorums

  /** Keys of the peer table in iteration order: strictly ascending. */
  ghost predicate Ascending(peers: seq<Uid>) {
    forall i, j :: 0 <= i < j < |peers| ==> UidLess(peers[i], peers[j])
  }

  /** The index of the first peer above uid, or the end. */
  function UpperBound(peers: seq<Uid>, uid: Uid): (k: nat)
    ensures k <= |peers|
    ensures forall i :: 0 <= i < k ==> !UidLess(uid, peers[i])
    ensures k < |peers| ==> UidLess(uid, peers[k])
  {
    if peers == [] || UidLess(uid, peers[0]) then 0 else 1 + UpperBound(peers[1..], uid)
  }

  /** The peer k places after position start, going round. */
  function PeerAt(peers: seq<Uid>, start: nat, k: nat): Uid
    requires start <= |peers| && k < |peers|
  {
    if start + k < |peers| then peers[start + k] else peers[start + k - |peers|]
  }

  /** The next count peers on the circle, from position start on. */
  function NextPeers(peers: seq<Uid>, start: nat, count: nat): set<Uid>
    requires start <= |peers| && count <= |peers|
  {
    set i: nat | i < count :: PeerAt(peers, start, i)
  }

  datatype ServerState = ServerState(
    uid: Uid,
    quorumSize: nat,
    peers: seq<Uid>,
    maxChosen: Uid,
    majority: set<Uid>)
  {
    function SelectMajority(): ServerState {
      if |peers| < quorumSize then this
      else this.(majority := NextPeers(peers, UpperBound(peers, maxChosen), quorumSize))
    }

    /** Those of the chosen acceptors that are in the peer table now. */
    function Recipients(): set<Uid> {
      set a | a in majority && a in peers
    }

    /** What one messenger call does to the server and the network. */
    function Post(net: Network, e: Effect): (ServerState, Network) {
      match e
      case SendPrepare(id) =>
        var s := SelectMajority();
        (s, if s.majority == {} then net
            else net.(prepares := net.prepares + {PrepareMessage(uid, s.Recipients(), id)}))
      case SendAccept(id, value) =>
        (this, net.(accepts := net.accepts + {AcceptMessage(uid, Recipients(), id, value)}))
      case SendPromise(to, id, prevId, prevValue) =>
        (this, if to in peers then net.(promises := net.promises + {PromiseMessage(uid, to, id, prevId, prevValue)})
               else net)
      case SendPermit(to, id, value) =>
        (this, if to in peers then net.(permits := net.permits + {PermitMessage(uid, to, id, value)}) else net)
      case SendPrepareNack(to, id, promised) =>
        (this, if to in peers
               then net.(prepareAcks := net.prepareAcks + {PrepareAckMessage(uid, to, id, promised)}) else net)
      case SendAcceptNack(to, id, promised) =>
        (this, if to in peers
               then net.(acceptAcks := net.acceptAcks + {AcceptAckMessage(uid, to, id, promised)}) else net)
      case SendHeartbeat(leaderUid, leaderId) =>
        (this, net.(heartbeats := net.heartbeats + {HeartbeatMessage(uid, leaderUid, leaderId)}))
      case _ => (this, net)
    }

    function PostAll(net: Network, effects: seq<Effect>): (ServerState, Network)
      decreases |effects|
    {
      if effects == [] then (this, net)
      else
        var (s, net') := Post(net, effects[0]);
        s.PostAll(net', effects[1..])
    }
  }

  /** The medium shared by all servers. */
  class Wire {
    var net: Network

    constructor ()
      ensures net == EMPTY_NETWORK
    {
      net := EMPTY_NETWORK;
    }
  }

  class Server {
    const uid: Uid
    const quorumSize: nat
    const wire: Wire
    var peers: seq<Uid>
    var maxChosenAcceptorUid: Uid
    var majorityAcceptors: set<Uid>

    function State(): ServerState
      reads this
    {
      ServerState(uid, quorumSize, peers, maxChosenAcceptorUid, majorityAcceptors)
    }

    constructor (uid: Uid, quorumSize: nat, wire: Wire)
      ensures this.wire == wire
      ensures State() == ServerState(uid, quorumSize, [], "", {})
    {
      this.uid, this.quorumSize, this.wire := uid, quorumSize, wire;
      peers, maxChosenAcceptorUid, majorityAcceptors := [], "", {};
    }

    /** The scan wraps around at the end of the table; it stops because no lap is empty. */
    method SelectMajorityAcceptors()
      modifies this`majorityAcceptors
      ensures State() == old(State()).SelectMajority()
    {
      if |peers| < quorumSize {
        return;
      }
      majorityAcceptors := {};
      var cnt := 0;
      var itr := UpperBound(peers, maxChosenAcceptorUid);
      ghost var start := itr;
      while cnt < quorumSize
        invariant 0 <= cnt <= quorumSize && 0 <= start <= |peers| && 0 <= itr <= |peers|
        invariant itr == start + cnt || itr + |peers| == start + cnt
        invariant majorityAcceptors == NextPeers(peers, start, cnt)
        decreases quorumSize - cnt, if itr == |peers| then 1 else 0
      {
        if itr != |peers| {
          assert PeerAt(peers, start, cnt) == peers[itr];
          majorityAcceptors := majorityAcceptors + {peers[itr]};
          cnt := cnt + 1;
        }
        itr := if itr == |peers| then 0 else itr + 1;
      }
    }

    /** The recipients of a broadcast, one chosen acceptor after the other. */
    method FindRecipients() returns (to: set<Uid>)
      ensures to == State().Recipients()
    {
      to := {};
      var rest := majorityAcceptors;
      while rest != {}
        invariant rest <= majorityAcceptors
        invariant to == set a | a in majorityAcceptors - rest && a in peers
        decreases rest
      {
        var a :| a in rest;
        if a in peers {
          to := to + {a};
        }
        rest := rest - {a};
      }
    }

    method SendPrepare(id: ProposalId)
      modifies this`majorityAcceptors, wire
      ensures (State(), wire.net) == old(State()).Post(old(wire.net), Effect.SendPrepare(id))
    {
      SelectMajorityAcceptors();
      if majorityAcceptors == {} {
        return;
      }
      var to := FindRecipients();
      wire.net := wire.net.(prepares := wire.net.prepares + {PrepareMessage(uid, to, id)});
    }

    method SendAccept(id: ProposalId, value: Value)
      modifies wire
      ensures (State(), wire.net) == old(State()).Post(old(wire.net), Effect.SendAccept(id, value))
    {
      var to := FindRecipients();
      wire.net := wire.net.(accepts := wire.net.accepts + {AcceptMessage(uid, to, id, value)});
    }
  }

  // ----- the quorum that is picked

  lemma {:induction false} AscendingIsDistinct(peers: seq<Uid>, i: nat, j: nat)
    requires Ascending(peers) && i < |peers| && j < |peers| && peers[i] == peers[j]
    ensures i == j
  {
    UidLessIrreflexive(peers[i]);
  }

  lemma PeersAtDiffer(peers: seq<Uid>, start: nat, i: nat, j: nat)
    requires Ascending(peers) && start <= |peers| && i < j < |peers|
    ensures PeerAt(peers, start, i) != PeerAt(peers, start, j)
  {
    if PeerAt(peers, start, i) == PeerAt(peers, start, j) {
      AscendingIsDistinct(peers, if start + i < |peers| then start + i else start + i - |peers|,
                          if start + j < |peers| then start + j else start + j - |peers|);
    }
  }

  lemma {:induction false} NextPeersCount(peers: seq<Uid>, start: nat, count: nat)
    requires Ascending(peers) && start <= |peers| && count <= |peers|
    ensures |NextPeers(peers, start, count)| == count
  {
    hide UidLess, Ascending;
    if count == 0 {
      assert NextPeers(peers, start, count) == {};
    } else {
      NextPeersCount(peers, start, count - 1);
      var last := PeerAt(peers, start, count - 1);
      forall i: nat | i < count - 1 ensures PeerAt(peers, start, i) != last {
        PeersAtDiffer(peers, start, i, count - 1);
      }
      assert NextPeers(peers, start, count) == NextPeers(peers, start, count - 1) + {last};
    }
  }

  /** x comes before y going round from uid: those above uid first, each part in order. */
  predicate CyclicBefore(uid: Uid, x: Uid, y: Uid) {
    || (UidLess(uid, x) && !UidLess(uid, y))
    || ((UidLess(uid, x) <==> UidLess(uid, y)) && UidLess(x, y))
  }

  lemma AboveFromUpperBound(peers: seq<Uid>, uid: Uid, i: nat)
    requires Ascending(peers) && i < |peers|
    ensures UidLess(uid, peers[i]) <==> i >= UpperBound(peers, uid)
  {
    hide UidLess;
    var k := UpperBound(peers, uid);
    if k < i {
      UidLessTransitive(uid, peers[k], peers[i]);
    }
  }

  lemma PositionsFollowCircle(peers: seq<Uid>, uid: Uid, i: nat, j: nat)
    requires Ascending(peers) && i < j < |peers|
    ensures CyclicBefore(uid, PeerAt(peers, UpperBound(peers, uid), i), PeerAt(peers, UpperBound(peers, uid), j))
  {
    hide UidLess;
    var s := UpperBound(peers, uid);
    AboveFromUpperBound(peers, uid, if s + i < |peers| then s + i else s + i - |peers|);
    AboveFromUpperBound(peers, uid, if s + j < |peers| then s + j else s + j - |peers|);
  }

  lemma EveryPeerHasPosition(peers: seq<Uid>, start: nat, y: Uid) returns (j: nat)
    requires y in peers && start <= |peers|
    ensures j < |peers| && PeerAt(peers, start, j) == y
  {
    var i: nat :| i < |peers| && peers[i] == y;
    j := if i >= start then i - start else i + |peers| - start;
  }

  /** With enough peers the scan picks exactly quorumSize of them, and each one picked comes
      before each one left out on the circle that starts after the last one chosen. */
  lemma SelectionIsTheCyclicSuccessors(s: ServerState)
    requires Ascending(s.peers) && s.quorumSize <= |s.peers|
    ensures |s.SelectMajority().majority| == s.quorumSize
    ensures forall x <- s.SelectMajority().majority :: x in s.peers
    ensures forall x, y :: x in s.SelectMajority().majority && y in s.peers && y !in s.SelectMajority().majority
              ==> CyclicBefore(s.maxChosen, x, y)
  {
    hide UidLess, CyclicBefore, UpperBound, Ascending;
    var start := UpperBound(s.peers, s.maxChosen);
    NextPeersCount(s.peers, start, s.quorumSize);
    forall x, y | x in s.SelectMajority().majority && y in s.peers && y !in s.SelectMajority().majority
      ensures CyclicBefore(s.maxChosen, x, y)
    {
      var i: nat :| i < s.quorumSize && x == PeerAt(s.peers, start, i);
      var j := EveryPeerHasPosition(s.peers, start, y);
      PositionsFollowCircle(s.peers, s.maxChosen, i, j);
    }
  }

  /** With too few peers the previous choice stays. */
  lemma TooFewPeersKeepsChoice(s: ServerState)
    ensures s.SelectMajority().majority == s.majority || |s.peers| >= s.quorumSize
    ensures s.SelectMajority() == s.(majority := s.SelectMajority().majority)
  {
  }

  /** Two selections, by whatever servers from whatever peer tables over fewer than 2q nodes, meet. */
  lemma SelectionsMeet(nodes: set<Uid>, s: ServerState, t: ServerState) returns (a: Uid)
    requires Ascending(s.peers) && Ascending(t.peers) && s.quorumSize == t.quorumSize
    requires s.quorumSize <= |s.peers| && t.quorumSize <= |t.peers|
    requires (forall x <- s.peers :: x in nodes) && (forall x <- t.peers :: x in nodes)
    requires |nodes| < 2 * s.quorumSize
    ensures a in s.SelectMajority().majority && a in t.SelectMajority().majority
  {
    SelectionIsTheCyclicSuccessors(s);
    SelectionIsTheCyclicSuccessors(t);
    a := QuorumsIntersect(nodes, s.quorumSize, s.SelectMajority().majority, t.SelectMajority().majority);
  }
}
