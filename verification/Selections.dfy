/** Which acceptors a server asks, over whole runs: always those at the start of its peer table. */
module Selections {
  import opened ProposalIds
  import opened Messages
  import opened Servers
  import opened Systems
  import opened SystemSteps
  import opened SystemInvariant
  import opened Theorems
  import opened Ballots
  import Quorums

  /** chosen is the count smallest peers of the table. */
  ghost predicate SmallestPeers(peers: seq<Uid>, count: nat, chosen: set<Uid>) {
    && |chosen| == count
    && (forall x <- chosen :: x in peers)
    && (forall x <- chosen, y <- peers :: y !in chosen ==> UidLess(x, y))
  }

  lemma InvIsServer(cfg: Setup, s: Cluster, u: Uid)
    requires SystemInv(cfg, s) && u in s.members
    ensures ServerOk(cfg, u, s.members[u].server)
  {
    hide Abs, Systems.AcceptorOk, LearnerOk, NacksOk, RefusalOk, ServerOk, SendersNamed;
  }

  /** NO ROTATION. Nothing in a run ever records a last acceptor chosen, so every scan starts at the
      first peer. */
  lemma ScanNeverMoves(cfg: Setup, b: seq<Cluster>, i: nat, u: Uid)
    requires cfg.Valid() && IsRun(cfg, b) && i < |b| && u in b[i].members
    ensures b[i].members[u].server.maxChosen == ""
    ensures UpperBound(b[i].members[u].server.peers, b[i].members[u].server.maxChosen) == 0
  {
    hide SystemInv, IsRun;
    InvariantAlways(cfg, b, i);
    InvIsServer(cfg, b[i], u);
    FirstAboveNothing(b[i].members[u].server.peers);
  }

  lemma FirstAboveNothing(peers: seq<Uid>)
    requires forall x <- peers :: x != ""
    ensures UpperBound(peers, "") == 0
  {
    if peers != [] { assert peers[0] in peers; }
  }

  lemma FromNothingIsSmallest(s: ServerState)
    requires Ascending(s.peers) && s.quorumSize <= |s.peers| && s.maxChosen == ""
    requires forall x <- s.peers :: x != ""
    ensures SmallestPeers(s.peers, s.quorumSize, s.SelectMajority().majority)
  {
    hide Ascending, ServerState.SelectMajority;
    SelectionIsTheCyclicSuccessors(s);
    forall x <- s.SelectMajority().majority, y <- s.peers | y !in s.SelectMajority().majority
      ensures UidLess(x, y)
    {
      assert CyclicBefore(s.maxChosen, x, y);
    }
  }

  /** A new prepare request goes to exactly the quorumSize smallest peers of its sender's table,
      whatever was asked before, if the table is long enough. */
  lemma PreparesGoToSmallestPeers(cfg: Setup, b: seq<Cluster>, i: nat, u: Uid, e: Event, m: PrepareMessage)
    requires cfg.Valid() && IsRun(cfg, b) && i + 1 < |b| && Step(cfg, b[i], b[i + 1], u, e)
    requires m in b[i + 1].net.prepares && m !in b[i].net.prepares
    requires u in b[i].members && |b[i].members[u].server.peers| >= cfg.core.quorumSize
    ensures SmallestPeers(b[i].members[u].server.peers, cfg.core.quorumSize, m.to)
  {
    hide SystemInv, IsRun, Step, ServerState.Post, ServerState.PostAll, ServerState.SelectMajority, SmallestPeers,
      React, BeforeOpening, Enabled;
    InvariantAlways(cfg, b, i);
    InvIsServer(cfg, b[i], u);
    NewPrepareIsNextBallot(cfg, b[i], b[i + 1], u, e, m);
    StepAt(cfg, b[i], b[i + 1], u, e);
    OpeningEffect(cfg, b[i], u, e);
    var server, server' := b[i].members[u].server, b[i + 1].members[u].server;
    PostPrepare(server, b[i].net, b[i + 1].members[u].lastTried);
    FromNothingIsSmallest(server);
    assert m.to == server'.Recipients() == server'.majority by { ChosenAreReached(server); }
  }

  lemma ChosenAreReached(s: ServerState)
    requires Ascending(s.peers) && s.quorumSize <= |s.peers|
    ensures s.SelectMajority().Recipients() == s.SelectMajority().majority
  {
    hide Ascending, CyclicBefore;
    SelectionIsTheCyclicSuccessors(s);
    TooFewPeersKeepsChoice(s);
  }

  /** So two prepare requests from one table ask the same acceptors. */
  lemma SmallestAreUnique(peers: seq<Uid>, count: nat, a: set<Uid>, b: set<Uid>)
    requires SmallestPeers(peers, count, a) && SmallestPeers(peers, count, b)
    ensures a == b
  {
    if x :| x in a && x !in b {
      if y :| y in b && y !in a {
        UidLessTransitive(x, y, x);
        UidLessIrreflexive(x);
      } else {
        assert b <= a - {x} && |a - {x}| == count - 1;
        Quorums.SubsetSize(b, a - {x});
      }
    } else {
      Quorums.SubsetSize(a, b);
    }
  }
}
