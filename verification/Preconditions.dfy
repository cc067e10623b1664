/** What the callers of a proposer must respect, and what happens when they do not. */
module Preconditions {
  import opened ProposalIds
  import opened Messages
  import opened Proposers
  import opened Systems
  import opened SystemSteps
  import opened SystemInvariant
  import opened Theorems
  import C = Consensus
  import CS = ConsensusSteps

  /** The promises a leader holds are for the ballot it prepared last. */
  lemma LeaderHasPromises(cfg: Setup, s: Cluster, u: Uid)
    requires cfg.Valid() && SystemInv(cfg, s) && u in s.members && s.members[u].node.proposer.leader
    ensures PromisedByQuorum(cfg, s, s.members[u].lastTried)
  {
    hide SystemInv, C.Inv, At, ProposersOf, TriedOf, TargetsOf, StableOf, CS.HoldsTo;
    SystemAt(cfg, s, u);
    AtFacts(cfg, s, u);
    AbsAt(cfg, s, u);
    var a := Abs(cfg, s);
    CS.OwnFacts(cfg.core, a, u);
    CS.InvIsWellFormed(cfg.core, a);
    CS.TargetsAreNodes(cfg.core, a, u);
    var T := s.members[u].node.proposer.promises;
    forall x <- T ensures exists m <- s.net.promises :: m.from == x && m.id == s.members[u].lastTried {
      assert C.Counted(a, x, s.members[u].lastTried, s.members[u].node.proposer.lastAccepted);
    }
    assert AllPromised(s, T, s.members[u].lastTried);
  }

  /** A ballot that was only bumped to has no promises at all. */
  lemma PromisedBallotIsLastTried(cfg: Setup, s: Cluster, u: Uid, m: PromiseMessage)
    requires cfg.Valid() && SystemInv(cfg, s) && u in s.members
    requires m in s.net.promises && m.id == s.members[u].node.proposer.ballot
    ensures m.id == s.members[u].lastTried
  {
    hide SystemInv, C.Inv, At, ProposersOf, TriedOf, TargetsOf, StableOf, C.ProposerOk, CS.HoldsTo;
    SystemAt(cfg, s, u);
    AtFacts(cfg, s, u);
    AbsAt(cfg, s, u);
    OrderIsStrictAndTotal(m.id, s.members[u].node.proposer.ballot);
    CS.OwnPromiseIsForLastTried(cfg.core, Abs(cfg, s), u, m);
  }

  /** A leader's present ballot has a quorum of promises behind it exactly when it is the ballot
      the leader prepared last: after a bump, what it would send has none. */
  lemma LeaderBallotIsBackedIff(cfg: Setup, s: Cluster, u: Uid)
    requires cfg.Valid() && SystemInv(cfg, s) && u in s.members && s.members[u].node.proposer.leader
    ensures PromisedByQuorum(cfg, s, s.members[u].node.proposer.ballot)
       <==> s.members[u].node.proposer.ballot == s.members[u].lastTried
  {
    hide SystemInv;
    LeaderHasPromises(cfg, s, u);
    var ballot := s.members[u].node.proposer.ballot;
    if T: set<Uid> :| T <= cfg.core.nodes && |T| >= cfg.core.quorumSize && AllPromised(s, T, ballot) {
      var x :| x in T;
      var m :| m in s.net.promises && m.from == x && m.id == ballot;
      PromisedBallotIsLastTried(cfg, s, u, m);
    }
  }

  /** Such a leader exists: it prepares one ballot, wins it, is told of a higher one by a refusal,
      stays leader, and sends its value under a ballot nobody was asked about. */
  lemma BumpedLeaderAsksUnprepared()
    ensures var opening := NewProposer("p", 2, true).Prepare(true);
            var won := opening.0.ReceivePromise("a", ProposalId(1, "p"), NO_ID, "").0
                                .ReceivePromise("b", ProposalId(1, "p"), NO_ID, "").0;
            var bumped := won.ReceiveNack(ProposalId(5, "q"));
            && opening.1 == [SendPrepare(ProposalId(1, "p"))]
            && won.leader && bumped.leader
            && bumped.SetProposal("v").1 == [SendAccept(ProposalId(5, "p"), "v")]
  {
    var b1, b5 := ProposalId(1, "p"), ProposalId(5, "q");
    var preparing := NewProposer("p", 2, true).Prepare(true).0;
    IncrementExceedsIff(ProposalId(0, "p"));
    OrderIsStrictAndTotal(b1, b1);
    OrderIsLexicographic(b1, b5);
    OrderIsStrictAndTotal(b5, b1);
    NumberRoundTrip(b5, b1);
    OrderIsStrictAndTotal(NO_ID, NO_ID);
    assert "a"[0] != "b"[0];
    var one := preparing.ReceivePromise("a", b1, NO_ID, "").0;
    assert one == preparing.(promises := {"a"});
    var two := one.ReceivePromise("b", b1, NO_ID, "").0;
    assert two.promises == {"a", "b"} && two.leader;
  }

  /** A leader without a value asks for two different values under one ballot exactly when it is
      first given the empty value: the empty value is sent, and still counts as none. */
  lemma TwoValuesOnOneBallotIff(r: ProposerState, v: Value, w: Value)
    requires r.leader && r.active && r.value == ""
    ensures var (r', first) := r.SetProposal(v);
            var second := r'.SetProposal(w).1;
            && first == [SendAccept(r.ballot, v)]
            && (second == [] || second == [SendAccept(r.ballot, w)])
            && (second != [] && v != w <==> v == "" && w != "")
  {
  }
}
