/** What holds over every run of the cluster: any interleaving of the nodes' events, over a network
    that loses, repeats, delays and reorders messages, with and without acceptor crashes. */
module Theorems {
  import opened ProposalIds
  import opened Messages
  import opened Acceptors
  import opened Learners
  import opened Quorums
  import opened Systems
  import opened SystemSteps
  import opened SystemInvariant
  import C = Consensus
  import CS = ConsensusSteps
  import A = Agreement

  // ----- runs

  ghost predicate IsRun(cfg: Setup, b: seq<Cluster>) {
    && |b| > 0 && Init(cfg, b[0])
    && forall i :: 0 <= i < |b| - 1 ==> Next(cfg, b[i], b[i + 1])
  }

  lemma FreshAcceptorOk(cfg: Setup, s: Cluster, u: Uid)
    requires cfg.Valid() && Init(cfg, s) && u in s.members
    ensures Systems.AcceptorOk(cfg, s, u) && LearnerOk(cfg, s, u) && NacksOk(s, u)
    ensures ServerOk(cfg, u, s.members[u].server)
  {
    assert FreshMember(cfg, u, s.members[u]);
    MayBecomeSelf(Abs(cfg, s), u, NO_TRIPLE);
  }

  /** The core's view of a node that has done nothing yet. */
  ghost predicate Blank(c: C.Config, a: C.State, u: Uid) {
    && u in a.proposers && u in a.lastTried && u in a.targets && u in a.stable
    && a.proposers[u].ballot == ProposalId(0, u) && a.proposers[u].uid == u
    && a.proposers[u].quorumSize == c.quorumSize && a.proposers[u].promises == {}
    && a.proposers[u].value == "" && a.proposers[u].lastAccepted == NO_ID && !a.proposers[u].leader
    && a.lastTried[u] == ProposalId(0, u) && a.targets[u] == {} && a.stable[u] == NO_TRIPLE
  }

  lemma FreshIsBlank(cfg: Setup, s: Cluster, u: Uid)
    requires Init(cfg, s) && u in s.members
    ensures Blank(cfg.core, Abs(cfg, s), u)
  {
    hide ProposersOf, TriedOf, TargetsOf, StableOf;
    assert FreshMember(cfg, u, s.members[u]);
    AbsAt(cfg, s, u);
  }

  lemma BlankIsWellFormed(c: C.Config, a: C.State)
    requires a.proposers.Keys == a.lastTried.Keys == a.targets.Keys == a.stable.Keys == c.nodes
    requires forall u <- c.nodes :: Blank(c, a, u)
    ensures C.WellFormed(c, a)
  {
    assert forall u <- c.nodes :: Blank(c, a, u);
  }

  lemma BlankIsOk(c: C.Config, a: C.State, u: Uid)
    requires Blank(c, a, u) && a.votes == {}
    ensures C.AcceptorOk(a, u) && C.ProposerOk(c, a, u)
  {
  }

  lemma BlankCore(c: C.Config, a: C.State)
    requires a.proposers.Keys == a.lastTried.Keys == a.targets.Keys == a.stable.Keys == c.nodes
    requires forall u <- c.nodes :: Blank(c, a, u)
    requires a.prepares == {} && a.promises == {} && a.accepts == {} && a.permits == {} && a.votes == {}
    ensures C.Inv(c, a)
  {
    hide Blank, C.WellFormed, C.AcceptorOk, C.ProposerOk, C.PromiseOk, C.AcceptOk, C.VoteOk, C.PermitOk,
      C.PrepareOk, C.AcceptMatchesOwner;
    forall u <- c.nodes ensures C.AcceptorOk(a, u) && C.ProposerOk(c, a, u) {
      BlankIsOk(c, a, u);
    }
    BlankIsWellFormed(c, a);
  }

  lemma AbsKeys(cfg: Setup, s: Cluster)
    ensures var a := Abs(cfg, s);
            a.proposers.Keys == a.lastTried.Keys == a.targets.Keys == a.stable.Keys == s.members.Keys
  {
  }

  lemma InitialCore(cfg: Setup, s: Cluster)
    requires cfg.Valid() && Init(cfg, s)
    ensures C.Inv(cfg.core, Abs(cfg, s))
  {
    hide Blank, FreshMember, C.Inv, ProposersOf, TriedOf, TargetsOf, StableOf;
    AbsKeys(cfg, s);
    forall u <- cfg.core.nodes ensures Blank(cfg.core, Abs(cfg, s), u) {
      FreshIsBlank(cfg, s, u);
    }
    BlankCore(cfg.core, Abs(cfg, s));
  }

  lemma InitialInv(cfg: Setup, s: Cluster)
    requires cfg.Valid() && Init(cfg, s)
    ensures SystemInv(cfg, s)
  {
    hide C.Inv, Abs, Systems.AcceptorOk, LearnerOk, NacksOk, ServerOk, FreshMember, RefusalOk, Setup.Valid;
    InitialCore(cfg, s);
    forall u <- s.members
      ensures Systems.AcceptorOk(cfg, s, u) && LearnerOk(cfg, s, u) && NacksOk(s, u)
      ensures ServerOk(cfg, u, s.members[u].server)
    {
      FreshAcceptorOk(cfg, s, u);
    }
  }

  /** The invariant of the whole system holds throughout every run. */
  lemma {:induction false} InvariantAlways(cfg: Setup, b: seq<Cluster>, i: nat)
    requires cfg.Valid() && IsRun(cfg, b) && i < |b|
    ensures SystemInv(cfg, b[i])
  {
    hide SystemInv, Step, Init;
    if i == 0 {
      InitialInv(cfg, b[0]);
    } else {
      InvariantAlways(cfg, b, i - 1);
      assert Next(cfg, b[i - 1], b[i - 1 + 1]);
      var u, e :| Step(cfg, b[i - 1], b[i], u, e);
      StepKeepsInv(cfg, b[i - 1], b[i], u, e);
    }
  }

  lemma {:induction false} HistoryGrows(cfg: Setup, b: seq<Cluster>, i: nat, j: nat)
    requires cfg.Valid() && IsRun(cfg, b) && i <= j < |b|
    ensures CS.Grows(Abs(cfg, b[i]), Abs(cfg, b[j])) && NetGrows(b[i].net, b[j].net)
    decreases j - i
  {
    hide SystemInv, Step, Init, CS.Grows, C.Inv, Abs;
    if i == j {
      InvariantAlways(cfg, b, i);
      InvIsCore(cfg, b[i]);
      StutterKeepsInv(cfg.core, Abs(cfg, b[i]));
    } else {
      HistoryGrows(cfg, b, i, j - 1);
      InvariantAlways(cfg, b, j - 1);
      assert Next(cfg, b[j - 1], b[j - 1 + 1]);
      var u, e :| Step(cfg, b[j - 1], b[j], u, e);
      StepKeepsInv(cfg, b[j - 1], b[j], u, e);
      GrowsTransitive(Abs(cfg, b[i]), Abs(cfg, b[j - 1]), Abs(cfg, b[j]));
    }
  }

  lemma InvIsCore(cfg: Setup, s: Cluster)
    requires SystemInv(cfg, s)
    ensures C.Inv(cfg.core, Abs(cfg, s)) && s.members.Keys == cfg.core.nodes
  {
    hide C.Inv, Abs, Systems.AcceptorOk, LearnerOk, NacksOk, RefusalOk, ServerOk, SendersNamed;
  }

  /** Both at once, for any two moments of a run: the later one has all the history. */
  lemma AtBoth(cfg: Setup, b: seq<Cluster>, i: nat, j: nat) returns (k: nat)
    requires cfg.Valid() && IsRun(cfg, b) && i < |b| && j < |b|
    ensures k < |b| && C.Inv(cfg.core, Abs(cfg, b[k])) && SystemInv(cfg, b[k])
    ensures CS.Grows(Abs(cfg, b[i]), Abs(cfg, b[k])) && CS.Grows(Abs(cfg, b[j]), Abs(cfg, b[k]))
  {
    hide SystemInv, CS.Grows, C.Inv, Abs, IsRun;
    k := if i < j then j else i;
    InvariantAlways(cfg, b, k);
    InvIsCore(cfg, b[k]);
    HistoryGrows(cfg, b, i, k);
    HistoryGrows(cfg, b, j, k);
  }

  lemma GrowsSets(a: C.State, b: C.State)
    requires CS.Grows(a, b)
    ensures a.prepares <= b.prepares && a.promises <= b.promises && a.accepts <= b.accepts
    ensures a.permits <= b.permits && a.votes <= b.votes && a.inputs <= b.inputs
  {
  }

  // ----- agreement

  lemma ReportersVoted(cfg: Setup, s: Cluster, u: Uid, l: LearnerState, a: Uid)
    requires cfg.Valid() && C.Inv(cfg.core, Abs(cfg, s)) && LearnerOk(cfg, s, u)
    requires exists m <- s.members[u].log :: m.id == l.finalId && m.value == l.finalValue
    requires a in Reporters(s.members[u].log, l.finalId)
    ensures a in cfg.core.nodes
    ensures C.Vote(a, l.finalId, l.finalValue) in s.votes
  {
    hide C.Inv, ProposersOf, TriedOf, TargetsOf, StableOf, Run;
    var log := s.members[u].log;
    var m :| m in log && m.id == l.finalId && m.value == l.finalValue;
    var x :| x in log && x.id == l.finalId && x.from == a;
    var v, w := C.Vote(m.from, m.id, m.value), C.Vote(x.from, x.id, x.value);
    CS.VoteHolds(cfg.core, Abs(cfg, s), v);
    CS.VoteHolds(cfg.core, Abs(cfg, s), w);
    var r :| r in Abs(cfg, s).accepts && r.id == v.id && r.value == v.value;
    var r' :| r' in Abs(cfg, s).accepts && r'.id == w.id && r'.value == w.value;
    A.OneRequestPerBallot(cfg.core, Abs(cfg, s), r, r');
  }

  /** Any learner that completes only on a quorum of the reports a node was given holds a value
      that a quorum voted for at one ballot. */
  lemma BackedIsChosen(cfg: Setup, s: Cluster, u: Uid, l: LearnerState)
    requires cfg.Valid() && SystemInv(cfg, s) && u in s.members
    requires l.IsComplete() && Backed(cfg.core.quorumSize, s.members[u].log, l)
    ensures A.ChosenAt(cfg.core, Abs(cfg, s), l.finalId, l.finalValue)
  {
    hide SystemInv, C.Inv, Reporters, ProposersOf, TriedOf, TargetsOf, StableOf, Run;
    InvIsCore(cfg, s);
    InvIsLearner(cfg, s, u);
    var Q := Reporters(s.members[u].log, l.finalId);
    forall a <- Q ensures a in cfg.core.nodes && C.Vote(a, l.finalId, l.finalValue) in s.votes {
      ReportersVoted(cfg, s, u, l, a);
    }
    assert A.AllVoted(cfg.core, Abs(cfg, s), Q, l.finalId, l.finalValue);
  }

  /** The learner as written, while its default-constructed counts are harmless. */
  lemma LearnedIsChosen(cfg: Setup, s: Cluster, u: Uid)
    requires cfg.Valid() && SystemInv(cfg, s) && u in s.members && s.members[u].node.learner.IsComplete()
    requires HarmlessLog(cfg.core.quorumSize, s.members[u].log)
    ensures A.ChosenAt(cfg.core, Abs(cfg, s), s.members[u].node.learner.finalId, s.members[u].node.learner.finalValue)
  {
    hide SystemInv, Abs, Run;
    InvIsLearner(cfg, s, u);
    RunIsBacked(cfg.core.quorumSize, s.members[u].log);
    BackedIsChosen(cfg, s, u, s.members[u].node.learner);
  }

  lemma InvIsLearner(cfg: Setup, s: Cluster, u: Uid)
    requires SystemInv(cfg, s) && u in s.members
    ensures LearnerOk(cfg, s, u)
  {
    hide C.Inv, Abs, Systems.AcceptorOk, LearnerOk, NacksOk, RefusalOk, ServerOk, SendersNamed;
  }

  lemma ChosenAgree(
    cfg: Setup, b: seq<Cluster>, i: nat, id: ProposalId, v: Value, j: nat, id': ProposalId, v': Value)
    requires cfg.Valid() && IsRun(cfg, b) && i < |b| && j < |b|
    requires A.ChosenAt(cfg.core, Abs(cfg, b[i]), id, v) && A.ChosenAt(cfg.core, Abs(cfg, b[j]), id', v')
    ensures v == v'
  {
    hide SystemInv, C.Inv, CS.Grows, IsRun, A.ChosenAt, ProposersOf, TriedOf, TargetsOf, StableOf;
    var k := AtBoth(cfg, b, i, j);
    GrowsSets(Abs(cfg, b[i]), Abs(cfg, b[k]));
    GrowsSets(Abs(cfg, b[j]), Abs(cfg, b[k]));
    A.ChosenStays(cfg.core, Abs(cfg, b[i]), Abs(cfg, b[k]), v);
    A.ChosenStays(cfg.core, Abs(cfg, b[j]), Abs(cfg, b[k]), v');
    A.AtMostOneChosen(cfg.core, Abs(cfg, b[k]), v, v');
  }

  /** AGREEMENT. Any two learners that are complete, at any two moments of a run, hold the same value. */
  lemma LearnersAgree(cfg: Setup, b: seq<Cluster>, i: nat, u: Uid, j: nat, w: Uid)
    requires cfg.Valid() && IsRun(cfg, b) && i < |b| && j < |b|
    requires u in b[i].members && b[i].members[u].node.learner.IsComplete()
    requires w in b[j].members && b[j].members[w].node.learner.IsComplete()
    requires HarmlessLog(cfg.core.quorumSize, b[i].members[u].log)
    requires HarmlessLog(cfg.core.quorumSize, b[j].members[w].log)
    ensures b[i].members[u].node.learner.finalValue == b[j].members[w].node.learner.finalValue
  {
    hide SystemInv, IsRun, A.ChosenAt, Abs;
    InvariantAlways(cfg, b, i);
    InvariantAlways(cfg, b, j);
    LearnedIsChosen(cfg, b[i], u);
    LearnedIsChosen(cfg, b[j], w);
    var l, l' := b[i].members[u].node.learner, b[j].members[w].node.learner;
    ChosenAgree(cfg, b, i, l.finalId, l.finalValue, j, l'.finalId, l'.finalValue);
  }

  /** AGREEMENT, INTENDED LEARNERS. Had the nodes counted the permits they were given as the header
      comments describe, any two complete learners would agree, with no condition on the counts. */
  lemma IntendedLearnersAgree(cfg: Setup, b: seq<Cluster>, i: nat, u: Uid, j: nat, w: Uid)
    requires cfg.Valid() && IsRun(cfg, b) && i < |b| && j < |b| && u in b[i].members && w in b[j].members
    requires RunIntended(cfg.core.quorumSize, b[i].members[u].log).IsComplete()
    requires RunIntended(cfg.core.quorumSize, b[j].members[w].log).IsComplete()
    ensures RunIntended(cfg.core.quorumSize, b[i].members[u].log).finalValue
         == RunIntended(cfg.core.quorumSize, b[j].members[w].log).finalValue
  {
    hide SystemInv, IsRun, A.ChosenAt, Abs, RunIntended;
    InvariantAlways(cfg, b, i);
    InvariantAlways(cfg, b, j);
    var log, log' := b[i].members[u].log, b[j].members[w].log;
    IntendedIsBacked(cfg.core.quorumSize, log);
    IntendedIsBacked(cfg.core.quorumSize, log');
    var l, l' := RunIntended(cfg.core.quorumSize, log), RunIntended(cfg.core.quorumSize, log');
    BackedIsChosen(cfg, b[i], u, l);
    BackedIsChosen(cfg, b[j], w, l');
    ChosenAgree(cfg, b, i, l.finalId, l.finalValue, j, l'.finalId, l'.finalValue);
  }

  /** The cluster refines a write-once register: it starts unwritten, no event changes a written
      value, and every complete learner holds what the register holds. */
  lemma ClusterIsRegister(cfg: Setup, b: seq<Cluster>, i: nat)
    requires cfg.Valid() && IsRun(cfg, b) && i < |b|
    ensures i == 0 ==> A.RegisterInit(A.RegisterOf(cfg.core, Abs(cfg, b[i])))
    ensures i + 1 < |b| ==>
              A.RegisterNext(A.RegisterOf(cfg.core, Abs(cfg, b[i])), A.RegisterOf(cfg.core, Abs(cfg, b[i + 1])))
    ensures forall u <- b[i].members ::
              b[i].members[u].node.learner.IsComplete() && HarmlessLog(cfg.core.quorumSize, b[i].members[u].log) ==>
              A.RegisterOf(cfg.core, Abs(cfg, b[i])) == A.Written(b[i].members[u].node.learner.finalValue)
  {
    hide SystemInv, C.Inv, CS.Grows, A.ChosenAt, A.RegisterOf, ProposersOf, TriedOf, TargetsOf, StableOf, Next;
    InvariantAlways(cfg, b, i);
    InvIsCore(cfg, b[i]);
    if i == 0 {
      NothingChosenAtFirst(cfg, b[0]);
    }
    if i + 1 < |b| {
      InvariantAlways(cfg, b, i + 1);
      InvIsCore(cfg, b[i + 1]);
      HistoryGrows(cfg, b, i, i + 1);
      GrowsSets(Abs(cfg, b[i]), Abs(cfg, b[i + 1]));
      A.GrowthIsRegisterStep(cfg.core, Abs(cfg, b[i]), Abs(cfg, b[i + 1]));
    }
    forall u <- b[i].members
      | b[i].members[u].node.learner.IsComplete() && HarmlessLog(cfg.core.quorumSize, b[i].members[u].log)
      ensures A.RegisterOf(cfg.core, Abs(cfg, b[i])) == A.Written(b[i].members[u].node.learner.finalValue)
    {
      LearnedIsChosen(cfg, b[i], u);
      A.RegisterHoldsChosen(cfg.core, Abs(cfg, b[i]), b[i].members[u].node.learner.finalValue);
    }
  }

  lemma NobodyVotedAtFirst(cfg: Setup, s: Cluster, Q: set<Uid>, id: ProposalId, v: Value)
    requires cfg.Valid() && s.votes == {}
    ensures !A.AllVoted(cfg.core, Abs(cfg, s), Q, id, v)
  {
    hide ProposersOf, TriedOf, TargetsOf, StableOf;
    if a :| a in Q {
      assert C.Vote(a, id, v) !in s.votes;
    }
  }

  lemma NothingChosenAtFirst(cfg: Setup, s: Cluster)
    requires cfg.Valid() && s.votes == {}
    ensures A.RegisterInit(A.RegisterOf(cfg.core, Abs(cfg, s)))
  {
    hide A.AllVoted, Abs;
    forall Q, id, v ensures !A.AllVoted(cfg.core, Abs(cfg, s), Q, id, v) {
      NobodyVotedAtFirst(cfg, s, Q, id, v);
    }
  }

  // ----- ballots and values

  /** SAFE PROPOSALS. If a quorum votes for w at ballot c, at whatever time, every accept request
      for a higher ballot carries w, whenever it was sent. */
  lemma HigherRequestsCarryChosen(
    cfg: Setup, b: seq<Cluster>, i: nat, m: AcceptMessage, j: nat, c: ProposalId, w: Value)
    requires cfg.Valid() && IsRun(cfg, b) && i < |b| && j < |b|
    requires m in b[i].net.accepts && A.ChosenAt(cfg.core, Abs(cfg, b[j]), c, w) && c.Lt(m.id)
    ensures m.value == w
  {
    hide SystemInv, C.Inv, CS.Grows, IsRun, A.AllVoted, ProposersOf, TriedOf, TargetsOf, StableOf, ProposalId.Lt;
    var k := AtBoth(cfg, b, i, j);
    GrowsSets(Abs(cfg, b[i]), Abs(cfg, b[k]));
    GrowsSets(Abs(cfg, b[j]), Abs(cfg, b[k]));
    ChosenAtStays(cfg.core, Abs(cfg, b[j]), Abs(cfg, b[k]), c, w);
    A.SafeProposals(cfg.core, Abs(cfg, b[k]), c, w, m);
  }

  lemma ChosenAtStays(c: C.Config, a: C.State, a': C.State, id: ProposalId, v: Value)
    requires a.votes <= a'.votes && A.ChosenAt(c, a, id, v)
    ensures A.ChosenAt(c, a', id, v)
  {
    var Q :| A.AllVoted(c, a, Q, id, v);
    assert A.AllVoted(c, a', Q, id, v);
  }

  /** ONE VALUE PER BALLOT. Accept requests with the same ID carry the same value, over a whole run. */
  lemma SameBallotSameValue(cfg: Setup, b: seq<Cluster>, i: nat, m: AcceptMessage, j: nat, m': AcceptMessage)
    requires cfg.Valid() && IsRun(cfg, b) && i < |b| && j < |b|
    requires m in b[i].net.accepts && m' in b[j].net.accepts && m.id == m'.id
    ensures m.value == m'.value
  {
    hide SystemInv, C.Inv, CS.Grows, IsRun, ProposersOf, TriedOf, TargetsOf, StableOf;
    var k := AtBoth(cfg, b, i, j);
    GrowsSets(Abs(cfg, b[i]), Abs(cfg, b[k]));
    GrowsSets(Abs(cfg, b[j]), Abs(cfg, b[k]));
    A.OneRequestPerBallot(cfg.core, Abs(cfg, b[k]), m, m');
  }

  /** A quorum of distinct acceptors has each sent a promise for exactly this ballot. */
  ghost predicate PromisedByQuorum(cfg: Setup, s: Cluster, id: ProposalId) {
    exists T: set<Uid> :: T <= cfg.core.nodes && |T| >= cfg.core.quorumSize && AllPromised(s, T, id)
  }

  ghost predicate AllPromised(s: Cluster, T: set<Uid>, id: ProposalId) {
    forall a <- T :: exists m <- s.net.promises :: m.from == a && m.id == id
  }

  /** REAL QUORUM. An accept request is sent only for a ballot that a quorum promised. */
  lemma RequestHasQuorum(cfg: Setup, b: seq<Cluster>, i: nat, m: AcceptMessage)
    requires cfg.Valid() && IsRun(cfg, b) && i < |b| && m in b[i].net.accepts
    ensures PromisedByQuorum(cfg, b[i], m.id)
  {
    hide SystemInv, C.Inv, IsRun, C.Closed, ProposersOf, TriedOf, TargetsOf, StableOf;
    InvariantAlways(cfg, b, i);
    InvIsCore(cfg, b[i]);
    CS.AcceptHolds(cfg.core, Abs(cfg, b[i]), m);
    var T, L :| C.JustifiedBy(cfg.core, Abs(cfg, b[i]), m.id, m.value, T, L);
    forall a <- T ensures exists x <- b[i].net.promises :: x.from == a && x.id == m.id {
      assert C.Promised(Abs(cfg, b[i]), a, m.id);
    }
    assert AllPromised(b[i], T, m.id);
  }

  /** PROMISES STAY TRUE. Once a promise (id, prevId, prevValue) is sent, its sender has not voted
      and will not vote strictly between prevId and id, it keeps a promise of at least id, and
      prevValue was its vote at prevId, if it had voted at all. */
  lemma PromisesStayTrue(cfg: Setup, b: seq<Cluster>, i: nat, m: PromiseMessage, j: nat)
    requires cfg.Valid() && IsRun(cfg, b) && i < |b| && j < |b| && m in b[i].net.promises
    ensures m.prevId.Le(m.id)
    ensures m.prevId == NO_ID ==> m.prevValue == ""
    ensures m.prevId != NO_ID ==> C.Vote(m.from, m.prevId, m.prevValue) in b[i].votes
    ensures forall v <- b[j].votes :: v.from == m.from ==> !(m.prevId.Lt(v.id) && v.id.Lt(m.id))
    ensures i <= j ==> m.from in b[j].members && m.id.Le(Stable(cfg, b[j].members[m.from]).promised)
  {
    hide SystemInv, C.Inv, CS.Grows, IsRun, ProposersOf, TriedOf, TargetsOf, StableOf, ProposalId.Compare, Stable;
    InvariantAlways(cfg, b, i);
    InvIsCore(cfg, b[i]);
    CS.PromiseHolds(cfg.core, Abs(cfg, b[i]), m);
    OrderIsStrictAndTotal(m.prevId, m.id);
    var k := AtBoth(cfg, b, i, j);
    GrowsSets(Abs(cfg, b[i]), Abs(cfg, b[k]));
    GrowsSets(Abs(cfg, b[j]), Abs(cfg, b[k]));
    PromiseClosedAt(cfg, b[k], m);
    forall v <- b[j].votes | v.from == m.from ensures !(m.prevId.Lt(v.id) && v.id.Lt(m.id)) {
      OrderIsStrictAndTotal(v.id, m.prevId);
    }
    if i <= j {
      HistoryGrows(cfg, b, i, j);
      GrowsSets(Abs(cfg, b[i]), Abs(cfg, b[j]));
      InvariantAlways(cfg, b, j);
      InvIsCore(cfg, b[j]);
      PromiseClosedAt(cfg, b[j], m);
    }
  }

  lemma PromiseClosedAt(cfg: Setup, s: Cluster, m: PromiseMessage)
    requires C.Inv(cfg.core, Abs(cfg, s)) && m in s.net.promises
    ensures forall v <- s.votes :: v.from == m.from && v.id.Lt(m.id) ==> v.id.Le(m.prevId)
    ensures m.from in s.members && m.id.Le(Stable(cfg, s.members[m.from]).promised)
  {
    hide C.Inv, ProposersOf, TriedOf, TargetsOf, ProposalId.Compare;
    CS.PromiseHolds(cfg.core, Abs(cfg, s), m);
    assert C.Closed(Abs(cfg, s), m.from, m.prevId, m.id);
    AbsAt(cfg, s, m.from);
    OrderIsStrictAndTotal(m.id, Stable(cfg, s.members[m.from]).promised);
  }

  /** VALIDITY. Every vote, and every learned value, was handed to some proposer by a client. */
  lemma OnlyClientValues(cfg: Setup, b: seq<Cluster>, i: nat)
    requires cfg.Valid() && IsRun(cfg, b) && i < |b|
    ensures forall v <- b[i].votes :: v.value in b[i].inputs
    ensures forall u <- b[i].members :: b[i].members[u].node.learner.IsComplete() ==>
              b[i].members[u].node.learner.finalValue in b[i].inputs
  {
    hide SystemInv, C.Inv, IsRun, Run, ProposersOf, TriedOf, TargetsOf, StableOf, C.Justified;
    InvariantAlways(cfg, b, i);
    InvIsCore(cfg, b[i]);
    var a := Abs(cfg, b[i]);
    forall v <- b[i].votes ensures v.value in b[i].inputs {
      CS.VoteHolds(cfg.core, a, v);
      var m :| m in a.accepts && m.id == v.id && m.value == v.value;
      CS.AcceptHolds(cfg.core, a, m);
    }
    forall u <- b[i].members | b[i].members[u].node.learner.IsComplete()
      ensures b[i].members[u].node.learner.finalValue in b[i].inputs
    {
      InvIsLearner(cfg, b[i], u);
      var log := b[i].members[u].log;
      ResultIsReported(cfg.core.quorumSize, log);
      var r :| r in log && r.value == b[i].members[u].node.learner.finalValue;
      assert C.Vote(r.from, r.id, r.value) in b[i].votes;
    }
  }

  // ----- refusals

  ghost predicate RefusedAndNotVoted(s: Cluster, a: Uid, id: ProposalId) {
    && (exists m <- s.net.acceptAcks :: m.from == a && m.id == id)
    && forall v <- s.votes :: v.from == a ==> v.id != id
  }

  /** REFUSALS KILL A BALLOT. Without crashes, once a quorum of acceptors that had not voted for a
      ballot have refused it, no quorum ever votes for it. */
  lemma RefusedBallotIsDead(cfg: Setup, b: seq<Cluster>, i: nat, id: ProposalId, R: set<Uid>, j: nat, v: Value)
    requires cfg.Valid() && !cfg.durable && IsRun(cfg, b) && i < |b| && j < |b|
    requires R <= cfg.core.nodes && |R| >= cfg.core.quorumSize
    requires forall a <- R :: RefusedAndNotVoted(b[i], a, id)
    ensures !A.ChosenAt(cfg.core, Abs(cfg, b[j]), id, v)
  {
    hide SystemInv, C.Inv, CS.Grows, IsRun, ProposersOf, TriedOf, TargetsOf, StableOf, RefusedAndNotVoted;
    if A.ChosenAt(cfg.core, Abs(cfg, b[j]), id, v) {
      var Q :| A.AllVoted(cfg.core, Abs(cfg, b[j]), Q, id, v);
      var a := QuorumsIntersect(cfg.core.nodes, cfg.core.quorumSize, Q, R);
      NeverVotesAfterRefusal(cfg, b, i, id, a, j, v);
    }
  }

  lemma NeverVotesAfterRefusal(cfg: Setup, b: seq<Cluster>, i: nat, id: ProposalId, a: Uid, j: nat, v: Value)
    requires cfg.Valid() && !cfg.durable && IsRun(cfg, b) && i < |b| && j < |b|
    requires RefusedAndNotVoted(b[i], a, id)
    ensures C.Vote(a, id, v) !in b[j].votes
  {
    hide SystemInv, C.Inv, IsRun, ProposersOf, TriedOf, TargetsOf, StableOf, ProposalId.Compare;
    InvariantAlways(cfg, b, i);
    InvIsCore(cfg, b[i]);
    var m :| m in b[i].net.acceptAcks && m.from == a && m.id == id;
    OldRefusal(cfg, b[i], m);
    AbsAt(cfg, b[i], a);
    if j <= i {
      HistoryGrows(cfg, b, j, i);
      GrowsSets(Abs(cfg, b[j]), Abs(cfg, b[i]));
    } else {
      HistoryGrows(cfg, b, i, j);
      OrderIsStrictAndTotal(id, b[i].members[a].node.acceptor.triple.promised);
    }
  }

  // ----- a learner that heard of one ballot only

  lemma VotersWereAsked(cfg: Setup, s: Cluster, v: C.Vote)
    requires C.Inv(cfg.core, Abs(cfg, s)) && v in s.votes
    ensures v.from in C.Asked(s.net.prepares, s.net.accepts, v.id) && v.value != "" && C.Known(Abs(cfg, s), v.id)
  {
    hide C.Inv, ProposersOf, TriedOf, TargetsOf, StableOf;
    CS.VoteHolds(cfg.core, Abs(cfg, s), v);
    var m :| m in Abs(cfg, s).accepts && m.id == v.id && m.value == v.value && v.from in m.to;
    CS.AcceptHolds(cfg.core, Abs(cfg, s), m);
  }

  /** EXACT TARGETING. No ballot is ever addressed to more than a quorum of acceptors, prepares,
      accept requests and repetitions of both counted together, so no more ever vote for it. */
  lemma BallotReachesOneQuorum(cfg: Setup, b: seq<Cluster>, i: nat, id: ProposalId)
    requires cfg.Valid() && IsRun(cfg, b) && i < |b|
    ensures |C.Asked(b[i].net.prepares, b[i].net.accepts, id)| <= cfg.core.quorumSize
    ensures forall v <- b[i].votes :: v.id == id ==> v.from in C.Asked(b[i].net.prepares, b[i].net.accepts, id)
  {
    hide SystemInv, IsRun, C.Inv, Abs, C.Asked;
    InvariantAlways(cfg, b, i);
    InvIsCore(cfg, b[i]);
    FewWereAsked(cfg, b[i], id);
    forall v <- b[i].votes | v.id == id ensures v.from in C.Asked(b[i].net.prepares, b[i].net.accepts, id) {
      VotersWereAsked(cfg, b[i], v);
    }
  }

  lemma FewWereAsked(cfg: Setup, s: Cluster, id: ProposalId)
    requires C.Inv(cfg.core, Abs(cfg, s))
    ensures |C.Asked(s.net.prepares, s.net.accepts, id)| <= cfg.core.quorumSize
  {
    hide C.WellFormed, C.PromiseOk, C.AcceptOk, C.VoteOk, C.PermitOk, C.ProposerOk, C.AcceptorOk, C.PrepareOk,
      C.AcceptMatchesOwner, C.OneValue, C.Asked, ProposersOf, TriedOf, TargetsOf, StableOf;
    assert C.FewAsked(cfg.core, Abs(cfg, s), id);
  }

  /** A ballot goes to at most quorumSize acceptors and the learner does not count the first report,
      so a learner that has heard of one ballot only, whichever it is, is never complete, not even
      when every acceptor that was asked has voted. */
  lemma OneBallotIsNeverLearned(cfg: Setup, b: seq<Cluster>, i: nat, u: Uid, id: ProposalId)
    requires cfg.Valid() && IsRun(cfg, b) && i < |b| && u in b[i].members
    requires forall r <- b[i].members[u].log :: r.id == id
    ensures !b[i].members[u].node.learner.IsComplete()
  {
    hide SystemInv, IsRun, C.Inv, Abs, Run, C.Asked, C.Known;
    var s, log := b[i], b[i].members[u].log;
    InvariantAlways(cfg, b, i);
    InvIsCore(cfg, s);
    InvIsLearner(cfg, s, u);
    BallotReachesOneQuorum(cfg, b, i, id);
    forall r <- log ensures r.value != "" && r.id.IsValid() {
      assert C.Vote(r.from, r.id, r.value) in s.votes;
      VotersWereAsked(cfg, s, C.Vote(r.from, r.id, r.value));
      CS.InvIsWellFormed(cfg.core, Abs(cfg, s));
      CS.KnownIsValid(cfg.core, Abs(cfg, s), r.id);
    }
    forall a <- Reporters(log, id) ensures a in C.Asked(s.net.prepares, s.net.accepts, id) {
      var r :| r in log && r.id == id && r.from == a;
      assert C.Vote(r.from, r.id, r.value) in s.votes;
    }
    SubsetSize(Reporters(log, id), C.Asked(s.net.prepares, s.net.accepts, id));
    if log == [] {
      RunNothing(cfg);
    } else {
      assert log[0] in log;
      OneBallotCompletesIff(cfg.core.quorumSize, log, id);
    }
  }
}
