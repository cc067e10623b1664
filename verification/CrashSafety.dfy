/** Acceptors that may crash: what was said is on disk, and why the immediate answers must wait. */
module CrashSafety {
  import opened ProposalIds
  import opened Messages
  import opened Acceptors
  import opened Systems
  import opened SystemSteps
  import opened SystemInvariant
  import opened Theorems
  import C = Consensus
  import CS = ConsensusSteps
  import A = Agreement

  /** The triple on disk stands for the promise: it promises as much and knows as late a vote. */
  predicate CoversPromise(t: Triple, m: PromiseMessage) {
    m.id.Le(t.promised) && m.prevId.Le(t.accepted)
  }

  /** The triple on disk stands for the permit: its vote is the permitted one or a later one. */
  predicate CoversPermit(t: Triple, m: PermitMessage) {
    m.id.Le(t.accepted) && (t.accepted == m.id ==> t.value == m.value)
  }

  lemma VoteIsBelowAccepted(c: C.Config, a: C.State, v: C.Vote)
    requires c.Valid() && C.Inv(c, a) && v in a.votes
    ensures v.from in a.stable && v.id.Le(a.stable[v.from].accepted)
    ensures v.id == a.stable[v.from].accepted ==> v.value == a.stable[v.from].value
  {
    hide C.Inv, C.WellFormed, C.Requested;
    CS.VoteHolds(c, a, v);
    StablePromised(c, a, v.from);
    var t := a.stable[v.from];
    if v.id == t.accepted {
      var x :| x in a.accepts && x.id == v.id && x.value == v.value;
      A.AcceptIsKnown(c, a, x);
      var own := C.Vote(v.from, t.accepted, t.value);
      CS.VoteHolds(c, a, own);
      var y :| y in a.accepts && y.id == own.id && y.value == own.value;
      A.OneRequestPerBallot(c, a, x, y);
    }
  }

  /** CRASH SAFETY. Throughout a run with crashes, every promise and permit ever sent is covered by
      its sender's triple on disk. */
  lemma SentIsOnDisk(cfg: Setup, b: seq<Cluster>, i: nat)
    requires cfg.Valid() && cfg.durable && IsRun(cfg, b) && i < |b|
    ensures forall m <- b[i].net.promises :: m.from in b[i].members && CoversPromise(b[i].members[m.from].saved, m)
    ensures forall m <- b[i].net.permits :: m.from in b[i].members && CoversPermit(b[i].members[m.from].saved, m)
  {
    hide SystemInv, C.Inv, IsRun, ProposersOf, TriedOf, TargetsOf, StableOf, CoversPromise, CoversPermit;
    InvariantAlways(cfg, b, i);
    InvIsCore(cfg, b[i]);
    forall m <- b[i].net.promises ensures m.from in b[i].members && CoversPromise(b[i].members[m.from].saved, m) {
      PromiseIsOnDisk(cfg, b[i], m);
    }
    forall m <- b[i].net.permits ensures m.from in b[i].members && CoversPermit(b[i].members[m.from].saved, m) {
      PermitIsOnDisk(cfg, b[i], m);
    }
  }

  lemma PromiseIsOnDisk(cfg: Setup, s: Cluster, m: PromiseMessage)
    requires cfg.Valid() && cfg.durable && C.Inv(cfg.core, Abs(cfg, s)) && m in s.net.promises
    ensures m.from in s.members && CoversPromise(s.members[m.from].saved, m)
  {
    hide C.Inv, ProposersOf, TriedOf, TargetsOf, StableOf, ProposalId.Compare;
    PromiseClosedAt(cfg, s, m);
    CS.PromiseHolds(cfg.core, Abs(cfg, s), m);
    AbsAt(cfg, s, m.from);
    var t := s.members[m.from].saved;
    if m.prevId == NO_ID {
      NoIdIsBottom(t.accepted);
    } else {
      VoteIsBelowAccepted(cfg.core, Abs(cfg, s), C.Vote(m.from, m.prevId, m.prevValue));
    }
  }

  lemma PermitIsOnDisk(cfg: Setup, s: Cluster, m: PermitMessage)
    requires cfg.Valid() && cfg.durable && C.Inv(cfg.core, Abs(cfg, s)) && m in s.net.permits
    ensures m.from in s.members && CoversPermit(s.members[m.from].saved, m)
  {
    hide C.Inv, ProposersOf, TriedOf, TargetsOf, StableOf, ProposalId.Compare;
    PermitIsVote(cfg.core, Abs(cfg, s), m);
    var v := C.Vote(m.from, m.id, m.value);
    CS.VoteHolds(cfg.core, Abs(cfg, s), v);
    CS.InvIsWellFormed(cfg.core, Abs(cfg, s));
    VoteIsBelowAccepted(cfg.core, Abs(cfg, s), v);
    SavedIsStable(cfg, s, m.from);
  }

  lemma SavedIsStable(cfg: Setup, s: Cluster, u: Uid)
    requires cfg.durable && u in Abs(cfg, s).stable
    ensures u in s.members && Abs(cfg, s).stable[u] == s.members[u].saved
  {
  }

  /** After a crash the acceptor is back at its disk, so it still stands for everything it sent. */
  lemma CrashForgetsNothingSent(cfg: Setup, b: seq<Cluster>, i: nat, u: Uid, now: nat)
    requires cfg.Valid() && cfg.durable && IsRun(cfg, b)
    requires i + 1 < |b| && Step(cfg, b[i], b[i + 1], u, Event.Crash(now))
    ensures u in b[i + 1].members
    ensures forall m <- b[i + 1].net.promises :: m.from == u ==>
              CoversPromise(b[i + 1].members[u].node.acceptor.triple, m)
    ensures forall m <- b[i + 1].net.permits :: m.from == u ==>
              CoversPermit(b[i + 1].members[u].node.acceptor.triple, m)
  {
    hide IsRun, CoversPromise, CoversPermit, Step, PostedBy, NetGrows, LogAfter;
    SentIsOnDisk(cfg, b, i + 1);
    StepAt(cfg, b[i], b[i + 1], u, Event.Crash(now));
    StepFollows(cfg, b[i], b[i + 1], u, Event.Crash(now));
  }

  // ----- the delivery rule

  /** While no reply is pending the disk is up to date, so the rule "hold such requests back while
      persistence is required" is enough for every request to be deliverable. */
  lemma NothingPendingMeansSaved(cfg: Setup, b: seq<Cluster>, i: nat, u: Uid)
    requires cfg.Valid() && cfg.durable && IsRun(cfg, b) && i < |b| && u in b[i].members
    requires !b[i].members[u].node.acceptor.PersistenceRequired()
    ensures b[i].members[u].saved == b[i].members[u].node.acceptor.triple
    ensures forall p <- b[i].net.prepares, now: nat :: u in p.to ==> Enabled(cfg, b[i], u, Event.GetPrepare(p, now))
    ensures forall p <- b[i].net.accepts :: u in p.to ==> Enabled(cfg, b[i], u, Event.GetAccept(p))
  {
    hide SystemInv, IsRun, C.MayBecome, Abs, At;
    InvariantAlways(cfg, b, i);
    SystemAt(cfg, b[i], u);
    AtAcceptorOk(cfg, b[i], u);
  }

  /** A vote at the saved vote's ballot is the saved vote: a ballot carries one value. */
  lemma SameBallotSameVote(c: C.Config, a: C.State, u: Uid, mem: Triple)
    requires c.Valid() && C.Inv(c, a) && u in c.nodes && u in a.stable
    requires C.MayBecome(a, u, a.stable[u], mem) && mem.accepted == a.stable[u].accepted
    ensures mem.value == a.stable[u].value
  {
    hide C.Inv, C.Known, C.Reached;
    var t := a.stable[u];
    if mem.value != t.value {
      var x :| x in a.accepts && x.id == mem.accepted && x.value == mem.value;
      A.AcceptIsKnown(c, a, x);
      StablePromised(c, a, u);
      StableVote(c, a, u);
      var v := C.Vote(u, t.accepted, t.value);
      CS.VoteHolds(c, a, v);
      var y :| y in a.accepts && y.id == v.id && y.value == v.value;
      A.OneRequestPerBallot(c, a, x, y);
    }
  }

  /** Memory against disk: it promises as much, its vote is as late, and at the same ballot it is
      the same vote. */
  lemma MemoryAgainstDisk(cfg: Setup, s: Cluster, u: Uid)
    requires cfg.Valid() && cfg.durable && SystemInv(cfg, s) && u in s.members
    ensures var mem, disk := s.members[u].node.acceptor.triple, s.members[u].saved;
            && disk.promised.Le(mem.promised)
            && (mem.accepted.Le(disk.accepted) <==> mem.accepted == disk.accepted)
            && (mem.accepted == disk.accepted <==> VoteSaved(s.members[u]))
            && s.members[u].node.acceptor.active
  {
    hide SystemInv, C.Inv, C.MayBecome, ProposersOf, TriedOf, TargetsOf, StableOf, At;
    SystemAt(cfg, s, u);
    AtAcceptorOk(cfg, s, u);
    AtFacts(cfg, s, u);
    AbsAt(cfg, s, u);
    var mem, disk := s.members[u].node.acceptor.triple, s.members[u].saved;
    StablePromised(cfg.core, Abs(cfg, s), u);
    CS.TripleRises(Abs(cfg, s), u, mem);
    OrderIsStrictAndTotal(mem.accepted, disk.accepted);
    assert disk.promised.Le(mem.promised) && disk.accepted.Le(mem.accepted);
    if mem.accepted == disk.accepted {
      SameBallotSameVote(cfg.core, Abs(cfg, s), u, mem);
    }
  }

  /** A prepare answered at once is answered by a promise that the disk covers if and only if the
      delivery rule lets it through: without the rule, the promise would be forgotten in a crash. */
  lemma ImmediatePromiseIsOnDiskIff(cfg: Setup, s: Cluster, u: Uid, from: Uid, id: ProposalId, now: nat)
    requires cfg.Valid() && cfg.durable && SystemInv(cfg, s) && u in s.members
    requires AnswersPrepareAtOnce(s.members[u].node.acceptor, id)
    ensures var m := s.members[u];
            var replies := m.node.acceptor.ReceivePrepare(from, id, now).1;
            && |replies| == 1 && replies[0].SendPromise?
            && (CoversPromise(m.saved, PromiseMessage(u, from, replies[0].id, replies[0].prevId, replies[0].prevValue))
                <==> m.saved == m.node.acceptor.triple)
  {
    hide SystemInv, C.MayBecome, Abs, At;
    MemoryAgainstDisk(cfg, s, u);
    var mem, disk := s.members[u].node.acceptor.triple, s.members[u].saved;
    OrderIsStrictAndTotal(id, mem.promised);
    OrderIsStrictAndTotal(mem.promised, disk.promised);
    OrderIsStrictAndTotal(disk.promised, mem.promised);
    hide ProposalId.Compare;
  }

  /** An accept request answered at once is answered by a permit that the disk covers if and only if
      the delivery rule lets it through. */
  lemma ImmediatePermitIsOnDiskIff(cfg: Setup, s: Cluster, u: Uid, from: Uid, id: ProposalId, value: Value)
    requires cfg.Valid() && cfg.durable && SystemInv(cfg, s) && u in s.members
    requires AnswersAcceptAtOnce(s.members[u].node.acceptor, id, value)
    ensures var m := s.members[u];
            var replies := m.node.acceptor.ReceiveAcceptRequest(from, id, value).1;
            && |replies| == 1 && replies[0].SendPermit?
            && (CoversPermit(m.saved, PermitMessage(u, from, replies[0].id, replies[0].value)) <==> VoteSaved(m))
  {
    hide SystemInv, C.MayBecome, Abs, At;
    MemoryAgainstDisk(cfg, s, u);
    OrderIsStrictAndTotal(id, s.members[u].node.acceptor.triple.accepted);
    hide ProposalId.Compare;
  }

  /** The rule on persisted(): a promise held back is covered by the disk when it is flushed if and
      only if the disk is up to date. */
  lemma FlushedPromiseIsOnDiskIff(cfg: Setup, s: Cluster, u: Uid)
    requires cfg.Valid() && cfg.durable && SystemInv(cfg, s) && u in s.members
    requires s.members[u].node.acceptor.pendingPromise != ""
    ensures var m := s.members[u];
            var replies := m.node.acceptor.Persisted().1;
            && replies != [] && replies[0].SendPromise?
            && var x := replies[0];
            (CoversPromise(m.saved, PromiseMessage(u, x.to, x.id, x.prevId, x.prevValue))
             <==> m.saved == m.node.acceptor.triple)
  {
    hide SystemInv, C.MayBecome, Abs, At;
    MemoryAgainstDisk(cfg, s, u);
    var mem, disk := s.members[u].node.acceptor.triple, s.members[u].saved;
    OrderIsStrictAndTotal(mem.promised, disk.promised);
    OrderIsStrictAndTotal(mem.promised, mem.promised);
    hide ProposalId.Compare;
  }

  /** A permit held back is covered by the disk when it is flushed if and only if the vote is saved. */
  lemma FlushedPermitIsOnDiskIff(cfg: Setup, s: Cluster, u: Uid)
    requires cfg.Valid() && cfg.durable && SystemInv(cfg, s) && u in s.members
    requires s.members[u].node.acceptor.pendingAccept != ""
    ensures var m := s.members[u];
            var replies := m.node.acceptor.Persisted().1;
            && replies != [] && replies[|replies| - 1].SendPermit?
            && var x := replies[|replies| - 1];
            (CoversPermit(m.saved, PermitMessage(u, x.to, x.id, x.value)) <==> VoteSaved(m))
  {
    hide SystemInv, C.MayBecome, Abs, At;
    MemoryAgainstDisk(cfg, s, u);
    hide ProposalId.Compare;
  }

  /** Without the rule a promise can be broken, from any state of an active acceptor: asked twice
      for a new ballot it answers the second time from memory, loses that memory in a crash, and
      then votes for any ballot that its disk does not rule out, strictly between the vote it
      reported and the ballot it promised. */
  lemma UnsavedAnswerBreaksPromise(
    a: AcceptorState, from: Uid, high: ProposalId, now: nat, low: ProposalId, v: Value, other: Uid, later: nat)
    requires a.active && a.pendingPromise == "" && from != "" && high.IsValid()
    requires !a.triple.promised.IsValid() || (a.triple.promised.Lt(high) && a.triple.promised.Le(low))
    requires a.triple.accepted.Lt(low) && low.Lt(high)
    ensures var asked := a.ReceivePrepare(from, high, now).0;
            var restarted := NewAcceptor(true, later).Recover(a.triple);
            && asked.PersistenceRequired()
            && asked.ReceivePrepare(from, high, now).1 == [SendPromise(from, high, a.triple.accepted, a.triple.value)]
            && restarted.triple.accepted != low
            && restarted.ReceiveAcceptRequest(other, low, v).0.triple == Triple(low, low, v)
  {
    OrderIsStrictAndTotal(high, high);
    OrderIsStrictAndTotal(high, a.triple.promised);
    OrderIsStrictAndTotal(low, a.triple.promised);
    OrderIsStrictAndTotal(a.triple.promised, low);
    OrderIsStrictAndTotal(low, a.triple.accepted);
    hide ProposalId.Compare;
  }

  /** A request that changes the triple leaves something pending if and only if the acceptor is
      active and the sender named, or the other kind of reply was pending already. */
  lemma ChangeIsPendingIff(a: AcceptorState, from: Uid, id: ProposalId, value: Value, now: nat)
    ensures var a' := a.ReceivePrepare(from, id, now).0;
            a'.triple != a.triple ==>
              (a'.PersistenceRequired() <==> (a.active && from != "") || a.pendingAccept != "")
    ensures var a' := a.ReceiveAcceptRequest(from, id, value).0;
            a'.triple != a.triple ==>
              (a'.PersistenceRequired() <==> (a.active && from != "") || a.pendingPromise != "")
  {
    hide ProposalId.Compare;
  }

  /** An acceptor that is inactive and has nothing pending takes on a promise without anything
      pending, and when it is active again it answers the same prepare at once from memory. So the
      rule on persistenceRequired() protects only acceptors that are always active. */
  lemma InactivePromiseIsNeverPending(
    a: AcceptorState, from: Uid, id: ProposalId, now: nat, from': Uid, now': nat)
    requires !a.active && !a.PersistenceRequired() && id.IsValid()
    requires a.ReceivePrepare(from, id, now).0.triple != a.triple
    ensures var asked := a.ReceivePrepare(from, id, now).0;
            && !asked.(active := true).PersistenceRequired()
            && asked.(active := true).ReceivePrepare(from', id, now').1
               == [SendPromise(from', id, a.triple.accepted, a.triple.value)]
  {
    OrderIsStrictAndTotal(id, id);
    OrderIsStrictAndTotal(id, a.triple.promised);
    hide ProposalId.Compare;
  }
}
