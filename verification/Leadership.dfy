/** Leadership: convergence on the highest announced ballot, and stepping down on refusals. */
module Leadership {
  import opened ProposalIds
  import opened Messages
  import opened Proposers
  import opened Nodes
  import opened Heartbeats
  import opened Systems
  import opened SystemSteps
  import opened SystemInvariant
  import opened Theorems
  import opened Ballots
  import opened Learners
  import opened Acceptors
  import opened Servers
  import opened Quorums
  import C = Consensus
  import CS = ConsensusSteps
  import A = Agreement

  // ----- heartbeats and leaders in a run

  /** The leader a node knows of is the owner of the leader's ballot, or there is none. */
  predicate NamesOwner(n: NodeState) {
    if n.leaderId.IsValid() then n.leaderUid == n.leaderId.uid else n.leaderId == NO_ID && n.leaderUid == ""
  }

  /** Every heartbeat is a proposer's own, and every node's leader is the owner of its ballot. */
  ghost predicate OwnersLead(s: Cluster) {
    && (forall h <- s.net.heartbeats :: h.from == h.leaderUid == h.leaderId.uid && h.from != "")
    && (forall u <- s.members :: NamesOwner(s.members[u].node))
  }

  lemma PulseNamesOwner(n: NodeState, now: nat)
    requires NamesOwner(n) && n.proposer.uid == n.proposer.ballot.uid != ""
    ensures NamesOwner(n.Pulse(now).0)
    ensures forall x <- n.Pulse(now).1 :: x.SendHeartbeat? ==> x.leaderUid == x.leaderId.uid == n.proposer.uid
  {
    hide ProposalId.Compare, ProposerState.Observe;
  }

  lemma PromiseNamesOwner(n: NodeState, p: PromiseMessage, now: nat)
    requires NamesOwner(n) && n.proposer.uid == n.proposer.ballot.uid != ""
    ensures NamesOwner(n.ReceivePromise(p.from, p.id, p.prevId, p.prevValue, now).0)
    ensures forall x <- n.ReceivePromise(p.from, p.id, p.prevId, p.prevValue, now).1 ::
              x.SendHeartbeat? ==> x.leaderUid == x.leaderId.uid == n.proposer.uid
  {
    var (r', sent) := n.proposer.ReceivePromise(p.from, p.id, p.prevId, p.prevValue);
    assert r'.uid == n.proposer.uid && forall x <- sent :: !x.SendHeartbeat? by {
      hide ProposalId.Compare, ProposerState.Observe;
      ObserveRaises(n.proposer, p.id);
    }
    PromiseObserves(n.proposer, p);
    ObserveRaises(n.proposer, p.id);
    hide ProposerState.ReceivePromise, NodeState.Pulse, ProposerState.Observe;
    var taking := n.(proposer := r', leaderUid := r'.uid, leaderId := r'.ballot, acquiring := false);
    PulseNamesOwner(taking, now);
  }

  lemma HeardNamesOwner(n: NodeState, h: HeartbeatMessage, now: nat)
    requires NamesOwner(n) && h.leaderUid == h.leaderId.uid != ""
    ensures var (n', effects) := n.ReceiveHeartbeat(h.leaderUid, h.leaderId, now);
            NamesOwner(n') && forall x <- effects :: !x.SendHeartbeat?
  {
    hide ProposalId.Compare, ProposerState.Observe;
  }

  /** Every other event leaves the leader alone or forgets it, and announces nothing. */
  lemma OthersNameOwner(cfg: Setup, m: Member, e: Event)
    requires !e.Pulse? && !e.GetPromise? && !e.GetHeartbeat? && NamesOwner(m.node)
    ensures NamesOwner(React(cfg, m, e).0)
    ensures forall x <- React(cfg, m, e).1 :: !x.SendHeartbeat?
  {
    hide ProposalId.Compare, ProposerState.Observe, LearnerState.ReceiveAccepted;
    if e.GetPermit? { HearAnnouncesNothing(cfg, m.node, e.permit, e.blank); }
  }

  lemma HearAnnouncesNothing(cfg: Setup, n: NodeState, p: PermitMessage, blank: Tally)
    ensures var (n', effects) := Hear(cfg, n, p, blank);
            && n' == n.(learner := n'.learner) && forall x <- effects :: x.OnResolution?
  {
  }

  lemma EventNamesOwner(cfg: Setup, m: Member, e: Event)
    requires NamesOwner(m.node) && m.node.proposer.uid == m.node.proposer.ballot.uid != ""
    requires e.GetHeartbeat? ==> e.heartbeat.leaderUid == e.heartbeat.leaderId.uid != ""
    ensures NamesOwner(React(cfg, m, e).0)
    ensures forall x <- React(cfg, m, e).1 ::
              x.SendHeartbeat? ==> x.leaderUid == x.leaderId.uid == m.node.proposer.uid
  {
    hide NamesOwner, NodeState.Pulse, NodeState.ReceivePromise, NodeState.ReceiveHeartbeat;
    match e
    case Pulse(now) => PulseNamesOwner(m.node, now);
    case GetPromise(p, now) => PromiseNamesOwner(m.node, p, now);
    case GetHeartbeat(p, now) => HeardNamesOwner(m.node, p, now);
    case _ => OthersNameOwner(cfg, m, e);
  }

  /** OWNERS LEAD. Throughout a run every heartbeat is sent by the owner of the ballot it announces,
      and every node that knows a leader knows the owner of the leader's ballot. */
  lemma {:induction false} OwnersLeadAlways(cfg: Setup, b: seq<Cluster>, i: nat)
    requires cfg.Valid() && IsRun(cfg, b) && i < |b|
    ensures OwnersLead(b[i])
  {
    hide SystemInv, Step, NamesOwner, C.Inv, ProposersOf, TriedOf, TargetsOf, StableOf, CS.HoldsTo, C.ProposerOk;
    if i == 0 {
      FreshNamesOwner(cfg, b[0]);
    } else {
      OwnersLeadAlways(cfg, b, i - 1);
      assert Next(cfg, b[i - 1], b[i - 1 + 1]);
      var u, e :| Step(cfg, b[i - 1], b[i], u, e);
      InvariantAlways(cfg, b, i - 1);
      StepNamesOwner(cfg, b[i - 1], b[i], u, e);
    }
  }

  lemma FreshNamesOwner(cfg: Setup, s: Cluster)
    requires Init(cfg, s)
    ensures OwnersLead(s)
  {
    forall u <- s.members ensures NamesOwner(s.members[u].node) {
      assert FreshMember(cfg, u, s.members[u]);
    }
  }

  lemma StepNamesOwner(cfg: Setup, s: Cluster, s': Cluster, u: Uid, e: Event)
    requires cfg.Valid() && SystemInv(cfg, s) && Step(cfg, s, s', u, e) && OwnersLead(s)
    ensures OwnersLead(s')
  {
    hide SystemInv, Step, NamesOwner, C.Inv, ProposersOf, TriedOf, TargetsOf, StableOf, CS.HoldsTo, C.ProposerOk,
      React, LogAfter, After;
    StepAt(cfg, s, s', u, e);
    StepFollows(cfg, s, s', u, e);
    SystemAt(cfg, s, u);
    AtFacts(cfg, s, u);
    AbsAt(cfg, s, u);
    CS.OwnFacts(cfg.core, Abs(cfg, s), u);
    EventNamesOwner(cfg, s.members[u], e);
  }

  /** The announcements all come from heartbeats that were sent. */
  ghost predicate Sent(net: Network, beats: seq<Beat>) {
    forall x <- beats :: exists h <- net.heartbeats :: h.leaderUid == x.uid && h.leaderId == x.id
  }

  lemma SentAreOwn(net: Network, beats: seq<Beat>)
    requires Sent(net, beats)
    requires forall h <- net.heartbeats :: h.from == h.leaderUid == h.leaderId.uid && h.from != ""
    ensures forall x <- beats :: x.id.IsValid() && x.uid == x.id.uid
  {
    forall x <- beats ensures x.id.IsValid() && x.uid == x.id.uid {
      var h :| h in net.heartbeats && h.leaderUid == x.uid && h.leaderId == x.id;
    }
  }

  /** LEADERS CONVERGE IN RUNS. Two nodes, at any two moments, that know of the same leader's ballot
      and then hear the same of the heartbeats sent, in whatever orders and with whatever
      repetitions, agree on the leader's ballot and UID: the owner of the highest ballot announced. */
  lemma RunLeadersConverge(
    cfg: Setup, b: seq<Cluster>, i: nat, u: Uid, j: nat, w: Uid, k: nat, beats: seq<Beat>, others: seq<Beat>)
    requires cfg.Valid() && IsRun(cfg, b) && i < |b| && j < |b| && k < |b|
    requires u in b[i].members && w in b[j].members
    requires b[i].members[u].node.leaderId == b[j].members[w].node.leaderId
    requires Sent(b[k].net, beats) && Sent(b[k].net, others) && Covers(others, beats) && Covers(beats, others)
    ensures var n, m := HearBeats(b[i].members[u].node, beats), HearBeats(b[j].members[w].node, others);
            && n.leaderId == m.leaderId && n.leaderUid == m.leaderUid
            && n.leaderUid == n.leaderId.uid
            && forall x <- beats :: x.id.Le(n.leaderId)
  {
    hide IsRun, Sent, Covers, HearBeats, NamesOwner;
    OwnersLeadAlways(cfg, b, i);
    OwnersLeadAlways(cfg, b, j);
    OwnersLeadAlways(cfg, b, k);
    SentAreOwn(b[k].net, beats);
    SentAreOwn(b[k].net, others);
    OwnersConverge(b[i].members[u].node, beats, b[j].members[w].node, others);
  }

  /** Heartbeats of owners only, heard by nodes that know owners only. */
  lemma OwnersConverge(n: NodeState, beats: seq<Beat>, m: NodeState, others: seq<Beat>)
    requires NamesOwner(n) && NamesOwner(m) && n.leaderId == m.leaderId
    requires Covers(others, beats) && Covers(beats, others)
    requires forall x <- beats :: x.id.IsValid() && x.uid == x.id.uid
    ensures var n', m' := HearBeats(n, beats), HearBeats(m, others);
            && n'.leaderId == m'.leaderId && n'.leaderUid == m'.leaderUid && n'.leaderUid == n'.leaderId.uid
            && forall x <- beats :: x.id.Le(n'.leaderId)
  {
    hide Covers, ProposalId.Compare, NodeState.ReceiveHeartbeat;
    if beats == [] {
      if others != [] { var x := Announced(beats, others, others[0]); }
    } else {
      var top := TopExists(n, beats);
      assert beats[0] in beats;
      NoIdIsBottom(beats[0].id);
      OrderIsStrictAndTotal(beats[0].id, top);
      LeadersConverge(n, beats, m, others, top);
      TopIsOwned(n, beats, top);
    }
  }

  /** A leader that was known or sent is the owner of its ballot. */
  lemma TopIsOwned(n: NodeState, beats: seq<Beat>, top: ProposalId)
    requires IsTop(n, beats, top) && top.IsValid() && NamesOwner(n)
    requires forall x <- beats :: x.uid == x.id.uid
    ensures HearBeats(n, beats).leaderUid == top.uid
  {
    hide HearBeats, ProposalId.Le;
    HeardAll(n, beats, top);
    if n.leaderId != top {
      var k := FirstExists(beats, top);
      assert beats[k] in beats;
    }
  }

  // ----- the leader a node knows of, over the events of a run

  /** A run with its events: event k of node us[k] leads from b[k] to b[k + 1]. */
  ghost predicate IsTrace(cfg: Setup, b: seq<Cluster>, us: seq<Uid>, es: seq<Event>) {
    && |b| == |us| + 1 == |es| + 1 && Init(cfg, b[0])
    && forall k :: 0 <= k < |es| ==> Step(cfg, b[k], b[k + 1], us[k], es[k])
  }

  lemma TraceIsRun(cfg: Setup, b: seq<Cluster>, us: seq<Uid>, es: seq<Event>)
    requires IsTrace(cfg, b, us, es)
    ensures IsRun(cfg, b)
  {
    hide Step, Init;
    forall k | 0 <= k < |b| - 1 ensures Next(cfg, b[k], b[k + 1]) {
      assert Step(cfg, b[k], b[k + 1], us[k], es[k]);
    }
  }

  /** The event is a refusal on which the node gives up the lead. */
  predicate GivesUp(m: Member, e: Event) {
    e.GetAcceptAck? && StepsDown(m, e.acceptAck)
  }

  lemma EventRaisesLeader(cfg: Setup, m: Member, e: Event)
    requires NamesOwner(m.node) && !GivesUp(m, e)
    ensures m.node.leaderId.Le(React(cfg, m, e).0.leaderId)
    ensures e.GetHeartbeat? && e.heartbeat.leaderId.IsValid() ==>
              e.heartbeat.leaderId.Le(React(cfg, m, e).0.leaderId)
  {
    hide ProposerState.Observe, ProposalId.Compare, NodeState.Pulse, NodeState.ReceivePromise,
      LearnerState.ReceiveAccepted;
    match e
    case Pulse(now) => PulseRaisesLeader(m.node, now);
    case GetPromise(p, now) => PromiseRaisesLeader(m.node, p, now);
    case GetHeartbeat(p, now) => HeardRaisesLeader(m.node, p.leaderUid, p.leaderId, now);
    case GetAcceptAck(p) => RefusalKeepsLeader(m.node, p);
    case GetPermit(p, blank) => HearAnnouncesNothing(cfg, m.node, p, blank);
    case _ =>
  }

  lemma HeardRaisesLeader(n: NodeState, uid: Uid, id: ProposalId, now: nat)
    requires n.leaderId.IsValid() || n.leaderId == NO_ID
    ensures var n' := n.ReceiveHeartbeat(uid, id, now).0;
            n.leaderId.Le(n'.leaderId) && id.Le(n'.leaderId)
  {
    NoIdIsBottom(id);
    OrderIsStrictAndTotal(id, n.leaderId);
    hide ProposerState.Observe, ProposalId.Compare;
  }

  lemma PulseRaisesLeader(n: NodeState, now: nat)
    requires n.leaderId.IsValid() || n.leaderId == NO_ID
    ensures n.leaderId.Le(n.Pulse(now).0.leaderId)
  {
    HeardRaisesLeader(n, n.proposer.uid, n.proposer.ballot, now);
    hide NodeState.ReceiveHeartbeat;
  }

  /** A node takes the lead on its own only when it knows of no leader. */
  lemma PromiseRaisesLeader(n: NodeState, p: PromiseMessage, now: nat)
    requires NamesOwner(n)
    ensures n.leaderId.Le(n.ReceivePromise(p.from, p.id, p.prevId, p.prevValue, now).0.leaderId)
  {
    hide NodeState.Pulse, ProposerState.ReceivePromise, ProposalId.Compare;
    var r := n.proposer.ReceivePromise(p.from, p.id, p.prevId, p.prevValue).0;
    if n.leaderUid == "" {
      NoIdIsBottom(n.ReceivePromise(p.from, p.id, p.prevId, p.prevValue, now).0.leaderId);
    }
  }

  lemma RefusalKeepsLeader(n: NodeState, p: AcceptAckMessage)
    ensures var n' := n.ReceiveAcceptNack(p.from, p.id, p.promised).0;
            !(n.proposer.leader && !n'.proposer.leader) ==> n'.leaderId == n.leaderId
  {
    hide ProposalId.Compare, ProposalId.SetNumber;
  }

  /** The highest leader ballot known so far: it never falls, and covers every heartbeat delivered,
      as long as the node does not give up the lead on refusals, which makes it forget. */
  lemma {:induction false} LeaderNeverFalls(
    cfg: Setup, b: seq<Cluster>, us: seq<Uid>, es: seq<Event>, i: nat, j: nat, u: Uid)
    requires cfg.Valid() && IsTrace(cfg, b, us, es) && i <= j < |b| && u in b[i].members
    requires forall k :: i <= k < j && us[k] == u && u in b[k].members ==> !GivesUp(b[k].members[u], es[k])
    ensures u in b[j].members && b[i].members[u].node.leaderId.Le(b[j].members[u].node.leaderId)
    ensures forall k :: i <= k < j && us[k] == u && es[k].GetHeartbeat? ==>
              es[k].heartbeat.leaderId.Le(b[j].members[u].node.leaderId)
    decreases j - i
  {
    hide Step, Init, GivesUp;
    if i < j {
      LeaderNeverFalls(cfg, b, us, es, i, j - 1, u);
      assert Step(cfg, b[j - 1], b[j - 1 + 1], us[j - 1], es[j - 1]);
      assert us[j - 1] == u ==> !GivesUp(b[j - 1].members[u], es[j - 1]);
      TraceIsRun(cfg, b, us, es);
      OwnersLeadAlways(cfg, b, j - 1);
      StepRaisesLeader(cfg, b[j - 1], b[j], us[j - 1], es[j - 1], u);
      var last := b[j].members[u].node.leaderId;
      LeTransitive(b[i].members[u].node.leaderId, b[j - 1].members[u].node.leaderId, last);
      forall k | i <= k < j && us[k] == u && es[k].GetHeartbeat? ensures es[k].heartbeat.leaderId.Le(last) {
        if k < j - 1 { LeTransitive(es[k].heartbeat.leaderId, b[j - 1].members[u].node.leaderId, last); }
      }
    }
  }

  lemma StepRaisesLeader(cfg: Setup, s: Cluster, s': Cluster, u: Uid, e: Event, x: Uid)
    requires Step(cfg, s, s', u, e) && OwnersLead(s) && x in s.members
    requires x == u ==> !GivesUp(s.members[u], e)
    ensures x in s'.members && s.members[x].node.leaderId.Le(s'.members[x].node.leaderId)
    ensures x == u && e.GetHeartbeat? ==> e.heartbeat.leaderId.Le(s'.members[x].node.leaderId)
  {
    hide React, PostedBy, NetGrows, LogAfter, After, GivesUp, NamesOwner, Init;
    StepAt(cfg, s, s', u, e);
    StepFollows(cfg, s, s', u, e);
    assert NamesOwner(s.members[x].node);
    if x == u {
      HeartbeatIsSent(cfg, s, u, e);
      EventRaisesLeader(cfg, s.members[u], e);
    }
  }

  lemma HeartbeatIsSent(cfg: Setup, s: Cluster, u: Uid, e: Event)
    requires Enabled(cfg, s, u, e) && OwnersLead(s)
    ensures e.GetHeartbeat? ==> e.heartbeat.leaderId.IsValid()
  {
    hide NamesOwner;
  }

  // ----- having the lead and losing it

  /** A node that hears a heartbeat goes on leading if and only if it led, and the heartbeat is its own
      or not above a valid leader's ballot it knows. If it gives up, it says so, and its ballot has
      caught up with the heartbeat's. */
  lemma HeartbeatKeepsLeadIff(n: NodeState, uid: Uid, id: ProposalId, now: nat)
    ensures var (n', effects) := n.ReceiveHeartbeat(uid, id, now);
            && (n'.proposer.leader <==>
                  n.proposer.leader && (uid == n.proposer.uid || (n.leaderId.IsValid() && id.Le(n.leaderId))))
            && (OnLeadershipLost in effects <==> n.proposer.leader && !n'.proposer.leader)
            && (n.proposer.leader && !n'.proposer.leader ==>
                  n'.leaderUid == uid && n'.leaderId == id && id.number <= n'.proposer.ballot.number)
            && n'.proposer == n.proposer.(leader := n'.proposer.leader, ballot := n'.proposer.ballot)
            && (n'.proposer.leader == n.proposer.leader ==> n'.proposer == n.proposer)
            && (OnLeadershipChange(n.leaderUid, uid) in effects <==> n.Adopts(id))
            && n' == n.(proposer := n'.proposer, leaderUid := if n.Adopts(id) then uid else n.leaderUid,
                        leaderId := n'.leaderId, lastHeartbeat := n'.lastHeartbeat,
                        acquiring := n.acquiring && !n.Adopts(id))
  {
    ObserveRaises(n.proposer.(leader := false), id);
    OrderIsStrictAndTotal(id, n.leaderId);
    hide ProposalId.Compare, ProposerState.Observe;
  }

  /** A leader's pulse announces its own ballot and leaves its lead alone; it counts as a heartbeat
      heard if no higher leader is known. Any other node's pulse does nothing. */
  lemma PulseAnnouncesIff(n: NodeState, now: nat)
    requires n.proposer.ballot.IsValid()
    ensures var (n', effects) := n.Pulse(now);
            && ((exists x <- effects :: x.SendHeartbeat?) <==> n.proposer.leader)
            && (forall x <- effects :: x.SendHeartbeat? ==> x == SendHeartbeat(n.proposer.uid, n.proposer.ballot))
            && (!n.proposer.leader ==> n' == n && effects == [])
            && n'.proposer == n.proposer
            && (n.proposer.leader && (!n.leaderId.IsValid() || n.leaderId.Le(n.proposer.ballot)) ==>
                  n'.leaderId == n.proposer.ballot && n'.lastHeartbeat == now)
            && (n'.leaderId != n.leaderId ==> n'.leaderUid == n.proposer.uid)
            && (n.leaderId.IsValid() && n.proposer.ballot.Lt(n.leaderId) ==> n' == n)
  {
    var (m, heard) := n.ReceiveHeartbeat(n.proposer.uid, n.proposer.ballot, now);
    OrderIsStrictAndTotal(n.proposer.ballot, n.leaderId);
    OrderIsStrictAndTotal(n.proposer.ballot, n.proposer.ballot);
    HeartbeatKeepsLeadIff(n, n.proposer.uid, n.proposer.ballot, now);
    if n.proposer.leader {
      assert (heard + [SendHeartbeat(m.proposer.uid, m.proposer.ballot)])[|heard|].SendHeartbeat?;
    }
    hide ProposalId.Compare, ProposerState.Observe;
  }

  /** A promise makes a node the leader it knows of if and only if it knew of none and its proposer
      leads; the node then announces itself at once. */
  lemma PromiseTakesLeadIff(n: NodeState, p: PromiseMessage, now: nat)
    requires n.proposer.ballot.uid == n.proposer.uid != ""
    ensures var (n', effects) := n.ReceivePromise(p.from, p.id, p.prevId, p.prevValue, now);
            var (r, asked) := n.proposer.ReceivePromise(p.from, p.id, p.prevId, p.prevValue);
            && n'.proposer == r && |asked| <= |effects| && effects[..|asked|] == asked
            && (SendHeartbeat(r.uid, r.ballot) in effects <==> n.leaderUid == "" && r.leader)
            && (if n.leaderUid == "" && r.leader
                then n'.leaderUid == r.uid && n'.leaderId == r.ballot && !n'.acquiring && n'.lastHeartbeat == now
                     && effects[|effects| - 1] == OnLeadershipChange(r.uid, r.uid)
                else n' == n.(proposer := r) && effects == asked)
  {
    PromiseSays(n.proposer, p);
    PromiseObserves(n.proposer, p);
    ObserveRaises(n.proposer, p.id);
    var r := n.proposer.ReceivePromise(p.from, p.id, p.prevId, p.prevValue).0;
    var taking := n.(proposer := r, leaderUid := r.uid, leaderId := r.ballot, acquiring := false);
    PulseAnnouncesIff(taking, now);
    PulseOfLeader(taking, now);
    hide ProposerState.ReceivePromise, ProposerState.Observe, NodeState.Pulse, ProposalId.Compare;
  }

  lemma PromiseSays(r: ProposerState, p: PromiseMessage)
    ensures var (r', sent) := r.ReceivePromise(p.from, p.id, p.prevId, p.prevValue);
            r'.uid == r.uid && forall x <- sent :: !x.SendHeartbeat?
  {
    hide ProposerState.Observe, ProposalId.Compare;
    ObserveRaises(r, p.id);
  }

  /** A leader that knows itself as the leader pulses: nothing but the clock and the heartbeat. */
  lemma PulseOfLeader(n: NodeState, now: nat)
    requires n.leaderId == n.proposer.ballot && n.leaderUid == n.proposer.uid && n.proposer.ballot.IsValid()
    ensures n.proposer.leader ==>
              n.Pulse(now).0 == n.(lastHeartbeat := now)
              && n.Pulse(now).1 == [SendHeartbeat(n.proposer.uid, n.proposer.ballot)]
  {
    OrderIsStrictAndTotal(n.proposer.ballot, n.proposer.ballot);
    hide ProposalId.Compare, ProposerState.Observe;
  }

  /** Only counting a promise makes a proposer lead. */
  lemma OnlyPromisesLead(cfg: Setup, s: Cluster, s': Cluster, u: Uid, e: Event, x: Uid)
    requires Step(cfg, s, s', u, e) && x in s.members && !s.members[x].node.proposer.leader
    ensures x in s'.members && (s'.members[x].node.proposer.leader ==> x == u && e.GetPromise?)
  {
    hide React, PostedBy, NetGrows, LogAfter, After, Enabled, Init;
    StepAt(cfg, s, s', u, e);
    StepFollows(cfg, s, s', u, e);
    if x == u && !e.GetPromise? {
      EventGivesNoLead(cfg, s.members[u], e);
    }
  }

  lemma EventGivesNoLead(cfg: Setup, m: Member, e: Event)
    requires !e.GetPromise? && !m.node.proposer.leader
    ensures !React(cfg, m, e).0.proposer.leader
  {
    if MayOpen(e) {
      OpeningShape(cfg, m, e);
      ObserveRaises(m.node.proposer, if e.GetPrepareAck? then e.prepareAck.promised else NO_ID);
      hide React, ProposerState.Observe;
    } else if MaySendAccept(e) {
      RoundShape(cfg, m, e);
      hide React;
    } else if e.GetAcceptAck? {
      StepsDownIff(m.node, e.acceptAck.from, e.acceptAck.id, e.acceptAck.promised);
      hide NodeState.ReceiveAcceptNack;
    } else if OnlyTells(e) {
      TellShape(cfg, m, e);
      ToldGivesNoLead(m.node.proposer, React(cfg, m, e).0.proposer);
      hide React, Told;
    } else {
      hide ProposalId.Compare, LearnerState.ReceiveAccepted;
    }
  }

  lemma ToldGivesNoLead(r: ProposerState, r': ProposerState)
    requires Told(r, r')
    ensures r'.leader ==> r.leader
  {
    hide ProposerState.Observe;
    var leader: bool, active: bool, id: ProposalId :|
      (leader ==> r.leader) && r' == r.(leader := leader, active := active).Observe(id);
    ObserveRaises(r.(leader := leader, active := active), id);
  }

  /** u has no promise delivered between these moments. */
  ghost predicate NoPromise(us: seq<Uid>, es: seq<Event>, i: nat, j: nat, u: Uid)
    requires i <= j <= |us| && |us| == |es|
  {
    forall k :: i <= k < j && us[k] == u ==> !es[k].GetPromise?
  }

  /** Who does not lead sends no heartbeat and does not come to lead without promises. */
  lemma {:induction false} NoLeadWithoutPromises(
    cfg: Setup, b: seq<Cluster>, us: seq<Uid>, es: seq<Event>, i: nat, j: nat, u: Uid)
    requires cfg.Valid() && IsTrace(cfg, b, us, es) && i <= j < |b| && NoPromise(us, es, i, j, u)
    requires u in b[i].members && !b[i].members[u].node.proposer.leader
    ensures u in b[j].members && !b[j].members[u].node.proposer.leader
    ensures forall h <- b[j].net.heartbeats :: h.from == u ==> h in b[i].net.heartbeats
    decreases j - i
  {
    hide Step, Init, SystemInv, IsRun;
    if i < j {
      NoLeadWithoutPromises(cfg, b, us, es, i, j - 1, u);
      assert Step(cfg, b[j - 1], b[j - 1 + 1], us[j - 1], es[j - 1]);
      OnlyPromisesLead(cfg, b[j - 1], b[j], us[j - 1], es[j - 1], u);
      TraceIsRun(cfg, b, us, es);
      InvariantAlways(cfg, b, j - 1);
      NewHeartbeatIsLeaders(cfg, b[j - 1], b[j], us[j - 1], es[j - 1], u);
    }
  }

  /** A new heartbeat is sent by a leader's pulse, or by a node that a promise just made leader. */
  lemma NewHeartbeatIsLeaders(cfg: Setup, s: Cluster, s': Cluster, x: Uid, e: Event, u: Uid)
    requires cfg.Valid() && SystemInv(cfg, s) && Step(cfg, s, s', x, e)
    requires u in s.members && !s.members[u].node.proposer.leader && (x == u ==> !e.GetPromise?)
    ensures forall h <- s'.net.heartbeats :: h.from == u ==> h in s.net.heartbeats
  {
    hide SystemInv, Step, React, NetGrows, LogAfter, After, At, Enabled;
    StepAt(cfg, s, s', x, e);
    StepFollows(cfg, s, s', x, e);
    SystemAt(cfg, s, x);
    AtFacts(cfg, s, x);
    if x == u {
      SilentUnlessLeading(cfg, s.members[u], e);
    }
  }

  lemma SilentUnlessLeading(cfg: Setup, m: Member, e: Event)
    requires !m.node.proposer.leader && !e.GetPromise?
    ensures forall x <- React(cfg, m, e).1 :: !x.SendHeartbeat?
  {
    hide ProposalId.Compare, ProposerState.Observe, LearnerState.ReceiveAccepted, NodeState.ReceivePromise;
    if e.GetPermit? { HearAnnouncesNothing(cfg, m.node, e.permit, e.blank); }
  }

  /** BEATEN LEADERS STOP. A leader that is delivered another's heartbeat above the leader's ballot it
      knows does not lead any more, and until another promise reaches it, it does not lead again and
      sends no heartbeat. */
  lemma BeatenLeaderStops(
    cfg: Setup, b: seq<Cluster>, us: seq<Uid>, es: seq<Event>, i: nat, j: nat, u: Uid, h: HeartbeatMessage, now: nat)
    requires cfg.Valid() && IsTrace(cfg, b, us, es) && i + 1 <= j < |b|
    requires us[i] == u && es[i] == Event.GetHeartbeat(h, now) && u in b[i].members
    requires h.leaderUid != b[i].members[u].node.proposer.uid && b[i].members[u].node.Adopts(h.leaderId)
    requires NoPromise(us, es, i + 1, j, u)
    ensures u in b[j].members && !b[j].members[u].node.proposer.leader
    ensures forall x <- b[j].net.heartbeats :: x.from == u ==> x in b[i + 1].net.heartbeats
  {
    hide Step, Init, NodeState.ReceiveHeartbeat, NodeState.Adopts;
    assert Step(cfg, b[i], b[i + 1], us[i], es[i]);
    AfterHeartbeat(cfg, b[i], b[i + 1], u, h, now);
    HeartbeatKeepsLeadIff(b[i].members[u].node, h.leaderUid, h.leaderId, now);
    AdoptsMeans(b[i].members[u].node, h.leaderId);
    NoLeadWithoutPromises(cfg, b, us, es, i + 1, j, u);
  }

  lemma AdoptsMeans(n: NodeState, id: ProposalId)
    ensures n.Adopts(id) <==> !n.leaderId.IsValid() || n.leaderId.Lt(id)
    ensures n.Adopts(id) <==> !(n.leaderId.IsValid() && id.Le(n.leaderId))
  {
    OrderIsStrictAndTotal(id, n.leaderId);
    hide ProposalId.Compare;
  }

  lemma AfterHeartbeat(cfg: Setup, s: Cluster, s': Cluster, u: Uid, h: HeartbeatMessage, now: nat)
    requires Step(cfg, s, s', u, Event.GetHeartbeat(h, now))
    ensures u in s.members && u in s'.members
    ensures s'.members[u].node == s.members[u].node.ReceiveHeartbeat(h.leaderUid, h.leaderId, now).0
  {
    hide NodeState.ReceiveHeartbeat, PostedBy, NetGrows, LogAfter, After, Enabled;
    StepAt(cfg, s, s', u, Event.GetHeartbeat(h, now));
    StepFollows(cfg, s, s', u, Event.GetHeartbeat(h, now));
  }

  /** LEADERS ARE HEARD. A leader's pulse puts a heartbeat for its own ballot on the network. */
  lemma PulseIsSent(cfg: Setup, b: seq<Cluster>, i: nat, u: Uid, now: nat)
    requires cfg.Valid() && IsRun(cfg, b) && i + 1 < |b| && Step(cfg, b[i], b[i + 1], u, Event.Pulse(now))
    requires u in b[i].members && b[i].members[u].node.proposer.leader
    ensures HeartbeatMessage(u, u, b[i].members[u].node.proposer.ballot) in b[i + 1].net.heartbeats
  {
    hide SystemInv, IsRun, Step, C.Inv, ProposersOf, TriedOf, TargetsOf, StableOf, CS.HoldsTo, C.ProposerOk, After,
      NodeState.Pulse, Enabled;
    InvariantAlways(cfg, b, i);
    StepAt(cfg, b[i], b[i + 1], u, Event.Pulse(now));
    OwnUids(cfg, b[i], u);
    PulseAnnouncesIff(b[i].members[u].node, now);
    AnnouncementPosted(cfg, b[i], u, Event.Pulse(now), SendHeartbeat(u, b[i].members[u].node.proposer.ballot));
  }

  lemma OwnUids(cfg: Setup, s: Cluster, u: Uid)
    requires cfg.Valid() && SystemInv(cfg, s) && u in s.members
    ensures s.members[u].node.proposer.uid == s.members[u].node.proposer.ballot.uid == u == s.members[u].server.uid
    ensures u != "" && s.members[u].node.proposer.quorumSize == cfg.core.quorumSize
  {
    hide SystemInv, C.Inv, ProposersOf, TriedOf, TargetsOf, StableOf, CS.HoldsTo, C.ProposerOk;
    SystemAt(cfg, s, u);
    AtFacts(cfg, s, u);
    AbsAt(cfg, s, u);
    CS.OwnFacts(cfg.core, Abs(cfg, s), u);
  }

  lemma AnnouncementPosted(cfg: Setup, s: Cluster, u: Uid, e: Event, x: Effect)
    requires u in s.members && x in React(cfg, s.members[u], e).1 && x.SendHeartbeat?
    ensures HeartbeatMessage(s.members[u].server.uid, x.leaderUid, x.leaderId) in After(cfg, s, u, e).net.heartbeats
  {
    hide React;
    HeartbeatsPosted(s.members[u].server, s.net, React(cfg, s.members[u], e).1, x);
  }

  lemma {:induction false} HeartbeatsPosted(server: ServerState, net: Network, effects: seq<Effect>, x: Effect)
    requires x in effects && x.SendHeartbeat?
    ensures HeartbeatMessage(server.uid, x.leaderUid, x.leaderId) in server.PostAll(net, effects).1.heartbeats
    decreases |effects|
  {
    var (s1, net1) := server.Post(net, effects[0]);
    PostFrame(server, net, effects[0]);
    PostAllFrame(s1, net1, effects[1..]);
    if effects[0] != x {
      HeartbeatsPosted(s1, net1, effects[1..], x);
    }
  }

  /** WINNERS ARE HEARD. A node that knows of no leader and leads after a promise has announced its
      ballot. */
  lemma WinnerIsAnnounced(cfg: Setup, b: seq<Cluster>, i: nat, u: Uid, p: PromiseMessage, now: nat)
    requires cfg.Valid() && IsRun(cfg, b) && i + 1 < |b| && Step(cfg, b[i], b[i + 1], u, Event.GetPromise(p, now))
    requires u in b[i].members && b[i].members[u].node.leaderUid == ""
    requires u in b[i + 1].members && b[i + 1].members[u].node.proposer.leader
    ensures b[i + 1].members[u].node.leaderUid == u
    ensures b[i + 1].members[u].node.leaderId == b[i + 1].members[u].node.proposer.ballot
    ensures HeartbeatMessage(u, u, b[i + 1].members[u].node.proposer.ballot) in b[i + 1].net.heartbeats
  {
    hide SystemInv, IsRun, Step, C.Inv, ProposersOf, TriedOf, TargetsOf, StableOf, CS.HoldsTo, C.ProposerOk, After,
      NodeState.ReceivePromise, Enabled, PostedBy, NetGrows, LogAfter, ProposerState.ReceivePromise;
    InvariantAlways(cfg, b, i);
    var e := Event.GetPromise(p, now);
    StepAt(cfg, b[i], b[i + 1], u, e);
    StepFollows(cfg, b[i], b[i + 1], u, e);
    OwnUids(cfg, b[i], u);
    PromiseSays(b[i].members[u].node.proposer, p);
    PromiseTakesLeadIff(b[i].members[u].node, p, now);
    AnnouncementPosted(cfg, b[i], u, e, SendHeartbeat(u, b[i + 1].members[u].node.proposer.ballot));
  }

  /** NO SILENT CHANGE. No event changes the leader a node knows of without announcing the new one, or
      makes its proposer lead without announcing that; and a lost lead is announced only when lost. */
  lemma LeadershipIsAnnounced(cfg: Setup, m: Member, e: Event)
    ensures var (n', effects) := React(cfg, m, e);
            && (n'.leaderUid != m.node.leaderUid || n'.leaderId != m.node.leaderId ==>
                  exists x <- effects :: x.OnLeadershipChange? && x.current == n'.leaderUid)
            && (n'.proposer.leader && !m.node.proposer.leader ==> OnLeadershipAcquired in effects)
            && (OnLeadershipLost in effects ==> m.node.proposer.leader && !n'.proposer.leader)
            && (m.node.proposer.leader && !n'.proposer.leader ==> OnLeadershipLost in effects || MayOpen(e))
  {
    hide ProposalId.Compare, ProposerState.Observe, NodeState.Pulse, NodeState.ReceivePromise,
      NodeState.ReceiveHeartbeat, NodeState.ReceiveAcceptNack, LearnerState.ReceiveAccepted,
      AcceptorState.ReceivePrepare, AcceptorState.ReceiveAcceptRequest, AcceptorState.Persisted;
    match e
    case Pulse(now) => PulseIsAnnounced(m.node, now);
    case GetPromise(p, now) => PromiseIsAnnounced(m.node, p, now);
    case GetHeartbeat(p, now) => HeardIsAnnounced(m.node, p.leaderUid, p.leaderId, now);
    case GetAcceptAck(p) => StepsDownIff(m.node, p.from, p.id, p.promised);
    case GetPermit(p, blank) => HearAnnouncesNothing(cfg, m.node, p, blank);
    case GetPrepare(p, now) => RepliesAnnounceNothing(m.node.acceptor, p.from, p.id, "", now);
    case GetAccept(p) => RepliesAnnounceNothing(m.node.acceptor, p.from, p.id, p.value, 0);
    case Persisted => RepliesAnnounceNothing(m.node.acceptor, "", NO_ID, "", 0);
    case _ => OtherIsAnnounced(cfg, m, e);
  }

  lemma OtherIsAnnounced(cfg: Setup, m: Member, e: Event)
    requires e.SetProposal? || e.ResendAccept? || e.SetActive? || e.Save? || e.Crash? || e.ChangePeers? || MayOpen(e)
    ensures var (n', effects) := React(cfg, m, e);
            && n'.leaderUid == m.node.leaderUid && n'.leaderId == m.node.leaderId
            && (n'.proposer.leader ==> m.node.proposer.leader) && OnLeadershipLost !in effects
            && (m.node.proposer.leader && !n'.proposer.leader ==> MayOpen(e))
  {
    ObserveRaises(m.node.proposer, if e.GetPrepareAck? then e.prepareAck.promised else NO_ID);
    hide ProposalId.Compare, ProposerState.Observe;
  }

  lemma RepliesAnnounceNothing(a: AcceptorState, from: Uid, id: ProposalId, value: Value, now: nat)
    ensures OnLeadershipLost !in a.ReceivePrepare(from, id, now).1
    ensures OnLeadershipLost !in a.ReceiveAcceptRequest(from, id, value).1
    ensures OnLeadershipLost !in a.Persisted().1
  {
  }

  lemma HeardIsAnnounced(n: NodeState, uid: Uid, id: ProposalId, now: nat)
    ensures var (n', effects) := n.ReceiveHeartbeat(uid, id, now);
            && (n'.leaderUid != n.leaderUid || n'.leaderId != n.leaderId ==>
                  exists x <- effects :: x.OnLeadershipChange? && x.current == n'.leaderUid)
            && (n'.proposer.leader ==> n.proposer.leader)
            && (OnLeadershipLost in effects <==> n.proposer.leader && !n'.proposer.leader)
  {
    HeartbeatKeepsLeadIff(n, uid, id, now);
    var effects := n.ReceiveHeartbeat(uid, id, now).1;
    if n.Adopts(id) {
      assert effects[|effects| - 1] == OnLeadershipChange(n.leaderUid, uid);
    }
    hide ProposalId.Compare, ProposerState.Observe;
  }

  lemma PulseIsAnnounced(n: NodeState, now: nat)
    ensures var (n', effects) := n.Pulse(now);
            && (n'.leaderUid != n.leaderUid || n'.leaderId != n.leaderId ==>
                  exists x <- effects :: x.OnLeadershipChange? && x.current == n'.leaderUid)
            && n'.proposer == n.proposer && OnLeadershipLost !in effects
  {
    HeardIsAnnounced(n, n.proposer.uid, n.proposer.ballot, now);
    HeartbeatKeepsLeadIff(n, n.proposer.uid, n.proposer.ballot, now);
    var (m, heard) := n.ReceiveHeartbeat(n.proposer.uid, n.proposer.ballot, now);
    hide NodeState.ReceiveHeartbeat, ProposalId.Compare, ProposerState.Observe;
    assert forall x <- heard :: x in heard + [SendHeartbeat(m.proposer.uid, m.proposer.ballot)];
  }

  lemma PromiseIsAnnounced(n: NodeState, p: PromiseMessage, now: nat)
    ensures var (n', effects) := n.ReceivePromise(p.from, p.id, p.prevId, p.prevValue, now);
            && (n'.leaderUid != n.leaderUid || n'.leaderId != n.leaderId ==>
                  exists x <- effects :: x.OnLeadershipChange? && x.current == n'.leaderUid)
            && (n'.proposer.leader && !n.proposer.leader ==> OnLeadershipAcquired in effects)
            && (n.proposer.leader ==> n'.proposer.leader) && OnLeadershipLost !in effects
  {
    PromiseLeads(n.proposer, p);
    var r := n.proposer.ReceivePromise(p.from, p.id, p.prevId, p.prevValue).0;
    var taking := n.(proposer := r, leaderUid := r.uid, leaderId := r.ballot, acquiring := false);
    PulseIsAnnounced(taking, now);
    hide ProposerState.ReceivePromise, ProposerState.Observe, NodeState.Pulse, ProposalId.Compare;
    var effects := n.ReceivePromise(p.from, p.id, p.prevId, p.prevValue, now).1;
    if n.leaderUid == "" && r.leader {
      assert effects[|effects| - 1] == OnLeadershipChange(r.uid, taking.Pulse(now).0.leaderUid);
    }
  }

  lemma PromiseLeads(r: ProposerState, p: PromiseMessage)
    ensures var (r', sent) := r.ReceivePromise(p.from, p.id, p.prevId, p.prevValue);
            && (r'.leader && !r.leader ==> OnLeadershipAcquired in sent)
            && (r.leader ==> r'.leader) && OnLeadershipLost !in sent
  {
    hide ProposalId.Compare, ProposerState.Observe;
    ObserveRaises(r, p.id);
  }

  // ----- when a node asks for the lead

  /** A heartbeat brings the clock to now exactly when its ballot is the leader's ballot afterwards
      (or the clock was there), which is so exactly when it is not below the one known. */
  lemma HeartbeatRefreshesIff(n: NodeState, uid: Uid, id: ProposalId, now: nat)
    ensures var n' := n.ReceiveHeartbeat(uid, id, now).0;
            && (n'.lastHeartbeat == now <==> (id.IsValid() && n'.leaderId == id) || n.lastHeartbeat == now)
            && (n'.leaderId == id <==> !n.leaderId.IsValid() || n.leaderId.Le(id))
            && (n.leaderId != n'.leaderId ==> !n'.acquiring)
  {
    OrderIsStrictAndTotal(id, n.leaderId);
    OrderIsStrictAndTotal(n.leaderId, id);
    OrderIsStrictAndTotal(id, id);
  }

  const CLOCK: int := 0x1_0000_0000_0000_0000

  /** How long ago a 64-bit timestamp was: one ahead of now looks very old. */
  function Age(now: int, since: int): int {
    if since <= now then now - since else CLOCK - (since - now)
  }

  lemma ElapsedIs(now: nat, since: nat)
    requires now < CLOCK && since < CLOCK
    ensures Elapsed(now, since) == Age(now, since)
  {
  }

  /** A poll opens a ballot exactly when the last heartbeat of the leader and the last prepare request
      are both longer ago than their windows; the node is then after the lead. */
  lemma PollOpensIff(n: NodeState, heartbeatTimeout: nat, livenessWindow: nat, now: nat)
    requires now < CLOCK && n.lastHeartbeat < CLOCK && n.acceptor.lastPrepareAt < CLOCK
    ensures var (n', effects) := n.PollLiveness(heartbeatTimeout, livenessWindow, now);
            && (effects != [] <==> Age(now, n.lastHeartbeat) > heartbeatTimeout
                                   && Age(now, n.acceptor.lastPrepareAt) > livenessWindow)
            && (effects != [] ==> n'.acquiring && effects == [SendPrepare(n.proposer.ballot.IncrementNumber())]
                                  && n'.proposer.ballot == n.proposer.ballot.IncrementNumber()
                                  && n'.acceptNacks == {} && n'.proposer.promises == {} && !n'.proposer.leader)
            && (effects == [] ==> n' == n)
  {
    ElapsedIs(now, n.lastHeartbeat);
    ElapsedIs(now, n.acceptor.lastPrepareAt);
    hide ProposalId.IncrementNumber, Elapsed;
  }

  /** Asking for the lead, whatever the prepare window: the node is after the lead, and opens a ballot,
      exactly when the leader's last heartbeat is longer ago than its window. */
  lemma AcquireOpensIff(n: NodeState, heartbeatTimeout: nat, now: nat)
    requires now < CLOCK && n.lastHeartbeat < CLOCK
    ensures var (n', effects) := n.AcquireLeadership(heartbeatTimeout, now);
            && (effects != [] <==> Age(now, n.lastHeartbeat) > heartbeatTimeout)
            && (n'.acquiring <==> Age(now, n.lastHeartbeat) > heartbeatTimeout)
            && (effects != [] ==> effects == [SendPrepare(n.proposer.ballot.IncrementNumber())])
            && (effects == [] ==> n' == n.(acquiring := false))
  {
    ElapsedIs(now, n.lastHeartbeat);
    hide ProposalId.IncrementNumber, Elapsed;
  }

  /** A heartbeat of the current leader keeps polls quiet for the heartbeat window. */
  lemma CurrentHeartbeatSilencesPolls(
    n: NodeState, uid: Uid, id: ProposalId, heartbeatTimeout: nat, livenessWindow: nat, now: nat, later: nat)
    requires id.IsValid() && (!n.leaderId.IsValid() || n.leaderId.Le(id))
    requires now <= later <= now + heartbeatTimeout && later < CLOCK
    ensures n.ReceiveHeartbeat(uid, id, now).0.PollLiveness(heartbeatTimeout, livenessWindow, later).1 == []
  {
    HeartbeatRefreshesIff(n, uid, id, now);
    ElapsedIs(later, now);
    hide Elapsed, NodeState.ReceiveHeartbeat;
  }

  /** A prepare request of anybody, answered or not, keeps polls quiet for the prepare window. */
  lemma PrepareSilencesPolls(
    n: NodeState, from: Uid, id: ProposalId, heartbeatTimeout: nat, livenessWindow: nat, now: nat, later: nat)
    requires now <= later <= now + livenessWindow && later < CLOCK
    ensures n.ReceivePrepare(from, id, now).0.PollLiveness(heartbeatTimeout, livenessWindow, later).1 == []
  {
    ElapsedIs(later, now);
    hide Elapsed, ProposalId.Compare;
  }

  // ----- refusals of the present ballot

  /** Each of the acceptors has sent a refusal of this ballot. */
  ghost predicate AllRefused(s: Cluster, acceptors: set<Uid>, id: ProposalId) {
    forall a <- acceptors :: exists m <- s.net.acceptAcks :: m.from == a && m.id == id
  }

  /** The refusal is for the ballot the proposer has once it has observed the promise named. */
  predicate Records(r: ProposerState, id: ProposalId, promised: ProposalId) {
    && id.uid == r.ballot.uid
    && id.number == if r.ballot.number < promised.number then promised.number else r.ballot.number
  }

  /** A refusal is recorded exactly when it is for the ballot held after observing the promise named; a
      leader stops leading exactly when the recorded refusers, this one included, are a quorum. It then
      knows of no leader and says so; otherwise nothing about the lead changes. */
  lemma StepsDownIff(n: NodeState, from: Uid, id: ProposalId, promised: ProposalId)
    ensures var (n', effects) := n.ReceiveAcceptNack(from, id, promised);
            && n'.acceptNacks == n.acceptNacks + (if Records(n.proposer, id, promised) then {from} else {})
            && (n'.proposer.leader <==> n.proposer.leader && |n'.acceptNacks| < n.proposer.quorumSize)
            && (if n.proposer.leader && !n'.proposer.leader
                then n'.leaderUid == "" && n'.leaderId == NO_ID
                     && effects == [OnLeadershipLost, OnLeadershipChange(n.proposer.uid, "")]
                else n'.leaderUid == n.leaderUid && n'.leaderId == n.leaderId && effects == [])
            && n' == n.(acceptNacks := n'.acceptNacks, leaderUid := n'.leaderUid, leaderId := n'.leaderId,
                        proposer := n.proposer.(leader := n'.proposer.leader, ballot := n'.proposer.ballot))
            && promised.number <= n'.proposer.ballot.number
  {
    ObserveRaises(n.proposer, promised);
    ObserveRaises(n.proposer.Observe(promised).(leader := false), id);
    OrderIsStrictAndTotal(id, n.proposer.Observe(promised).ballot);
    hide ProposalId.Compare, ProposerState.Observe;
  }

  datatype Refusal = Refusal(from: Uid, id: ProposalId, promised: ProposalId)

  function HearRefusals(n: NodeState, refusals: seq<Refusal>): NodeState {
    if refusals == [] then n
    else
      var last := refusals[|refusals| - 1];
      HearRefusals(n, refusals[..|refusals| - 1]).ReceiveAcceptNack(last.from, last.id, last.promised).0
  }

  function Refusers(refusals: seq<Refusal>): set<Uid> {
    set x | x in refusals :: x.from
  }

  /** All refuse ballot id, and no promise named has a number above it. */
  ghost predicate AllRefuse(refusals: seq<Refusal>, id: ProposalId) {
    forall x <- refusals :: x.id == id && x.promised.number <= id.number
  }

  /** A QUORUM OF REFUSALS ENDS THE LEAD. A leader hears refusals of its present ballot, from any
      acceptors, repeated or not. It stops leading exactly when a quorum of distinct acceptors has
      refused, those recorded before included, and then knows of no leader. */
  lemma {:induction false} QuorumOfRefusalsIff(n: NodeState, refusals: seq<Refusal>)
    requires n.proposer.leader && |n.acceptNacks| < n.proposer.quorumSize && AllRefuse(refusals, n.proposer.ballot)
    ensures var n' := HearRefusals(n, refusals);
            && n'.acceptNacks == n.acceptNacks + Refusers(refusals)
            && (n'.proposer.leader <==> |n.acceptNacks + Refusers(refusals)| < n.proposer.quorumSize)
            && (if n'.proposer.leader then n'.leaderUid == n.leaderUid && n'.leaderId == n.leaderId
                else n'.leaderUid == "" && n'.leaderId == NO_ID)
            && n'.proposer == n.proposer.(leader := n'.proposer.leader)
  {
    hide NodeState.ReceiveAcceptNack;
    if refusals == [] {
      assert Refusers(refusals) == {};
    } else {
      var before, x := refusals[..|refusals| - 1], refusals[|refusals| - 1];
      assert refusals == before + [x];
      QuorumOfRefusalsIff(n, before);
      var m := HearRefusals(n, before);
      StepsDownIff(m, x.from, x.id, x.promised);
      SameBallotAfter(m, x.from, x.id, x.promised);
      assert n.acceptNacks + Refusers(refusals) == (n.acceptNacks + Refusers(before)) + {x.from};
      SubsetSize(n.acceptNacks + Refusers(before), n.acceptNacks + Refusers(refusals));
    }
  }

  lemma SameBallotAfter(n: NodeState, from: Uid, id: ProposalId, promised: ProposalId)
    requires id == n.proposer.ballot && promised.number <= id.number
    ensures n.ReceiveAcceptNack(from, id, promised).0.proposer.ballot == id
  {
    ObserveRaises(n.proposer, promised);
    ObserveRaises(n.proposer.Observe(promised).(leader := false), id);
    hide ProposalId.Compare, ProposerState.Observe;
  }

  /** NACK STEP-DOWN. Over runs: a leader that hears a refusal stops leading if and only if it has then
      recorded refusals from a quorum; all recorded refusals are of the one ballot it prepared last,
      and a leader that stops knows of no leader. */
  lemma StepsDownIffQuorum(cfg: Setup, b: seq<Cluster>, i: nat, u: Uid, ack: AcceptAckMessage)
    requires cfg.Valid() && IsRun(cfg, b) && i + 1 < |b|
    requires Step(cfg, b[i], b[i + 1], u, Event.GetAcceptAck(ack))
    requires u in b[i].members && b[i].members[u].node.proposer.leader
    ensures u in b[i + 1].members && b[i + 1].members[u].lastTried == b[i].members[u].lastTried
    ensures AllRefused(b[i + 1], b[i + 1].members[u].node.acceptNacks, b[i].members[u].lastTried)
    ensures var n' := b[i + 1].members[u].node;
            && (!n'.proposer.leader <==> |n'.acceptNacks| >= cfg.core.quorumSize)
            && (!n'.proposer.leader ==> n'.leaderUid == "" && n'.leaderId == NO_ID)
  {
    hide SystemInv, IsRun, Step, PostedBy, NetGrows, LogAfter, React, Records;
    var e := Event.GetAcceptAck(ack);
    InvariantAlways(cfg, b, i);
    InvariantAlways(cfg, b, i + 1);
    StepAt(cfg, b[i], b[i + 1], u, e);
    StepFollows(cfg, b[i], b[i + 1], u, e);
    OwnUids(cfg, b[i], u);
    StepsDownIff(b[i].members[u].node, ack.from, ack.id, ack.promised);
    ReactToAck(cfg, b[i].members[u], ack);
    TellEffect(cfg, b[i], u, e);
    InvIsNacks(cfg, b[i + 1], u);
  }

  /** A STEP-DOWN IS FOR GOOD. Without crashes: when a leader gives up on refusals by acceptors that
      had not voted for the ballot it prepared last, no quorum ever votes for that ballot. */
  lemma StepDownBuriesBallot(
    cfg: Setup, b: seq<Cluster>, i: nat, u: Uid, ack: AcceptAckMessage, j: nat, v: Value)
    requires cfg.Valid() && !cfg.durable && IsRun(cfg, b) && i + 1 < |b| && j < |b|
    requires Step(cfg, b[i], b[i + 1], u, Event.GetAcceptAck(ack))
    requires u in b[i].members && b[i].members[u].node.proposer.leader
    requires u in b[i + 1].members && !b[i + 1].members[u].node.proposer.leader
    requires forall x <- b[i + 1].votes ::
               x.from in b[i + 1].members[u].node.acceptNacks ==> x.id != b[i].members[u].lastTried
    ensures !A.ChosenAt(cfg.core, Abs(cfg, b[j]), b[i].members[u].lastTried, v)
  {
    hide SystemInv, IsRun, Step, A.ChosenAt, Abs, NodeState.ReceiveAcceptNack;
    StepsDownIffQuorum(cfg, b, i, u, ack);
    InvariantAlways(cfg, b, i + 1);
    var R, id := b[i + 1].members[u].node.acceptNacks, b[i].members[u].lastTried;
    forall a <- R ensures a in cfg.core.nodes && RefusedAndNotVoted(b[i + 1], a, id) {
      var m :| m in b[i + 1].net.acceptAcks && m.from == a && m.id == id;
      OldRefusal(cfg, b[i + 1], m);
      InvIsCore(cfg, b[i + 1]);
    }
    RefusedBallotIsDead(cfg, b, i + 1, id, R, j, v);
  }

  lemma ReactToAck(cfg: Setup, m: Member, ack: AcceptAckMessage)
    ensures React(cfg, m, Event.GetAcceptAck(ack)) == m.node.ReceiveAcceptNack(ack.from, ack.id, ack.promised)
  {
    hide NodeState.ReceiveAcceptNack;
  }

  lemma InvIsNacks(cfg: Setup, s: Cluster, u: Uid)
    requires SystemInv(cfg, s) && u in s.members
    ensures NacksOk(s, u)
  {
    hide C.Inv, Abs, Systems.AcceptorOk, LearnerOk, NacksOk, RefusalOk, ServerOk, SendersNamed;
  }

  /** A refusal of the present ballot is recorded exactly when the promise behind it has a number
      no higher than the ballot's, because the promised ID is observed before the comparison: a
      promise with a higher number bumps the ballot away from the refused one. */
  lemma RefusalIsRecordedIff(n: NodeState, from: Uid, id: ProposalId, promised: ProposalId)
    requires id == n.proposer.ballot && from !in n.acceptNacks
    ensures from in n.ReceiveAcceptNack(from, id, promised).0.acceptNacks <==> promised.number <= id.number
  {
    var r := n.proposer;
    NumberRoundTrip(promised, r.ballot);
    OrderIsLexicographic(r.ballot, promised);
    OrderIsStrictAndTotal(promised, r.ballot);
    OrderIsStrictAndTotal(id, r.Observe(promised).ballot);
  }
}
