/** One Paxos node: the three roles and the leadership state machine over them. */
module Nodes {
  import opened ProposalIds
  import opened Messages
  import opened Acceptors
  import opened Proposers
  import opened Learners

  datatype NodeState = NodeState(
    proposer: ProposerState,
    acceptor: AcceptorState,
    learner: LearnerState,
    leaderUid: Uid,
    leaderId: ProposalId,
    lastHeartbeat: nat,
    acquiring: bool,
    acceptNacks: set<Uid>)
  {
    function Prepare(increment: bool): (NodeState, seq<Effect>) {
      var (p, effects) := proposer.Prepare(increment);
      (this.(acceptNacks := if increment then {} else acceptNacks, proposer := p), effects)
    }

    predicate IsLeaderAlive(heartbeatTimeout: nat, now: nat) {
      Elapsed(now, lastHeartbeat) <= heartbeatTimeout
    }

    predicate IsPrepareExpire(livenessWindow: nat, now: nat) {
      Elapsed(now, acceptor.lastPrepareAt) > livenessWindow
    }

    function AcquireLeadership(heartbeatTimeout: nat, now: nat): (NodeState, seq<Effect>) {
      if IsLeaderAlive(heartbeatTimeout, now) then (this.(acquiring := false), [])
      else this.(acquiring := true).Prepare(true)
    }

    function PollLiveness(heartbeatTimeout: nat, livenessWindow: nat, now: nat): (NodeState, seq<Effect>) {
      if !IsLeaderAlive(heartbeatTimeout, now) && IsPrepareExpire(livenessWindow, now) then
        if acquiring then Prepare(true) else AcquireLeadership(heartbeatTimeout, now)
      else
        (this, [])
    }

    predicate Adopts(id: ProposalId) {
      !leaderId.IsValid() || id.Gt(leaderId)
    }

    predicate LosesTo(uid: Uid, id: ProposalId) {
      Adopts(id) && proposer.leader && uid != proposer.uid
    }

    function ReceiveHeartbeat(uid: Uid, id: ProposalId, now: nat): (NodeState, seq<Effect>) {
      var n := if Adopts(id) then this.(acquiring := false, leaderUid := uid, leaderId := id) else this;
      var n' := if LosesTo(uid, id) then n.(proposer := proposer.(leader := false).Observe(id)) else n;
      (if n'.leaderId.IsValid() && n'.leaderId.Eq(id) then n'.(lastHeartbeat := now) else n',
       (if LosesTo(uid, id) then [OnLeadershipLost] else [])
       + (if Adopts(id) then [OnLeadershipChange(leaderUid, uid)] else []))
    }

    function Pulse(now: nat): (NodeState, seq<Effect>) {
      if proposer.leader then
        var (n, effects) := ReceiveHeartbeat(proposer.uid, proposer.ballot, now);
        (n, effects + [SendHeartbeat(n.proposer.uid, n.proposer.ballot)])
      else
        (this, [])
    }

    function ReceivePrepare(from: Uid, id: ProposalId, now: nat): (NodeState, seq<Effect>) {
      var (a, effects) := acceptor.ReceivePrepare(from, id, now);
      (this.(acceptor := a), effects)
    }

    function ReceivePromise(from: Uid, id: ProposalId, prevId: ProposalId, prevValue: Value, now: nat)
      : (NodeState, seq<Effect>)
    {
      var (p, effects) := proposer.ReceivePromise(from, id, prevId, prevValue);
      var n := this.(proposer := p);
      if leaderUid == "" && p.leader then
        var (n', pulsed) := n.(leaderUid := p.uid, leaderId := p.ballot, acquiring := false).Pulse(now);
        (n', effects + pulsed + [OnLeadershipChange(p.uid, n'.leaderUid)])
      else
        (n, effects)
    }

    function ReceivePrepareNack(from: Uid, id: ProposalId, promised: ProposalId): (NodeState, seq<Effect>) {
      var n := this.(proposer := proposer.ReceiveNack(promised));
      if acquiring then n.Prepare(true) else (n, [])
    }

    function ReceiveAcceptNack(from: Uid, id: ProposalId, promised: ProposalId): (NodeState, seq<Effect>) {
      var p := proposer.ReceiveNack(promised);
      var nacks := if id.Eq(p.ballot) then acceptNacks + {from} else acceptNacks;
      var n := this.(proposer := p, acceptNacks := nacks);
      if p.leader && |nacks| >= p.quorumSize then
        (n.(proposer := p.(leader := false).Observe(id), leaderUid := "", leaderId := NO_ID),
         [OnLeadershipLost, OnLeadershipChange(p.uid, "")])
      else
        (n, [])
    }

    function SetActive(active: bool): NodeState {
      this.(proposer := proposer.(active := active), acceptor := acceptor.(active := active))
    }
  }

  /** A node as constructed; one that is configured as its own leader starts with the lead. */
  function NewNode(uid: Uid, quorumSize: nat, active: bool, now: nat, leaderUid: Uid): NodeState {
    NodeState(NewProposer(uid, quorumSize, active).(leader := leaderUid != "" && uid == leaderUid),
              NewAcceptor(active, now), NEW_LEARNER,
              leaderUid, NO_ID, now, false, {})
  }

  class PaxosNode {
    const messenger: Messenger
    const proposer: Proposer
    const acceptor: Acceptor
    const learner: Learner
    const heartbeatTimeout: nat
    var leaderUid: Uid
    var leaderProposalId: ProposalId
    var lastHeartbeatTimestamp: nat
    var acquiringLeadership: bool
    var acceptNacks: set<Uid>

    ghost predicate Valid()
      reads this
    {
      proposer.messenger == acceptor.messenger == learner.messenger == messenger
    }

    ghost function State(): NodeState
      reads this, proposer, acceptor, learner
    {
      NodeState(proposer.State(), acceptor.State(), learner.State(),
                leaderUid, leaderProposalId, lastHeartbeatTimestamp, acquiringLeadership, acceptNacks)
    }

    constructor (messenger: Messenger, uid: Uid, quorumSize: nat, heartbeatTimeout: nat, livenessWindow: nat,
                 leaderUid: Uid, active: bool, now: nat)
      ensures Valid() && this.messenger == messenger
      ensures State() == NewNode(uid, quorumSize, active, now, leaderUid)
      ensures this.heartbeatTimeout == heartbeatTimeout && acceptor.livenessWindow == livenessWindow
    {
      this.messenger := messenger;
      proposer := new Proposer(messenger, uid, quorumSize, active);
      acceptor := new Acceptor(messenger, livenessWindow, active, now);
      learner := new Learner(messenger, quorumSize);
      this.heartbeatTimeout := heartbeatTimeout;
      this.leaderUid, leaderProposalId, lastHeartbeatTimestamp := leaderUid, NO_ID, now;
      acquiringLeadership, acceptNacks := false, {};
      new;
      if leaderUid != "" && uid == leaderUid {
        proposer.SetLeader(true);
      }
    }

    method Prepare(increment: bool)
      requires Valid()
      modifies this, proposer, messenger
      ensures State() == old(State()).Prepare(increment).0
      ensures messenger.sent == old(messenger.sent) + old(State()).Prepare(increment).1
    {
      if increment {
        acceptNacks := {};
      }
      proposer.Prepare(increment);
    }

    method AcquireLeadership(now: nat)
      requires Valid()
      modifies this, proposer, messenger
      ensures State() == old(State()).AcquireLeadership(heartbeatTimeout, now).0
      ensures messenger.sent == old(messenger.sent) + old(State()).AcquireLeadership(heartbeatTimeout, now).1
    {
      if Elapsed(now, lastHeartbeatTimestamp) <= heartbeatTimeout {
        acquiringLeadership := false;
      } else {
        acquiringLeadership := true;
        Prepare(true);
      }
    }

    method PollLiveness(now: nat)
      requires Valid()
      modifies this, proposer, messenger
      ensures State() == old(State()).PollLiveness(heartbeatTimeout, acceptor.livenessWindow, now).0
      ensures messenger.sent
           == old(messenger.sent) + old(State()).PollLiveness(heartbeatTimeout, acceptor.livenessWindow, now).1
    {
      var expired := acceptor.IsPrepareExpire(now);
      if !(Elapsed(now, lastHeartbeatTimestamp) <= heartbeatTimeout) && expired {
        if acquiringLeadership {
          Prepare(true);
        } else {
          AcquireLeadership(now);
        }
      }
    }

    method ReceiveHeartbeat(uid: Uid, id: ProposalId, now: nat)
      requires Valid()
      modifies this, proposer, messenger
      ensures State() == old(State()).ReceiveHeartbeat(uid, id, now).0
      ensures messenger.sent == old(messenger.sent) + old(State()).ReceiveHeartbeat(uid, id, now).1
    {
      hide ProposalId.Compare, ProposalId.SetNumber, ProposerState.Observe;
      if !leaderProposalId.IsValid() || id.Gt(leaderProposalId) {
        acquiringLeadership := false;
        var oldLeaderUid := leaderUid;
        leaderUid := uid;
        leaderProposalId := id;
        if proposer.leader && uid != proposer.uid {
          proposer.SetLeader(false);
          messenger.Send(OnLeadershipLost);
          proposer.ObserveProposal(id);
        }
        messenger.Send(OnLeadershipChange(oldLeaderUid, uid));
      }
      if leaderProposalId.IsValid() && leaderProposalId.Eq(id) {
        lastHeartbeatTimestamp := now;
      }
    }

    method Pulse(now: nat)
      requires Valid()
      modifies this, proposer, messenger
      ensures State() == old(State()).Pulse(now).0
      ensures messenger.sent == old(messenger.sent) + old(State()).Pulse(now).1
    {
      if proposer.leader {
        ReceiveHeartbeat(proposer.uid, proposer.ballot, now);
        messenger.Send(SendHeartbeat(proposer.uid, proposer.ballot));
      }
    }

    method ReceivePrepare(from: Uid, id: ProposalId, now: nat)
      requires Valid()
      modifies acceptor, messenger
      ensures State() == old(State()).ReceivePrepare(from, id, now).0
      ensures messenger.sent == old(messenger.sent) + old(State()).ReceivePrepare(from, id, now).1
    {
      acceptor.ReceivePrepare(from, id, now);
    }

    method ReceivePromise(from: Uid, id: ProposalId, prevId: ProposalId, prevValue: Value, now: nat)
      requires Valid()
      modifies this, proposer, messenger
      ensures State() == old(State()).ReceivePromise(from, id, prevId, prevValue, now).0
      ensures messenger.sent
           == old(messenger.sent) + old(State()).ReceivePromise(from, id, prevId, prevValue, now).1
    {
      hide ProposerState.ReceivePromise, NodeState.Pulse;
      var preLeaderUid := leaderUid;
      proposer.ReceivePromise(from, id, prevId, prevValue);
      if preLeaderUid == "" && proposer.leader {
        var oldLeaderUid := proposer.uid;
        leaderUid := proposer.uid;
        leaderProposalId := proposer.ballot;
        acquiringLeadership := false;
        Pulse(now);
        messenger.Send(OnLeadershipChange(oldLeaderUid, leaderUid));
      }
    }

    method ReceivePrepareNack(from: Uid, id: ProposalId, promised: ProposalId)
      requires Valid()
      modifies this, proposer, messenger
      ensures State() == old(State()).ReceivePrepareNack(from, id, promised).0
      ensures messenger.sent == old(messenger.sent) + old(State()).ReceivePrepareNack(from, id, promised).1
    {
      proposer.ReceivePrepareNack(promised);
      if acquiringLeadership {
        Prepare(true);
      }
    }

    method ReceiveAcceptNack(from: Uid, id: ProposalId, promised: ProposalId)
      requires Valid()
      modifies this, proposer, messenger
      ensures State() == old(State()).ReceiveAcceptNack(from, id, promised).0
      ensures messenger.sent == old(messenger.sent) + old(State()).ReceiveAcceptNack(from, id, promised).1
    {
      hide ProposerState.Observe, ProposalId.Compare;
      proposer.ReceiveAcceptNack(promised);
      if id.Eq(proposer.ballot) {
        acceptNacks := acceptNacks + {from};
      }
      if proposer.leader && |acceptNacks| >= proposer.quorumSize {
        proposer.SetLeader(false);
        leaderUid := "";
        leaderProposalId := NO_ID;
        messenger.Send(OnLeadershipLost);
        messenger.Send(OnLeadershipChange(proposer.uid, leaderUid));
        proposer.ObserveProposal(id);
      }
    }

    method SetActive(active: bool)
      modifies proposer, acceptor
      ensures State() == old(State()).SetActive(active)
    {
      proposer.SetActive(active);
      acceptor.SetActive(active);
    }
  }
}
