/** The proposer: ballot choice, promise collection and value choice of phases 1 and 2. */
module Proposers {
  import opened ProposalIds
  import opened Messages

  datatype ProposerState = ProposerState(
    uid: Uid,
    quorumSize: nat,
    ballot: ProposalId,
    value: Value,
    lastAccepted: ProposalId,
    promises: set<Uid>,
    leader: bool,
    active: bool)
  {
    function Prepare(increment: bool): (ProposerState, seq<Effect>) {
      var s' := if increment
                then this.(leader := false, active := true, promises := {}, ballot := ballot.IncrementNumber())
                else this;
      (s', if s'.active then [SendPrepare(s'.ballot)] else [])
    }

    function SetProposal(v: Value): (ProposerState, seq<Effect>) {
      if value == "" then
        (this.(value := v), if leader && active then [SendAccept(ballot, v)] else [])
      else
        (this, [])
    }

    function Observe(id: ProposalId): ProposerState {
      if id.Gt(ballot) then this.(ballot := ballot.SetNumber(id.GetNumber())) else this
    }

    function ReceivePromise(from: Uid, id: ProposalId, prevId: ProposalId, prevValue: Value)
      : (ProposerState, seq<Effect>)
    {
      var o := Observe(id);
      if id.Ne(o.ballot) || from in o.promises then (o, [])
      else
        var c := o.(promises := o.promises + {from});
        var d := if !c.lastAccepted.IsValid() || prevId.Gt(c.lastAccepted)
                 then c.(lastAccepted := prevId, value := if prevValue != "" then prevValue else c.value)
                 else c;
        if |d.promises| >= d.quorumSize then
          (d.(leader := true),
           [OnLeadershipAcquired] + if d.value != "" && d.active then [SendAccept(d.ballot, d.value)] else [])
        else
          (d, [])
    }

    function ReceiveNack(promised: ProposalId): ProposerState {
      Observe(promised)
    }

    function ResendAccept(): seq<Effect> {
      if leader && active && value != "" then [SendAccept(ballot, value)] else []
    }
  }

  function NewProposer(uid: Uid, quorumSize: nat, active: bool): ProposerState {
    ProposerState(uid, quorumSize, ProposalId(0, uid), "", NO_ID, {}, false, active)
  }

  class Proposer {
    const messenger: Messenger
    const uid: Uid
    const quorumSize: nat
    var ballot: ProposalId
    var proposedValue: Value
    var lastAcceptedId: ProposalId
    var promisesReceived: set<Uid>
    var leader: bool
    var active: bool

    function State(): ProposerState
      reads this
    {
      ProposerState(uid, quorumSize, ballot, proposedValue, lastAcceptedId, promisesReceived, leader, active)
    }

    /** The leader flag is not set by the source's constructor; it starts false here. */
    constructor (messenger: Messenger, uid: Uid, quorumSize: nat, active: bool)
      ensures this.messenger == messenger
      ensures State() == NewProposer(uid, quorumSize, active)
    {
      this.messenger := messenger;
      this.uid := uid;
      this.quorumSize := quorumSize;
      ballot, proposedValue, lastAcceptedId := ProposalId(0, uid), "", NO_ID;
      promisesReceived, leader, this.active := {}, false, active;
    }

    method Prepare(increment: bool)
      modifies this, messenger
      ensures State() == old(State()).Prepare(increment).0
      ensures messenger.sent == old(messenger.sent) + old(State()).Prepare(increment).1
    {
      if increment {
        leader := false;
        active := true;
        promisesReceived := {};
        ballot := ballot.IncrementNumber();
      }
      if active {
        messenger.Send(SendPrepare(ballot));
      }
    }

    method SetProposal(value: Value)
      modifies this, messenger
      ensures State() == old(State()).SetProposal(value).0
      ensures messenger.sent == old(messenger.sent) + old(State()).SetProposal(value).1
    {
      if proposedValue == "" {
        proposedValue := value;
        if leader && active {
          messenger.Send(SendAccept(ballot, proposedValue));
        }
      }
    }

    method ObserveProposal(id: ProposalId)
      modifies this
      ensures State() == old(State()).Observe(id)
    {
      if id.Gt(ballot) {
        ballot := ballot.SetNumber(id.GetNumber());
      }
    }

    method ReceivePromise(from: Uid, id: ProposalId, prevId: ProposalId, prevValue: Value)
      modifies this, messenger
      ensures State() == old(State()).ReceivePromise(from, id, prevId, prevValue).0
      ensures messenger.sent
           == old(messenger.sent) + old(State()).ReceivePromise(from, id, prevId, prevValue).1
    {
      hide ProposerState.Observe, ProposalId.Compare;
      ObserveProposal(id);
      if id.Ne(ballot) || from in promisesReceived {
        return;
      }
      promisesReceived := promisesReceived + {from};
      if !lastAcceptedId.IsValid() || prevId.Gt(lastAcceptedId) {
        lastAcceptedId := prevId;
        if prevValue != "" {
          proposedValue := prevValue;
        }
      }
      if |promisesReceived| >= quorumSize {
        leader := true;
        messenger.Send(OnLeadershipAcquired);
        if proposedValue != "" && active {
          messenger.Send(SendAccept(ballot, proposedValue));
        }
      }
    }

    method ReceivePrepareNack(promised: ProposalId)
      modifies this
      ensures State() == old(State()).ReceiveNack(promised)
    {
      ObserveProposal(promised);
    }

    method ReceiveAcceptNack(promised: ProposalId)
      modifies this
      ensures State() == old(State()).ReceiveNack(promised)
    {
      ObserveProposal(promised);
    }

    method ResendAccept()
      modifies messenger
      ensures messenger.sent == old(messenger.sent) + State().ResendAccept()
    {
      if leader && active && proposedValue != "" {
        messenger.Send(SendAccept(ballot, proposedValue));
      }
    }

    method SetLeader(leader: bool)
      modifies this
      ensures State() == old(State()).(leader := leader)
    {
      this.leader := leader;
    }

    method SetActive(active: bool)
      modifies this
      ensures State() == old(State()).(active := active)
    {
      this.active := active;
    }
  }
}
