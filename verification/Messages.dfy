/** What the roles say (effects on the messenger interface) and what travels on the network
    (the message structs, without marshalling). */
module Messages {
  import opened ProposalIds

  type Value = string

  /** One call on the messenger interface. */
  datatype Effect =
    | SendPrepare(id: ProposalId)
    | SendPromise(to: Uid, id: ProposalId, prevId: ProposalId, prevValue: Value)
    | SendAccept(id: ProposalId, value: Value)
    | SendPermit(to: Uid, id: ProposalId, value: Value)
    | SendPrepareNack(to: Uid, id: ProposalId, promised: ProposalId)
    | SendAcceptNack(to: Uid, id: ProposalId, promised: ProposalId)
    | SendHeartbeat(leaderUid: Uid, leaderId: ProposalId)
    | OnResolution(id: ProposalId, value: Value)
    | OnLeadershipAcquired
    | OnLeadershipLost
    | OnLeadershipChange(previous: Uid, current: Uid)

  /** The messenger the roles of one node share: it records the calls in order. */
  class Messenger {
    var sent: seq<Effect>

    constructor ()
      ensures sent == []
    {
      sent := [];
    }

    method Send(e: Effect)
      modifies this
      ensures sent == old(sent) + [e]
    {
      sent := sent + [e];
    }
  }

  // Broadcasts to a chosen set of peers carry that set.
  datatype PrepareMessage = PrepareMessage(from: Uid, to: set<Uid>, id: ProposalId)
  datatype AcceptMessage = AcceptMessage(from: Uid, to: set<Uid>, id: ProposalId, value: Value)

  datatype PromiseMessage =
    PromiseMessage(from: Uid, to: Uid, id: ProposalId, prevId: ProposalId, prevValue: Value)
  datatype PermitMessage = PermitMessage(from: Uid, to: Uid, id: ProposalId, value: Value)
  datatype PrepareAckMessage = PrepareAckMessage(from: Uid, to: Uid, id: ProposalId, promised: ProposalId)
  datatype AcceptAckMessage = AcceptAckMessage(from: Uid, to: Uid, id: ProposalId, promised: ProposalId)
  datatype HeartbeatMessage = HeartbeatMessage(from: Uid, leaderUid: Uid, leaderId: ProposalId)

  /** Every message ever sent. A message stays here, so it may arrive late, in any order, any
      number of times or never. */
  datatype Network = Network(
    prepares: set<PrepareMessage>,
    promises: set<PromiseMessage>,
    accepts: set<AcceptMessage>,
    permits: set<PermitMessage>,
    prepareAcks: set<PrepareAckMessage>,
    acceptAcks: set<AcceptAckMessage>,
    heartbeats: set<HeartbeatMessage>)

  const EMPTY_NETWORK: Network := Network({}, {}, {}, {}, {}, {}, {})
}
