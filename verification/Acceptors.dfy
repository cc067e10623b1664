/** The acceptor: promises and votes, with replies held back until the state is saved. */
module Acceptors {
  import opened ProposalIds
  import opened Messages

  /** What an acceptor must keep across a crash: the arguments of recover(). */
  datatype Triple = Triple(promised: ProposalId, accepted: ProposalId, value: Value)

  const NO_TRIPLE: Triple := Triple(NO_ID, NO_ID, "")

  datatype AcceptorState = AcceptorState(
    triple: Triple,
    pendingPromise: Uid,
    pendingAccept: Uid,
    active: bool,
    lastPrepareAt: nat)
  {
    predicate PersistenceRequired() {
      pendingAccept != "" || pendingPromise != ""
    }

    function ReceivePrepare(from: Uid, id: ProposalId, now: nat): (AcceptorState, seq<Effect>) {
      var t := triple;
      if t.promised.IsValid() && id.Eq(t.promised) then
        (this.(lastPrepareAt := now),
         if active then [SendPromise(from, id, t.accepted, t.value)] else [])
      else if !t.promised.IsValid() || id.Gt(t.promised) then
        if pendingPromise == "" then
          (this.(triple := t.(promised := id),
              pendingPromise := if active then from else "",
              lastPrepareAt := now),
           [])
        else
          (this.(lastPrepareAt := now), [])
      else
        (this.(lastPrepareAt := now),
         if active then [SendPrepareNack(from, id, t.promised)] else [])
    }

    function ReceiveAcceptRequest(from: Uid, id: ProposalId, value: Value)
      : (AcceptorState, seq<Effect>)
    {
      var t := triple;
      if t.accepted.IsValid() && id.Eq(t.accepted) && t.value == value then
        (this, if active then [SendPermit(from, id, value)] else [])
      else if !t.promised.IsValid() || id.Gt(t.promised) || id.Eq(t.promised) then
        if pendingAccept == "" then
          (this.(triple := Triple(id, id, value), pendingAccept := if active then from else ""), [])
        else
          (this, [])
      else
        (this, if active then [SendAcceptNack(from, id, t.promised)] else [])
    }

    function Persisted(): (AcceptorState, seq<Effect>) {
      var t := triple;
      (this.(pendingPromise := "", pendingAccept := ""),
       (if active && pendingPromise != ""
        then [SendPromise(pendingPromise, t.promised, t.accepted, t.value)] else [])
       + (if active && pendingAccept != ""
          then [SendPermit(pendingAccept, t.accepted, t.value)] else []))
    }

    function Recover(t: Triple): AcceptorState {
      this.(triple := t)
    }
  }

  /** An acceptor as constructed; the flag is not set by the constructor, so it is a parameter. */
  function NewAcceptor(active: bool, now: nat): AcceptorState {
    AcceptorState(NO_TRIPLE, "", "", active, now)
  }

  /** Unsigned 64-bit clock difference. */
  function Elapsed(now: nat, since: nat): nat {
    (now - since) % 0x1_0000_0000_0000_0000
  }

  class Acceptor {
    const messenger: Messenger
    const livenessWindow: nat
    var promised: ProposalId
    var accepted: ProposalId
    var acceptedValue: Value
    var pendingPromiseUid: Uid
    var pendingAcceptUid: Uid
    var lastPrepareTimestamp: nat
    var active: bool

    ghost function State(): AcceptorState
      reads this
    {
      AcceptorState(Triple(promised, accepted, acceptedValue),
                    pendingPromiseUid, pendingAcceptUid, active, lastPrepareTimestamp)
    }

    constructor (messenger: Messenger, livenessWindow: nat, active: bool, now: nat)
      ensures this.messenger == messenger && this.livenessWindow == livenessWindow
      ensures State() == NewAcceptor(active, now)
    {
      this.messenger := messenger;
      this.livenessWindow := livenessWindow;
      promised, accepted, acceptedValue := NO_ID, NO_ID, "";
      pendingPromiseUid, pendingAcceptUid := "", "";
      lastPrepareTimestamp := now;
      this.active := active;
    }

    method ReceivePrepare(from: Uid, id: ProposalId, now: nat)
      modifies this, messenger
      ensures State() == old(State()).ReceivePrepare(from, id, now).0
      ensures messenger.sent == old(messenger.sent) + old(State()).ReceivePrepare(from, id, now).1
    {
      if promised.IsValid() && id.Eq(promised) {
        if active {
          messenger.Send(SendPromise(from, id, accepted, acceptedValue));
        }
      } else if !promised.IsValid() || id.Gt(promised) {
        if pendingPromiseUid == "" {
          promised := id;
          if active {
            pendingPromiseUid := from;
          }
        }
      } else {
        if active {
          messenger.Send(SendPrepareNack(from, id, promised));
        }
      }
      lastPrepareTimestamp := now;
    }

    method ReceiveAcceptRequest(from: Uid, id: ProposalId, value: Value)
      modifies this, messenger
      ensures State() == old(State()).ReceiveAcceptRequest(from, id, value).0
      ensures messenger.sent == old(messenger.sent) + old(State()).ReceiveAcceptRequest(from, id, value).1
    {
      if accepted.IsValid() && id.Eq(accepted) && acceptedValue == value {
        if active {
          messenger.Send(SendPermit(from, id, value));
        }
      } else if !promised.IsValid() || id.Gt(promised) || id.Eq(promised) {
        if pendingAcceptUid == "" {
          promised := id;
          accepted := id;
          acceptedValue := value;
          if active {
            pendingAcceptUid := from;
          }
        }
      } else {
        if active {
          messenger.Send(SendAcceptNack(from, id, promised));
        }
      }
    }

    method Persisted()
      modifies this, messenger
      ensures State() == old(State()).Persisted().0
      ensures messenger.sent == old(messenger.sent) + old(State()).Persisted().1
    {
      if active {
        if pendingPromiseUid != "" {
          messenger.Send(SendPromise(pendingPromiseUid, promised, accepted, acceptedValue));
        }
        if pendingAcceptUid != "" {
          messenger.Send(SendPermit(pendingAcceptUid, accepted, acceptedValue));
        }
      }
      pendingPromiseUid := "";
      pendingAcceptUid := "";
    }

    method Recover(t: Triple)
      modifies this
      ensures State() == old(State()).Recover(t)
    {
      promised := t.promised;
      accepted := t.accepted;
      acceptedValue := t.value;
    }

    method SetActive(active: bool)
      modifies this
      ensures State() == old(State()).(active := active)
    {
      this.active := active;
    }

    function IsPrepareExpire(now: nat): bool
      reads this
    {
      Elapsed(now, lastPrepareTimestamp) > livenessWindow
    }
  }
}
