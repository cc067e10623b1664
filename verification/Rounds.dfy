/** What a proposer makes of the promises for the ballot it has opened, whatever they are, in whatever
    order and however often they arrive. */
module Rounds {
  import opened ProposalIds
  import opened Messages
  import opened Proposers

  function HearPromises(r: ProposerState, ms: seq<PromiseMessage>): (ProposerState, seq<Effect>) {
    if ms == [] then (r, [])
    else
      var last := ms[|ms| - 1];
      var (r1, effects) := HearPromises(r, ms[..|ms| - 1]);
      var (r2, more) := r1.ReceivePromise(last.from, last.id, last.prevId, last.prevValue);
      (r2, effects + more)
  }

  // ----- the outcome, told from the promises alone

  /** The senders of promises for ballot b. */
  function Promisers(ms: seq<PromiseMessage>, b: ProposalId): set<Uid> {
    set m | m in ms && m.id == b :: m.from
  }

  /** ms[k] is its sender's first promise for b. */
  ghost predicate IsFirst(ms: seq<PromiseMessage>, b: ProposalId, k: nat) {
    && k < |ms| && ms[k].id == b
    && forall j :: 0 <= j < k ==> ms[j].id != b || ms[j].from != ms[k].from
  }

  /** Of the first promises ms[k] reports the highest vote, above held, and is the first to do so. */
  ghost predicate ReportsHighest(ms: seq<PromiseMessage>, b: ProposalId, held: ProposalId, k: nat) {
    && IsFirst(ms, b, k) && held.Lt(ms[k].prevId)
    && (forall j: nat :: IsFirst(ms, b, j) ==> ms[j].prevId.Le(ms[k].prevId))
    && (forall j: nat :: IsFirst(ms, b, j) && j < k ==> ms[j].prevId != ms[k].prevId)
  }

  ghost predicate NoneReported(ms: seq<PromiseMessage>, b: ProposalId, held: ProposalId) {
    forall j: nat :: IsFirst(ms, b, j) ==> ms[j].prevId.Le(held)
  }

  /** w is the value of the highest vote reported above held, or own if there is none. */
  ghost predicate MustAsk(ms: seq<PromiseMessage>, b: ProposalId, held: ProposalId, own: Value, w: Value) {
    || (NoneReported(ms, b, held) && w == own)
    || (exists k: nat :: ReportsHighest(ms, b, held, k) && w == ms[k].prevValue)
  }

  /** A promise reports a vote with its value, or none. */
  predicate Truthful(m: PromiseMessage) {
    (m.prevId == NO_ID && m.prevValue == "") || (m.prevId.IsValid() && m.prevValue != "")
  }

  /** The proposer has just opened its ballot. */
  predicate JustOpened(r: ProposerState) {
    r.promises == {} && !r.leader && (r.lastAccepted == NO_ID || r.lastAccepted.IsValid())
  }

  /** Opening a ballot makes it so, from any state. */
  lemma OpeningIsJustOpened(r: ProposerState)
    requires r.lastAccepted == NO_ID || r.lastAccepted.IsValid()
    ensures var (r', sent) := r.Prepare(true);
            && JustOpened(r') && r'.active && sent == [SendPrepare(r'.ballot)]
            && r'.value == r.value && r'.lastAccepted == r.lastAccepted
            && (r.ballot.number < MAX_NUMBER ==> r.ballot.Lt(r'.ballot))
  {
    IncrementExceedsIff(r.ballot);
    hide ProposalId.Compare, ProposalId.IncrementNumber;
  }

  /** Asking again for the same ballot changes nothing, and needs an active proposer. */
  lemma PrepareAgain(r: ProposerState)
    ensures r.Prepare(false).0 == r
    ensures r.Prepare(false).1 == if r.active then [SendPrepare(r.ballot)] else []
  {
  }

  /** None of the messages is for a ballot above the proposer's. */
  ghost predicate Arrivable(r: ProposerState, ms: seq<PromiseMessage>) {
    forall m <- ms :: m.id.Le(r.ballot) && (m.id == r.ballot ==> Truthful(m))
  }

  // ----- how it changes with one more promise

  lemma FirstStays(ms: seq<PromiseMessage>, m: PromiseMessage, b: ProposalId)
    ensures forall j: nat :: j < |ms| ==> (IsFirst(ms + [m], b, j) <==> IsFirst(ms, b, j))
    ensures IsFirst(ms + [m], b, |ms|) <==> m.id == b && m.from !in Promisers(ms, b)
    ensures Promisers(ms + [m], b) == Promisers(ms, b) + (if m.id == b then {m.from} else {})
  {
    var all := ms + [m];
    forall j: nat | j < |ms| ensures IsFirst(all, b, j) <==> IsFirst(ms, b, j) {
      assert forall i :: 0 <= i <= j ==> all[i] == ms[i];
    }
    if m.id == b && m.from in Promisers(ms, b) {
      var x :| x in ms && x.id == b && x.from == m.from;
      var i: nat :| i < |ms| && ms[i] == x;
      assert all[i] == x;
    }
  }

  /** The highest ID heard of so far, with its value. */
  ghost predicate Best(
    ms: seq<PromiseMessage>, b: ProposalId, held: ProposalId, own: Value, top: ProposalId, w: Value)
  {
    || (NoneReported(ms, b, held) && top == held && w == own)
    || (exists k: nat :: ReportsHighest(ms, b, held, k) && top == ms[k].prevId && w == ms[k].prevValue)
  }

  lemma BestCovers(ms: seq<PromiseMessage>, b: ProposalId, held: ProposalId, own: Value, top: ProposalId, w: Value)
    requires Best(ms, b, held, own, top, w)
    ensures held.Le(top) && forall j: nat :: IsFirst(ms, b, j) ==> ms[j].prevId.Le(top)
  {
    hide IsFirst, ProposalId.Compare;
  }

  lemma SameBest(
    ms: seq<PromiseMessage>, m: PromiseMessage, b: ProposalId, held: ProposalId, own: Value, top: ProposalId, w: Value)
    requires Best(ms, b, held, own, top, w)
    requires IsFirst(ms + [m], b, |ms|) ==> m.prevId.Le(top)
    ensures Best(ms + [m], b, held, own, top, w)
  {
    hide IsFirst, ProposalId.Compare;
    FirstStays(ms, m, b);
    var all := ms + [m];
    assert forall j :: 0 <= j < |ms| ==> all[j] == ms[j];
    FirstInRange(all, b);
    FirstInRange(ms, b);
    if k: nat :| ReportsHighest(ms, b, held, k) && top == ms[k].prevId && w == ms[k].prevValue {
      assert ReportsHighest(all, b, held, k);
    } else {
      assert NoneReported(all, b, held);
    }
  }

  lemma FirstInRange(ms: seq<PromiseMessage>, b: ProposalId)
    ensures forall j: nat :: IsFirst(ms, b, j) ==> j < |ms|
  {
  }

  lemma NewBest(
    ms: seq<PromiseMessage>, m: PromiseMessage, b: ProposalId, held: ProposalId, own: Value, top: ProposalId, w: Value)
    requires Best(ms, b, held, own, top, w)
    requires IsFirst(ms + [m], b, |ms|) && top.Lt(m.prevId)
    ensures Best(ms + [m], b, held, own, m.prevId, m.prevValue)
  {
    BestCovers(ms, b, held, own, top, w);
    hide IsFirst, ProposalId.Compare, Best;
    FirstStays(ms, m, b);
    var all := ms + [m];
    assert forall j :: 0 <= j < |ms| ==> all[j] == ms[j];
    FirstInRange(all, b);
    LtLeTransitive(held, top, m.prevId);
    forall j: nat | IsFirst(all, b, j)
      ensures all[j].prevId.Le(m.prevId) && (j < |ms| ==> all[j].prevId != m.prevId)
    {
      if j < |ms| {
        LtLeTransitive(ms[j].prevId, top, m.prevId);
        OrderIsStrictAndTotal(m.prevId, m.prevId);
      }
    }
    assert ReportsHighest(all, b, held, |ms|);
    assert Best(all, b, held, own, all[|ms|].prevId, all[|ms|].prevValue) by { HighestIsBest(all, b, held, own, |ms|); }
  }

  lemma HighestIsBest(ms: seq<PromiseMessage>, b: ProposalId, held: ProposalId, own: Value, k: nat)
    requires ReportsHighest(ms, b, held, k)
    ensures Best(ms, b, held, own, ms[k].prevId, ms[k].prevValue)
  {
    hide IsFirst, ProposalId.Compare;
  }

  // ----- the proposer keeps to it

  /** The proposer after the promises: as it was, with the senders counted and the best vote held. */
  ghost predicate Follows(r: ProposerState, ms: seq<PromiseMessage>, r': ProposerState) {
    && r' == r.(promises := Promisers(ms, r.ballot), leader := r'.leader,
                lastAccepted := r'.lastAccepted, value := r'.value)
    && (r'.leader <==> Promisers(ms, r.ballot) != {} && |Promisers(ms, r.ballot)| >= r.quorumSize)
    && Best(ms, r.ballot, r.lastAccepted, r.value, r'.lastAccepted, r'.value)
    && (r'.lastAccepted == NO_ID || r'.lastAccepted.IsValid())
  }

  lemma LateOrRepeated(r: ProposerState, m: PromiseMessage)
    requires m.id.Le(r.ballot) && (m.id != r.ballot || m.from in r.promises)
    ensures r.ReceivePromise(m.from, m.id, m.prevId, m.prevValue) == (r, [])
  {
    OrderIsStrictAndTotal(m.id, r.ballot);
    hide ProposalId.Compare;
  }

  /** One more promise is counted. */
  lemma OneCounted(r: ProposerState, m: PromiseMessage)
    requires m.id == r.ballot && m.from !in r.promises && Truthful(m)
    requires r.lastAccepted == NO_ID || r.lastAccepted.IsValid()
    ensures var (r', effects) := r.ReceivePromise(m.from, m.id, m.prevId, m.prevValue);
            && r' == r.(promises := r.promises + {m.from}, leader := r'.leader,
                        lastAccepted := r'.lastAccepted, value := r'.value)
            && (r'.leader <==> r.leader || |r.promises + {m.from}| >= r.quorumSize)
            && (if r.lastAccepted.Lt(m.prevId) then r'.lastAccepted == m.prevId && r'.value == m.prevValue
                else r'.lastAccepted == r.lastAccepted && r'.value == r.value)
            && (r.value != "" ==> r'.value != "")
            && effects == if |r.promises + {m.from}| < r.quorumSize then []
                          else [OnLeadershipAcquired]
                               + if r'.value != "" && r.active then [SendAccept(r.ballot, r'.value)] else []
  {
    hide ProposalId.Compare;
    OrderIsStrictAndTotal(m.id, r.ballot);
    OrderIsStrictAndTotal(m.prevId, r.lastAccepted);
    OrderIsStrictAndTotal(r.lastAccepted, m.prevId);
    NoIdIsBottom(m.prevId);
    NoIdIsBottom(r.lastAccepted);
  }

  lemma MorePromisers(a: set<Uid>, x: Uid)
    ensures |a| <= |a + {x}|
  {
    if x in a { assert a + {x} == a; }
  }

  lemma OneMorePromise(r: ProposerState, ms: seq<PromiseMessage>, r1: ProposerState, m: PromiseMessage)
    requires JustOpened(r) && Follows(r, ms, r1)
    requires m.id.Le(r.ballot) && (m.id == r.ballot ==> Truthful(m))
    ensures Follows(r, ms + [m], r1.ReceivePromise(m.from, m.id, m.prevId, m.prevValue).0)
  {
    hide Best, ProposalId.Compare, ProposerState.ReceivePromise, Promisers, IsFirst;
    FirstStays(ms, m, r.ballot);
    var P := Promisers(ms, r.ballot);
    if m.id != r.ballot || m.from in P {
      LateOrRepeated(r1, m);
      assert P + {m.from} == P || m.id != r.ballot;
      SameBest(ms, m, r.ballot, r.lastAccepted, r.value, r1.lastAccepted, r1.value);
    } else {
      OneCounted(r1, m);
      MorePromisers(P, m.from);
      OrderIsStrictAndTotal(m.prevId, r1.lastAccepted);
      if r1.lastAccepted.Lt(m.prevId) {
        NewBest(ms, m, r.ballot, r.lastAccepted, r.value, r1.lastAccepted, r1.value);
      } else {
        SameBest(ms, m, r.ballot, r.lastAccepted, r.value, r1.lastAccepted, r1.value);
      }
    }
  }

  lemma {:induction false} PromisesFollowed(r: ProposerState, ms: seq<PromiseMessage>)
    requires JustOpened(r) && Arrivable(r, ms)
    ensures Follows(r, ms, HearPromises(r, ms).0)
  {
    if ms == [] {
      NobodyPromised(r);
    } else {
      hide Follows, ProposerState.ReceivePromise, ProposalId.Compare;
      var before, m := ms[..|ms| - 1], ms[|ms| - 1];
      assert ms == before + [m];
      PromisesFollowed(r, before);
      OneMorePromise(r, before, HearPromises(r, before).0, m);
    }
  }

  lemma NobodyPromised(r: ProposerState)
    requires JustOpened(r)
    ensures Follows(r, [], r)
  {
    assert Promisers([], r.ballot) == {};
    assert NoneReported([], r.ballot, r.lastAccepted);
  }

  /** What has been sent so far: nothing short of a quorum, and from then on the lead was announced,
      and the value held now was asked for. */
  ghost predicate SentEnough(r: ProposerState, P: set<Uid>, r': ProposerState, effects: seq<Effect>) {
    && (forall x <- effects :: x == OnLeadershipAcquired || (x.SendAccept? && x.id == r.ballot && x.value != ""))
    && (OnLeadershipAcquired in effects <==> r'.leader)
    && (forall x <- effects :: x.SendAccept? ==> r.active && r'.leader && r'.value != "")
    && (r'.leader && r.active && r'.value != "" ==> SendAccept(r.ballot, r'.value) in effects)
    && (|P| <= r.quorumSize ==>
          effects == if !r'.leader then []
                     else [OnLeadershipAcquired]
                          + if r.active && r'.value != "" then [SendAccept(r.ballot, r'.value)] else [])
  }

  lemma OneMoreSent(r: ProposerState, ms: seq<PromiseMessage>, r1: ProposerState, m: PromiseMessage, sent: seq<Effect>)
    requires JustOpened(r) && r.quorumSize > 0 && Follows(r, ms, r1)
    requires SentEnough(r, Promisers(ms, r.ballot), r1, sent)
    requires m.id.Le(r.ballot) && (m.id == r.ballot ==> Truthful(m))
    ensures var (r2, more) := r1.ReceivePromise(m.from, m.id, m.prevId, m.prevValue);
            SentEnough(r, Promisers(ms + [m], r.ballot), r2, sent + more)
  {
    hide Best, ProposalId.Compare, ProposerState.ReceivePromise, Promisers, IsFirst;
    FirstStays(ms, m, r.ballot);
    var P := Promisers(ms, r.ballot);
    if m.id != r.ballot || m.from in P {
      LateOrRepeated(r1, m);
      assert P + {m.from} == P || m.id != r.ballot;
      assert sent + [] == sent;
    } else {
      OneCounted(r1, m);
      assert |P + {m.from}| == |P| + 1;
      if |P| + 1 >= r.quorumSize {
        var r2 := r1.ReceivePromise(m.from, m.id, m.prevId, m.prevValue).0;
        AskedMore(r, P, m.from, r1, r2, sent);
      } else {
        assert sent + [] == sent;
      }
    }
  }

  lemma AskedMore(r: ProposerState, P: set<Uid>, x: Uid, r1: ProposerState, r2: ProposerState, sent: seq<Effect>)
    requires SentEnough(r, P, r1, sent) && x !in P && |P| + 1 >= r.quorumSize && r2.leader
    requires r1.leader <==> P != {} && |P| >= r.quorumSize
    requires r1.value != "" ==> r2.value != ""
    ensures var asks := if r2.value != "" && r.active then [SendAccept(r.ballot, r2.value)] else [];
            SentEnough(r, P + {x}, r2, sent + ([OnLeadershipAcquired] + asks))
  {
    var asks := if r2.value != "" && r.active then [SendAccept(r.ballot, r2.value)] else [];
    var more := [OnLeadershipAcquired] + asks;
    assert |P + {x}| == |P| + 1;
    assert more[0] in sent + more;
    assert |more| == 2 ==> more[1] in sent + more;
    assert forall e <- sent + more :: e in sent || e in more;
    assert sent == [] ==> sent + more == more;
  }

  lemma {:induction false} PromisesAnswered(r: ProposerState, ms: seq<PromiseMessage>)
    requires JustOpened(r) && r.quorumSize > 0 && Arrivable(r, ms)
    ensures SentEnough(r, Promisers(ms, r.ballot), HearPromises(r, ms).0, HearPromises(r, ms).1)
  {
    if ms == [] {
      assert Promisers(ms, r.ballot) == {};
    } else {
      hide Follows, SentEnough, ProposerState.ReceivePromise, ProposalId.Compare;
      var before, m := ms[..|ms| - 1], ms[|ms| - 1];
      assert ms == before + [m];
      PromisesFollowed(r, before);
      PromisesAnswered(r, before);
      OneMoreSent(r, before, HearPromises(r, before).0, m, HearPromises(r, before).1);
    }
  }

  /** PHASE 1 COMPLETE. A proposer that has opened a ballot hears any promises for it, and for older
      ballots, in any order and with repetitions. It leads if and only if a quorum of distinct senders
      promised; and once it leads and is active it has asked for w if and only if w is a value, where
      w is the value of the highest vote reported above the one it held, or else its own. */
  lemma LeadsAndAsksIff(r: ProposerState, ms: seq<PromiseMessage>, w: Value)
    requires JustOpened(r) && r.quorumSize > 0 && Arrivable(r, ms)
    requires MustAsk(ms, r.ballot, r.lastAccepted, r.value, w)
    ensures var (r', sent) := HearPromises(r, ms);
            && (r'.leader <==> |Promisers(ms, r.ballot)| >= r.quorumSize)
            && (OnLeadershipAcquired in sent <==> r'.leader)
            && (SendAccept(r.ballot, w) in sent <==> r'.leader && r.active && w != "")
            && (|Promisers(ms, r.ballot)| <= r.quorumSize ==>
                  forall x <- sent | x.SendAccept? :: x == SendAccept(r.ballot, w))
            && r'.ballot == r.ballot && r'.value == w
            && r'.ResendAccept() == if r'.leader && r.active && w != "" then [SendAccept(r.ballot, w)] else []
  {
    hide ProposalId.Compare, ProposerState.ReceivePromise, HearPromises, IsFirst;
    PromisesFollowed(r, ms);
    PromisesAnswered(r, ms);
    var r' := HearPromises(r, ms).0;
    BestIsUnique(ms, r.ballot, r.lastAccepted, r.value, r'.lastAccepted, r'.value, w);
  }

  lemma BestIsUnique(
    ms: seq<PromiseMessage>, b: ProposalId, held: ProposalId, own: Value, top: ProposalId, v: Value, w: Value)
    requires Best(ms, b, held, own, top, v) && MustAsk(ms, b, held, own, w)
    ensures v == w
  {
    hide IsFirst, ProposalId.Compare;
    FirstInRange(ms, b);
    if k: nat :| ReportsHighest(ms, b, held, k) && w == ms[k].prevValue {
      OrderIsStrictAndTotal(held, ms[k].prevId);
      if l: nat :| ReportsHighest(ms, b, held, l) && top == ms[l].prevId && v == ms[l].prevValue {
        OrderIsStrictAndTotal(ms[k].prevId, ms[l].prevId);
      }
    } else if l: nat :| ReportsHighest(ms, b, held, l) && top == ms[l].prevId && v == ms[l].prevValue {
      OrderIsStrictAndTotal(held, ms[l].prevId);
    }
  }

  /** There always is such a value. */
  lemma AnswerExists(r: ProposerState, ms: seq<PromiseMessage>)
    requires JustOpened(r) && Arrivable(r, ms)
    ensures MustAsk(ms, r.ballot, r.lastAccepted, r.value, HearPromises(r, ms).0.value)
  {
    hide ProposalId.Compare, ProposerState.ReceivePromise, HearPromises, IsFirst;
    PromisesFollowed(r, ms);
  }

  /** A value may come before or after the promises: when no vote above the held one is reported, the
      proposer ends in the same state, and has asked for the value exactly when it leads. */
  lemma ValueFirstOrLast(r: ProposerState, ms: seq<PromiseMessage>, v: Value)
    requires JustOpened(r) && r.quorumSize > 0 && Arrivable(r, ms) && r.value == "" && v != ""
    requires NoneReported(ms, r.ballot, r.lastAccepted)
    ensures var first := HearPromises(r.SetProposal(v).0, ms);
            var last := HearPromises(r, ms).0.SetProposal(v);
            && first.0 == last.0
            && (SendAccept(r.ballot, v) in first.1 <==> SendAccept(r.ballot, v) in last.1)
            && (SendAccept(r.ballot, v) in last.1 <==> |Promisers(ms, r.ballot)| >= r.quorumSize && r.active)
  {
    hide ProposalId.Compare, ProposerState.ReceivePromise, HearPromises, IsFirst, NoneReported, Promisers;
    var s := r.SetProposal(v).0;
    LeadsAndAsksIff(s, ms, v);
    LeadsAndAsksIff(r, ms, "");
    PromisesFollowed(s, ms);
    PromisesFollowed(r, ms);
    NoneIsBest(ms, r.ballot, r.lastAccepted, r.value, HearPromises(r, ms).0.lastAccepted, "");
    NoneIsBest(ms, r.ballot, r.lastAccepted, v, HearPromises(s, ms).0.lastAccepted, v);
  }

  lemma NoneIsBest(ms: seq<PromiseMessage>, b: ProposalId, held: ProposalId, own: Value, top: ProposalId, w: Value)
    requires Best(ms, b, held, own, top, w) && NoneReported(ms, b, held)
    ensures top == held
  {
    hide IsFirst, ProposalId.Compare;
    FirstInRange(ms, b);
    if k: nat :| ReportsHighest(ms, b, held, k) {
      OrderIsStrictAndTotal(held, ms[k].prevId);
    }
  }
}
