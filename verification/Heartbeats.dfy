/** What hearing heartbeats does to a node's leader, whatever the heartbeats and their order. */
module Heartbeats {
  import opened ProposalIds
  import opened Proposers
  import opened Nodes

  /** One heartbeat: who leads, with which ballot, and when it arrives. */
  datatype Beat = Beat(uid: Uid, id: ProposalId, now: nat)

  function HearBeats(n: NodeState, beats: seq<Beat>): NodeState {
    if beats == [] then n
    else
      var last := beats[|beats| - 1];
      HearBeats(n, beats[..|beats| - 1]).ReceiveHeartbeat(last.uid, last.id, last.now).0
  }

  ghost predicate NoneAbove(n: NodeState, beats: seq<Beat>, top: ProposalId) {
    n.leaderId.Le(top) && forall x <- beats :: x.id.Le(top)
  }

  /** top is the highest of the leader's ID and the announced ones. */
  ghost predicate IsTop(n: NodeState, beats: seq<Beat>, top: ProposalId) {
    NoneAbove(n, beats, top) && (n.leaderId == top || exists x <- beats :: x.id == top)
  }

  /** beats[k] is the first to announce top. */
  ghost predicate FirstAt(beats: seq<Beat>, top: ProposalId, k: nat) {
    k < |beats| && beats[k].id == top && forall j :: 0 <= j < k ==> beats[j].id != top
  }

  lemma {:induction false} TopExists(n: NodeState, beats: seq<Beat>) returns (top: ProposalId)
    ensures IsTop(n, beats, top)
  {
    if beats == [] {
      top := n.leaderId;
    } else {
      var before, x := beats[..|beats| - 1], beats[|beats| - 1];
      assert beats == before + [x];
      var t := TopExists(n, before);
      OrderIsStrictAndTotal(t, x.id);
      top := if t.Lt(x.id) then x.id else t;
      if n.leaderId.Le(t) && t.Le(top) { LeTransitive(n.leaderId, t, top); }
      forall y <- beats ensures y.id.Le(top) {
        if y in before { LeTransitive(y.id, t, top); }
      }
    }
  }

  /** One heartbeat, when nothing is above top: a valid top sticks with its first announcer, and a
      nameless one is there exactly when it came last. */
  lemma HeardOne(n: NodeState, x: Beat, top: ProposalId)
    requires n.leaderId.Le(top) && x.id.Le(top)
    ensures var n' := n.ReceiveHeartbeat(x.uid, x.id, x.now).0;
            && n'.leaderId.Le(top)
            && (n'.leaderId == top <==> x.id == top || (top.IsValid() && n.leaderId == top))
            && (top.IsValid() && n.leaderId == top ==> n'.leaderUid == n.leaderUid)
            && (top.IsValid() && n.leaderId != top && x.id == top ==> n'.leaderUid == x.uid)
  {
    OrderIsStrictAndTotal(x.id, n.leaderId);
    OrderIsStrictAndTotal(x.id, top);
    OrderIsStrictAndTotal(n.leaderId, top);
    hide ProposalId.Compare, ProposerState.Observe;
  }

  lemma {:induction false} HeardAll(n: NodeState, beats: seq<Beat>, top: ProposalId)
    requires NoneAbove(n, beats, top)
    ensures var n' := HearBeats(n, beats);
            && n'.leaderId.Le(top)
            && (top.IsValid() ==> (n'.leaderId == top <==> n.leaderId == top || exists x <- beats :: x.id == top))
            && (!top.IsValid() && beats != [] ==> (n'.leaderId == top <==> beats[|beats| - 1].id == top))
            && (top.IsValid() && n.leaderId == top ==> n'.leaderUid == n.leaderUid)
            && (top.IsValid() && n.leaderId != top ==>
                  forall k: nat | FirstAt(beats, top, k) :: n'.leaderUid == beats[k].uid)
  {
    hide NodeState.ReceiveHeartbeat;
    if beats != [] {
      var before, x := beats[..|beats| - 1], beats[|beats| - 1];
      assert beats == before + [x];
      HeardAll(n, before, top);
      HeardOne(HearBeats(n, before), x, top);
      forall k: nat | FirstAt(beats, top, k) && k < |before| ensures FirstAt(before, top, k) {
      }
    }
  }

  /** HIGHEST BALLOT. After any heartbeats the leader's ballot is the highest of the one known and
      those announced if and only if the highest names somebody or came last. */
  lemma HighestBeatWinsIff(n: NodeState, beats: seq<Beat>, top: ProposalId)
    requires IsTop(n, beats, top)
    ensures HearBeats(n, beats).leaderId == top
       <==> top.IsValid() || beats == [] || beats[|beats| - 1].id == top
  {
    HeardAll(n, beats, top);
  }

  /** Everything announced in beats is announced in others too, in any order, any number of times. */
  ghost predicate Covers(others: seq<Beat>, beats: seq<Beat>) {
    forall x <- beats :: exists y <- others :: y.uid == x.uid && y.id == x.id
  }

  ghost predicate OneUidAt(beats: seq<Beat>, top: ProposalId) {
    forall x <- beats, y <- beats :: x.id == top && y.id == top ==> x.uid == y.uid
  }

  lemma Announced(others: seq<Beat>, beats: seq<Beat>, x: Beat) returns (y: Beat)
    requires Covers(others, beats) && x in beats
    ensures y in others && y.uid == x.uid && y.id == x.id
  {
    y :| y in others && y.uid == x.uid && y.id == x.id;
  }

  lemma {:induction false} FirstExists(beats: seq<Beat>, top: ProposalId) returns (k: nat)
    requires exists x <- beats :: x.id == top
    ensures FirstAt(beats, top, k)
  {
    var before, last := beats[..|beats| - 1], beats[|beats| - 1];
    assert beats == before + [last];
    if x :| x in before && x.id == top {
      k := FirstExists(before, top);
    } else {
      k := |before|;
    }
  }

  lemma TopIsCovered(n: NodeState, beats: seq<Beat>, m: NodeState, others: seq<Beat>, top: ProposalId)
    requires IsTop(n, beats, top) && Covers(others, beats) && Covers(beats, others) && n.leaderId == m.leaderId
    ensures IsTop(m, others, top)
  {
    hide Covers, ProposalId.Le;
    forall y <- others ensures y.id.Le(top) {
      var x := Announced(beats, others, y);
    }
    if x :| x in beats && x.id == top {
      var y := Announced(others, beats, x);
    }
  }

  /** Nodes that know of the same leader's ballot and hear the same announcements, in any order and
      with any repetitions, agree on ballot and UID, if the highest ballot has one announcer or is
      the one they know of. What is announced below the highest does not matter. */
  lemma LeadersConverge(n: NodeState, beats: seq<Beat>, m: NodeState, others: seq<Beat>, top: ProposalId)
    requires IsTop(n, beats, top) && top.IsValid() && Covers(others, beats) && Covers(beats, others)
    requires n.leaderId == m.leaderId
    requires if n.leaderId == top then n.leaderUid == m.leaderUid else OneUidAt(beats, top)
    ensures HearBeats(n, beats).leaderId == top == HearBeats(m, others).leaderId
    ensures HearBeats(n, beats).leaderUid == HearBeats(m, others).leaderUid
  {
    hide HearBeats, Covers, ProposalId.Le;
    TopIsCovered(n, beats, m, others, top);
    HeardAll(n, beats, top);
    HeardAll(m, others, top);
    if n.leaderId != top {
      var k := FirstExists(beats, top);
      var l := FirstExists(others, top);
      var x := Announced(beats, others, others[l]);
      assert beats[k] in beats;
    }
  }

  lemma CoversWithMore(beats: seq<Beat>, x: Beat)
    requires x in beats
    ensures Covers([x] + beats, beats) && Covers(beats, [x] + beats)
  {
    forall y <- beats ensures y in [x] + beats { }
  }

  lemma FirstHeardLeads(n: NodeState, beats: seq<Beat>, x: Beat, top: ProposalId)
    requires NoneAbove(n, beats, top) && top.IsValid() && n.leaderId != top && x in beats && x.id == top
    ensures HearBeats(n, [x] + beats).leaderUid == x.uid
  {
    HeardAll(n, [x] + beats, top);
    assert FirstAt([x] + beats, top, 0);
  }

  lemma TwoAnnouncersSplit(n: NodeState, beats: seq<Beat>, top: ProposalId) returns (others: seq<Beat>, more: seq<Beat>)
    requires NoneAbove(n, beats, top) && top.IsValid() && n.leaderId != top && !OneUidAt(beats, top)
    ensures Covers(others, beats) && Covers(beats, others) && Covers(more, beats) && Covers(beats, more)
    ensures HearBeats(n, others).leaderUid != HearBeats(n, more).leaderUid
  {
    hide HearBeats, Covers, NoneAbove;
    var x, y :| x in beats && y in beats && x.id == top && y.id == top && x.uid != y.uid;
    others, more := [x] + beats, [y] + beats;
    CoversWithMore(beats, x);
    CoversWithMore(beats, y);
    FirstHeardLeads(n, beats, x, top);
    FirstHeardLeads(n, beats, y, top);
  }

  /** The leader after some heartbeats does not depend on their order or repetition. */
  ghost predicate AnyOrderSameLeader(n: NodeState, beats: seq<Beat>) {
    forall others: seq<Beat> :: Covers(others, beats) && Covers(beats, others)
      ==> HearBeats(n, others).leaderUid == HearBeats(n, beats).leaderUid
  }

  /** ORDER DOES NOT MATTER, EXACTLY WHEN. The highest ballot names somebody. Then every order of the
      same announcements gives the same leader UID if and only if the node knew the highest ballot
      already or all who announce it are one. */
  lemma AnyOrderSameLeaderIff(n: NodeState, beats: seq<Beat>, top: ProposalId)
    requires IsTop(n, beats, top) && top.IsValid()
    ensures AnyOrderSameLeader(n, beats) <==> n.leaderId == top || OneUidAt(beats, top)
  {
    hide HearBeats, Covers, ProposalId.Le, OneUidAt, IsTop;
    if n.leaderId == top || OneUidAt(beats, top) {
      forall others: seq<Beat> | Covers(others, beats) && Covers(beats, others)
        ensures HearBeats(n, others).leaderUid == HearBeats(n, beats).leaderUid
      {
        LeadersConverge(n, beats, n, others, top);
      }
    } else {
      TopIsHighest(n, beats, top);
      var others, more := TwoAnnouncersSplit(n, beats, top);
    }
  }

  lemma TopIsHighest(n: NodeState, beats: seq<Beat>, top: ProposalId)
    requires IsTop(n, beats, top)
    ensures NoneAbove(n, beats, top)
  {
  }
}
