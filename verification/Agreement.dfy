/** What the invariant of the consensus core gives: safe proposals, one chosen value, and the
    write-once register the whole cluster implements. */
module Agreement {
  import opened ProposalIds
  import opened Messages
  import opened Quorums
  import opened Consensus
  import opened ConsensusSteps

  ghost predicate AllVoted(c: Config, s: State, Q: set<Uid>, b: ProposalId, v: Value) {
    Q <= c.nodes && |Q| >= c.quorumSize && forall a <- Q :: Vote(a, b, v) in s.votes
  }

  /** A quorum voted for v at ballot b. */
  ghost predicate ChosenAt(c: Config, s: State, b: ProposalId, v: Value) {
    exists Q :: AllVoted(c, s, Q, b, v)
  }

  ghost predicate Chosen(c: Config, s: State, v: Value) {
    exists b :: ChosenAt(c, s, b, v)
  }

  ghost function RequestedBelow(s: State, b: ProposalId): set<AcceptMessage> {
    set m | m in s.accepts && m.id.Lt(b)
  }

  /** A chosen ballot was requested. */
  lemma ChosenWasRequested(c: Config, s: State, b: ProposalId, v: Value) returns (m: AcceptMessage)
    requires c.Valid() && Inv(c, s) && ChosenAt(c, s, b, v)
    ensures m in s.accepts && m.id == b && m.value == v && b != NO_ID
  {
    hide Inv, AcceptOk;
    var Q :| AllVoted(c, s, Q, b, v);
    var a :| a in Q;
    VoteHolds(c, s, Vote(a, b, v));
    m :| m in s.accepts && m.id == b && m.value == v;
    AcceptIsKnown(c, s, m);
  }

  lemma AcceptIsKnown(c: Config, s: State, m: AcceptMessage)
    requires Inv(c, s) && m in s.accepts
    ensures Known(s, m.id) && m.id != NO_ID && Justified(c, s, m.id, m.value)
  {
    hide Inv, Justified;
    AcceptHolds(c, s, m);
  }

  lemma OneRequestPerBallot(c: Config, s: State, m: AcceptMessage, m': AcceptMessage)
    requires Inv(c, s) && m in s.accepts && m' in s.accepts && m.id == m'.id
    ensures m.value == m'.value
  {
    hide WellFormed, PromiseOk, AcceptOk, VoteOk, PermitOk, AcceptorOk, ProposerOk, PrepareOk, AcceptMatchesOwner;
  }

  /** If a quorum voted for w at b, every request above b carries w. */
  lemma {:induction false} SafeProposals(c: Config, s: State, b: ProposalId, w: Value, m: AcceptMessage)
    requires c.Valid() && Inv(c, s) && ChosenAt(c, s, b, w)
    requires m in s.accepts && b.Lt(m.id)
    ensures m.value == w
    decreases RequestedBelow(s, m.id)
  {
    hide Inv;
    AcceptIsKnown(c, s, m);
    var T, L :| JustifiedBy(c, s, m.id, m.value, T, L);
    var Q :| AllVoted(c, s, Q, b, w);
    var a := QuorumsIntersect(c.nodes, c.quorumSize, Q, T);
    assert Vote(a, b, w) in s.votes && Closed(s, a, L, m.id);
    assert b.Le(L);
    var first := ChosenWasRequested(c, s, b, w);
    NoIdIsBottom(b);
    var basis :| basis in s.accepts && basis.id == L && basis.value == m.value;
    if b == L {
      OneRequestPerBallot(c, s, first, basis);
    } else {
      BelowShrinks(s, basis, m.id);
      SafeProposals(c, s, b, w, basis);
    }
  }

  lemma BelowShrinks(s: State, basis: AcceptMessage, b: ProposalId)
    requires basis in s.accepts && basis.id.Lt(b)
    ensures RequestedBelow(s, basis.id) < RequestedBelow(s, b)
  {
    forall m <- RequestedBelow(s, basis.id) ensures m in RequestedBelow(s, b) {
      LtTransitive(m.id, basis.id, b);
    }
    OrderIsStrictAndTotal(basis.id, basis.id);
    assert basis in RequestedBelow(s, b) && basis !in RequestedBelow(s, basis.id);
  }

  /** At most one value is ever chosen, at whatever ballots. */
  lemma AtMostOneChosen(c: Config, s: State, v: Value, v': Value)
    requires c.Valid() && Inv(c, s) && Chosen(c, s, v) && Chosen(c, s, v')
    ensures v == v'
  {
    hide Inv, ChosenAt;
    var b :| ChosenAt(c, s, b, v);
    var b' :| ChosenAt(c, s, b', v');
    var m := ChosenWasRequested(c, s, b, v);
    var m' := ChosenWasRequested(c, s, b', v');
    OrderIsStrictAndTotal(b, b');
    if b == b' {
      OneRequestPerBallot(c, s, m, m');
    } else if b.Lt(b') {
      SafeProposals(c, s, b, v, m');
    } else {
      SafeProposals(c, s, b', v', m);
    }
  }

  // ----- the write-once register

  datatype Register = Unwritten | Written(value: Value)

  ghost predicate RegisterInit(r: Register) {
    r == Unwritten
  }

  /** The register keeps what it holds, and takes a value only while it holds none. */
  ghost predicate RegisterNext(r: Register, r': Register) {
    r' == r || r == Unwritten
  }

  ghost function RegisterOf(c: Config, s: State): Register {
    if v :| Chosen(c, s, v) then Written(v) else Unwritten
  }

  lemma RegisterHoldsChosen(c: Config, s: State, v: Value)
    requires c.Valid() && Inv(c, s)
    ensures Chosen(c, s, v) <==> RegisterOf(c, s) == Written(v)
  {
    hide Inv, Chosen;
    forall w | Chosen(c, s, w) && Chosen(c, s, v) ensures w == v {
      AtMostOneChosen(c, s, v, w);
    }
  }

  lemma ChosenStays(c: Config, s: State, s': State, v: Value)
    requires s.votes <= s'.votes && Chosen(c, s, v)
    ensures Chosen(c, s', v)
  {
    var b :| ChosenAt(c, s, b, v);
    var Q :| AllVoted(c, s, Q, b, v);
    assert AllVoted(c, s', Q, b, v);
    assert ChosenAt(c, s', b, v);
  }

  /** Growth of the core is a step of the register. */
  lemma GrowthIsRegisterStep(c: Config, s: State, s': State)
    requires c.Valid() && Inv(c, s) && Inv(c, s') && s.votes <= s'.votes
    ensures RegisterNext(RegisterOf(c, s), RegisterOf(c, s'))
  {
    hide Inv, Chosen;
    if RegisterOf(c, s) != Unwritten {
      var v := RegisterOf(c, s).value;
      RegisterHoldsChosen(c, s, v);
      ChosenStays(c, s, s', v);
      RegisterHoldsChosen(c, s', v);
    }
  }
}
