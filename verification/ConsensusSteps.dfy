/** Every small step of the consensus core keeps its invariant and only adds to its history. */
module ConsensusSteps {
  import opened ProposalIds
  import opened Messages
  import opened Acceptors
  import opened Proposers
  import opened Quorums
  import opened Consensus

  // ----- what no step undoes

  /** Nothing sent is forgotten, ballots and promises only rise, and a new vote is not below the
      voter's old promise. */
  ghost predicate Grows(s: State, s': State) {
    && s.lastTried.Keys == s'.lastTried.Keys && s.stable.Keys == s'.stable.Keys
    && (forall p <- s.lastTried.Keys ::
          s.lastTried[p].uid == s'.lastTried[p].uid && s.lastTried[p].number <= s'.lastTried[p].number)
    && (forall a <- s.stable.Keys :: s.stable[a].promised.Le(s'.stable[a].promised))
    && (forall a <- s.stable.Keys :: s.stable[a].accepted.Le(s'.stable[a].accepted))
    && s.prepares <= s'.prepares && s.promises <= s'.promises
    && s.accepts <= s'.accepts && s.permits <= s'.permits
    && s.votes <= s'.votes && s.inputs <= s'.inputs
    && (forall v <- s'.votes :: v in s.votes || (v.from in s.stable && s.stable[v.from].promised.Le(v.id)))
  }

  lemma ClosedStays(s: State, s': State, a: Uid, k: ProposalId, b: ProposalId)
    requires Grows(s, s') && Closed(s, a, k, b)
    ensures Closed(s', a, k, b)
  {
    LeTransitive(b, s.stable[a].promised, s'.stable[a].promised);
    forall v <- s'.votes | v.from == a && v.id.Lt(b)
      ensures v.id.Le(k)
    {
      if v !in s.votes {
        LeTransitive(b, s.stable[a].promised, v.id);
        OrderIsStrictAndTotal(v.id, b);
      }
    }
  }

  lemma JustifiedStays(c: Config, s: State, s': State, b: ProposalId, v: Value)
    requires Grows(s, s') && Justified(c, s, b, v)
    ensures Justified(c, s', b, v)
  {
    var T, L :| JustifiedBy(c, s, b, v, T, L);
    forall a <- T
      ensures Promised(s', a, b) && Closed(s', a, L, b)
    {
      ClosedStays(s, s', a, L, b);
    }
    assert JustifiedBy(c, s', b, v, T, L);
  }

  lemma PromiseStays(s: State, s': State, m: PromiseMessage)
    requires Grows(s, s') && PromiseOk(s, m)
    ensures PromiseOk(s', m)
  {
    ClosedStays(s, s', m.from, m.prevId, m.id);
  }

  lemma VoteStays(s: State, s': State, v: Vote)
    requires Grows(s, s') && VoteOk(s, v)
    ensures VoteOk(s', v)
  {
    LeTransitive(v.id, s.stable[v.from].accepted, s'.stable[v.from].accepted);
  }

  lemma AcceptStays(c: Config, s: State, s': State, m: AcceptMessage)
    requires Grows(s, s') && AcceptOk(c, s, m)
    ensures AcceptOk(c, s', m)
  {
    JustifiedStays(c, s, s', m.id, m.value);
  }

  /** What was true of the messages and votes already there is true after any growth. */
  lemma HistoryStays(c: Config, s: State, s': State)
    requires Grows(s, s') && Inv(c, s)
    ensures forall m <- s.promises :: PromiseOk(s', m)
    ensures forall m <- s.accepts :: AcceptOk(c, s', m)
    ensures forall v <- s.votes :: VoteOk(s', v)
    ensures forall m <- s.permits :: PermitOk(s', m)
  {
    forall m <- s.promises ensures PromiseOk(s', m) { PromiseStays(s, s', m); }
    forall m <- s.accepts ensures AcceptOk(c, s', m) { AcceptStays(c, s, s', m); }
    forall v <- s.votes ensures VoteOk(s', v) { VoteStays(s, s', v); }
  }

  lemma AcceptorStays(s: State, s': State, a: Uid)
    requires Grows(s, s') && AcceptorOk(s, a)
    requires s'.stable[a] == s.stable[a]
    ensures AcceptorOk(s', a)
  {
  }

  ghost predicate SameProposer(s: State, s': State, p: Uid) {
    && p in s.proposers && p in s.lastTried && p in s.targets
    && p in s'.proposers && p in s'.lastTried && p in s'.targets
    && s'.proposers[p] == s.proposers[p] && s'.lastTried[p] == s.lastTried[p] && s'.targets[p] == s.targets[p]
  }

  lemma ProposerStays(c: Config, s: State, s': State, p: Uid)
    requires Grows(s, s') && ProposerOk(c, s, p) && SameProposer(s, s', p)
    ensures ProposerOk(c, s', p)
  {
  }

  /** The message and vote part of the invariant, from what is new. */
  lemma HistoryFromNew(c: Config, s: State, s': State)
    requires Inv(c, s) && Grows(s, s')
    requires forall m <- s'.promises :: m in s.promises || PromiseOk(s', m)
    requires forall m <- s'.accepts :: m in s.accepts || AcceptOk(c, s', m)
    requires forall v <- s'.votes :: v in s.votes || VoteOk(s', v)
    requires forall m <- s'.permits :: m in s.permits || PermitOk(s', m)
    ensures forall m <- s'.promises :: PromiseOk(s', m)
    ensures forall m <- s'.accepts :: AcceptOk(c, s', m)
    ensures forall v <- s'.votes :: VoteOk(s', v)
    ensures forall m <- s'.permits :: PermitOk(s', m)
  {
    hide Grows, PromiseOk, AcceptOk, VoteOk, PermitOk, AcceptorOk, ProposerOk, PrepareOk, AcceptMatchesOwner;
    HistoryStays(c, s, s');
  }

  /** The role part of the invariant, from the roles that changed. */
  lemma RolesFromChanged(c: Config, s: State, s': State)
    requires Inv(c, s) && Grows(s, s') && WellFormed(c, s')
    requires forall a <- c.nodes :: s'.stable[a] == s.stable[a] || AcceptorOk(s', a)
    requires forall p <- c.nodes :: SameProposer(s, s', p) || ProposerOk(c, s', p)
    ensures forall a <- c.nodes :: AcceptorOk(s', a)
    ensures forall p <- c.nodes :: ProposerOk(c, s', p)
  {
    hide Grows, SameProposer, PromiseOk, AcceptOk, VoteOk, PermitOk, AcceptorOk, ProposerOk, PrepareOk,
      AcceptMatchesOwner;
    forall a <- c.nodes ensures AcceptorOk(s', a) {
      if s'.stable[a] == s.stable[a] { AcceptorStays(s, s', a); }
    }
    forall p <- c.nodes ensures ProposerOk(c, s', p) {
      if SameProposer(s, s', p) { ProposerStays(c, s, s', p); }
    }
  }

  /** The part that ties messages to their senders, from what changed. */
  lemma OwnersFromChanged(c: Config, s: State, s': State)
    requires Inv(c, s) && Grows(s, s')
    requires forall m <- s'.prepares :: (m in s.prepares && SameProposer(s, s', m.id.uid)) || PrepareOk(s', m)
    requires forall m <- s'.accepts ::
               (m in s.accepts && SameProposer(s, s', m.id.uid)) || AcceptMatchesOwner(c, s', m)
    ensures forall m <- s'.prepares :: PrepareOk(s', m)
    ensures forall m <- s'.accepts :: AcceptMatchesOwner(c, s', m)
  {
    hide Grows, WellFormed, PromiseOk, AcceptOk, VoteOk, PermitOk, AcceptorOk, ProposerOk;
    forall m <- s'.prepares ensures PrepareOk(s', m) {
      if m in s.prepares { assert PrepareOk(s, m); }
    }
    forall m <- s'.accepts ensures AcceptMatchesOwner(c, s', m) {
      if m in s.accepts { assert AcceptMatchesOwner(c, s, m); }
    }
  }

  /** The whole invariant, from what is new and what changed. */
  lemma InvFromChanges(c: Config, s: State, s': State)
    requires Inv(c, s) && Grows(s, s') && WellFormed(c, s') && OneValue(s')
    requires forall m <- s'.promises :: m in s.promises || PromiseOk(s', m)
    requires forall m <- s'.accepts :: m in s.accepts || AcceptOk(c, s', m)
    requires forall v <- s'.votes :: v in s.votes || VoteOk(s', v)
    requires forall m <- s'.permits :: m in s.permits || PermitOk(s', m)
    requires forall a <- c.nodes :: s'.stable[a] == s.stable[a] || AcceptorOk(s', a)
    requires forall p <- c.nodes :: SameProposer(s, s', p) || ProposerOk(c, s', p)
    requires forall m <- s'.prepares :: (m in s.prepares && SameProposer(s, s', m.id.uid)) || PrepareOk(s', m)
    requires forall m <- s'.accepts ::
               (m in s.accepts && SameProposer(s, s', m.id.uid)) || AcceptMatchesOwner(c, s', m)
    requires forall b: ProposalId :: FewAsked(c, s', b)
    ensures Inv(c, s')
  {
    hide Grows, OneValue, SameProposer, PromiseOk, AcceptOk, VoteOk, PermitOk, AcceptorOk, ProposerOk, PrepareOk,
      AcceptMatchesOwner, FewAsked;
    HistoryFromNew(c, s, s');
    RolesFromChanged(c, s, s');
    OwnersFromChanged(c, s, s');
  }

  /** Every proposer is as it was, and so is the ownership of the messages there. */
  lemma ProposersUnchanged(c: Config, s: State, s': State)
    requires Inv(c, s)
    requires s'.proposers == s.proposers && s'.lastTried == s.lastTried && s'.targets == s.targets
    ensures forall p <- c.nodes :: SameProposer(s, s', p)
    ensures forall m <- s.prepares :: SameProposer(s, s', m.id.uid)
    ensures forall m <- s.accepts :: SameProposer(s, s', m.id.uid)
  {
    hide PromiseOk, AcceptOk, VoteOk, PermitOk, AcceptorOk, ProposerOk;
    forall m <- s.prepares ensures SameProposer(s, s', m.id.uid) { assert PrepareOk(s, m); }
    forall m <- s.accepts ensures SameProposer(s, s', m.id.uid) { assert AcceptMatchesOwner(c, s, m); }
  }

  /** No request was sent, so no ballot reached anybody new. */
  lemma NothingAsked(c: Config, s: State, s': State)
    requires Inv(c, s) && s'.prepares == s.prepares && s'.accepts == s.accepts
    ensures forall b: ProposalId :: FewAsked(c, s', b)
  {
    hide WellFormed, PromiseOk, AcceptOk, VoteOk, PermitOk, ProposerOk, AcceptorOk, PrepareOk, AcceptMatchesOwner,
      OneValue, Asked;
    forall b: ProposalId ensures FewAsked(c, s', b) {
      assert FewAsked(c, s, b);
    }
  }

  /** The requests for a ballot its owner prepared last went to the acceptors chosen for it. */
  lemma AskedAreTargets(c: Config, s: State, p: Uid)
    requires WellFormed(c, s) && p in c.nodes
    requires forall m <- s.prepares :: PrepareOk(s, m)
    requires forall m <- s.accepts :: AcceptMatchesOwner(c, s, m)
    ensures Asked(s.prepares, s.accepts, s.lastTried[p]) <= s.targets[p]
    ensures FewAsked(c, s, s.lastTried[p])
  {
    forall a <- Asked(s.prepares, s.accepts, s.lastTried[p]) ensures a in s.targets[p] {
      if m :| m in s.prepares && m.id == s.lastTried[p] && a in m.to {
        assert PrepareOk(s, m);
      } else {
        var m :| m in s.accepts && m.id == s.lastTried[p] && a in m.to;
        assert AcceptMatchesOwner(c, s, m);
      }
    }
    SubsetSize(Asked(s.prepares, s.accepts, s.lastTried[p]), s.targets[p]);
  }

  /** New requests are for one ballot only, the one p prepared last. */
  lemma OneBallotAsked(c: Config, s: State, s': State, p: Uid)
    requires Inv(c, s) && WellFormed(c, s') && p in c.nodes
    requires forall m <- s'.prepares :: PrepareOk(s', m)
    requires forall m <- s'.accepts :: AcceptMatchesOwner(c, s', m)
    requires s.prepares <= s'.prepares && s.accepts <= s'.accepts
    requires forall m <- s'.prepares :: m in s.prepares || m.id == s'.lastTried[p]
    requires forall m <- s'.accepts :: m in s.accepts || m.id == s'.lastTried[p]
    ensures forall b: ProposalId :: FewAsked(c, s', b)
  {
    hide PromiseOk, AcceptOk, VoteOk, PermitOk, ProposerOk, AcceptorOk, PrepareOk, AcceptMatchesOwner, OneValue;
    forall b: ProposalId ensures FewAsked(c, s', b) {
      if b == s'.lastTried[p] {
        AskedAreTargets(c, s', p);
      } else {
        assert FewAsked(c, s, b);
        assert Asked(s'.prepares, s'.accepts, b) == Asked(s.prepares, s.accepts, b);
      }
    }
  }

  lemma SameKeys(c: Config, s: State)
    requires Inv(c, s)
    ensures s.proposers.Keys == s.lastTried.Keys == s.targets.Keys == s.stable.Keys == c.nodes
  {
    hide PromiseOk, AcceptOk, VoteOk, PermitOk, ProposerOk, AcceptorOk, PrepareOk, AcceptMatchesOwner, OneValue;
  }

  // ----- acceptor steps keep the invariant

  lemma PermitGrows(c: Config, s: State, s': State, m: PermitMessage)
    requires WellFormed(c, s) && Permits(c, s, s', m)
    ensures Grows(s, s') && WellFormed(c, s')
  {
  }

  lemma PermitKeepsInv(c: Config, s: State, s': State, m: PermitMessage)
    requires Inv(c, s) && Permits(c, s, s', m)
    ensures Inv(c, s') && Grows(s, s')
  {
    hide Grows, WellFormed, SameProposer, PromiseOk, AcceptOk, VoteOk, AcceptorOk, ProposerOk, PrepareOk,
      AcceptMatchesOwner;
    PermitGrows(c, s, s', m);
    NothingAsked(c, s, s');
    ProposersUnchanged(c, s, s');
    InvFromChanges(c, s, s');
  }

  lemma PromiseGrows(c: Config, s: State, s': State, m: PromiseMessage)
    requires WellFormed(c, s) && Promises(c, s, s', m)
    ensures Grows(s, s') && WellFormed(c, s')
  {
  }

  /** A promise sent from the acceptor's triple is true. */
  lemma NewPromiseOk(c: Config, s: State, s': State, m: PromiseMessage)
    requires Inv(c, s) && Promises(c, s, s', m)
    ensures PromiseOk(s', m)
  {
    hide PromiseOk, AcceptOk, PermitOk, ProposerOk, PrepareOk, AcceptMatchesOwner;
    assert m.from in c.nodes;
    assert AcceptorOk(s, m.from);
    assert forall v <- s.votes :: VoteOk(s, v);
    PromiseFromTriple(s, s', m);
  }

  lemma PromiseFromTriple(s: State, s': State, m: PromiseMessage)
    requires m.from in s.stable && s' == s.(promises := s.promises + {m})
    requires AcceptorOk(s, m.from) && forall v <- s.votes :: VoteOk(s, v)
    requires m.id == s.stable[m.from].promised && m.id != NO_ID
    requires m.prevId == s.stable[m.from].accepted && m.prevValue == s.stable[m.from].value
    ensures PromiseOk(s', m)
  {
    assert Known(s', m.id);
    assert Reached(s', m.from, m.id);
    forall v <- s'.votes | v.from == m.from ensures v.id.Le(m.prevId) {
      assert VoteOk(s, v);
    }
  }

  lemma PromiseKeepsInv(c: Config, s: State, s': State, m: PromiseMessage)
    requires Inv(c, s) && Promises(c, s, s', m)
    ensures Inv(c, s') && Grows(s, s')
  {
    hide Grows, WellFormed, SameProposer, PromiseOk, AcceptOk, VoteOk, AcceptorOk, ProposerOk, PrepareOk,
      AcceptMatchesOwner;
    PromiseGrows(c, s, s', m);
    NewPromiseOk(c, s, s', m);
    NothingAsked(c, s, s');
    ProposersUnchanged(c, s, s');
    InvFromChanges(c, s, s');
  }

  lemma TripleRises(s: State, a: Uid, t': Triple)
    requires AcceptorOk(s, a) && MayBecome(s, a, s.stable[a], t')
    ensures s.stable[a].promised.Le(t'.promised) && s.stable[a].accepted.Le(t'.accepted)
    ensures forall v <- NewVotes(a, s.stable[a], t') :: v.from == a && s.stable[a].promised.Le(v.id)
  {
    var t := s.stable[a];
    if t'.accepted != t.accepted || t'.value != t.value {
      LeTransitive(t.accepted, t.promised, t'.accepted);
    }
  }

  lemma CommitGrows(c: Config, s: State, s': State, a: Uid, t': Triple)
    requires WellFormed(c, s) && AcceptorOk(s, a) && Commits(c, s, s', a, t')
    ensures Grows(s, s') && WellFormed(c, s')
  {
    hide AcceptorOk, MayBecome, NewVotes;
    TripleRises(s, a, t');
  }

  lemma CommittedTripleOk(c: Config, s: State, s': State, a: Uid, t': Triple)
    requires Inv(c, s) && Commits(c, s, s', a, t')
    ensures AcceptorOk(s', a)
    ensures forall v <- NewVotes(a, s.stable[a], t') :: VoteOk(s', v)
  {
    hide PromiseOk, AcceptOk, VoteOk, PermitOk, ProposerOk, PrepareOk, AcceptMatchesOwner;
    assert a in c.nodes && AcceptorOk(s, a);
    TripleMoves(s, s', a, t');
  }

  lemma TripleMoves(s: State, s': State, a: Uid, t': Triple)
    requires AcceptorOk(s, a) && MayBecome(s, a, s.stable[a], t')
    requires s' == s.(stable := s.stable[a := t'], votes := s.votes + NewVotes(a, s.stable[a], t'))
    ensures AcceptorOk(s', a)
    ensures forall v <- NewVotes(a, s.stable[a], t') :: VoteOk(s', v)
  {
    var t := s.stable[a];
    assert Known(s, t'.promised) ==> Known(s', t'.promised);
    assert Reached(s, a, t'.promised) ==> Reached(s', a, t'.promised);
    if t'.accepted == t.accepted && t'.value == t.value {
      LeTransitive(t.accepted, t.promised, t'.promised);
    }
  }

  lemma CommitKeepsInv(c: Config, s: State, s': State, a: Uid, t': Triple)
    requires Inv(c, s) && Commits(c, s, s', a, t')
    ensures Inv(c, s') && Grows(s, s')
  {
    hide Grows, WellFormed, SameProposer, PromiseOk, AcceptOk, VoteOk, AcceptorOk, ProposerOk, PrepareOk,
      AcceptMatchesOwner, MayBecome, NewVotes;
    assert a in c.nodes && AcceptorOk(s, a) by { SameKeys(c, s); }
    CommitGrows(c, s, s', a, t');
    CommittedTripleOk(c, s, s', a, t');
    NothingAsked(c, s, s');
    ProposersUnchanged(c, s, s');
    InvFromChanges(c, s, s');
  }

  // ----- proposer steps keep the invariant

  /** What every step inside proposer p's current round looks like. */
  ghost predicate RoundStep(
    c: Config, s: State, s': State, p: Uid, next: ProposerState, sent: set<AcceptMessage>, inputs: set<Value>)
  {
    && p in c.nodes && p in s.lastTried && p in s.targets
    && s' == s.(proposers := s.proposers[p := next], accepts := s.accepts + sent, inputs := s.inputs + inputs)
    && next.uid == p == next.ballot.uid && next.quorumSize == c.quorumSize
    && s.lastTried[p].number <= next.ballot.number
    && (forall m <- sent ::
          m.id == s.lastTried[p] && m.to <= s.targets[p] && m.value == next.value && m.value != "")
  }

  /** Next agrees with every accept request already sent in p's current round. */
  ghost predicate HoldsTo(c: Config, s: State, p: Uid, next: ProposerState) {
    && p in s.lastTried
    && forall m <- s.accepts :: m.id == s.lastTried[p] ==>
         m.value == next.value && |next.promises| >= c.quorumSize
  }

  lemma RoundGrows(
    c: Config, s: State, s': State, p: Uid, next: ProposerState, sent: set<AcceptMessage>, inputs: set<Value>)
    requires WellFormed(c, s) && RoundStep(c, s, s', p, next, sent, inputs)
    ensures Grows(s, s') && WellFormed(c, s')
  {
  }

  lemma JustifiedIsKnown(c: Config, s: State, b: ProposalId, v: Value)
    requires c.Valid() && Justified(c, s, b, v)
    requires forall m <- s.promises :: PromiseOk(s, m)
    ensures Known(s, b)
  {
    var T, L :| JustifiedBy(c, s, b, v, T, L);
    var a :| a in T;
    assert Promised(s, a, b);
  }

  lemma RoundOwners(
    c: Config, s: State, s': State, p: Uid, next: ProposerState, sent: set<AcceptMessage>, inputs: set<Value>)
    requires WellFormed(c, s) && RoundStep(c, s, s', p, next, sent, inputs)
    requires forall m <- s.accepts :: AcceptMatchesOwner(c, s, m)
    requires HoldsTo(c, s, p, next)
    requires sent != {} ==> |next.promises| >= c.quorumSize
    ensures forall m <- s'.accepts :: AcceptMatchesOwner(c, s', m)
  {
    forall m <- s'.accepts ensures AcceptMatchesOwner(c, s', m) {
      if m in s.accepts { assert AcceptMatchesOwner(c, s, m); }
    }
  }

  lemma RoundOneValue(
    c: Config, s: State, s': State, p: Uid, next: ProposerState, sent: set<AcceptMessage>, inputs: set<Value>)
    requires WellFormed(c, s) && RoundStep(c, s, s', p, next, sent, inputs)
    requires OneValue(s) && HoldsTo(c, s, p, next)
    ensures OneValue(s')
  {
    forall m <- s'.accepts, m' <- s'.accepts | m.id == m'.id ensures m.value == m'.value {
      if m in sent && m' !in sent { assert m'.value == next.value; }
      if m !in sent && m' in sent { assert m.value == next.value; }
    }
  }

  lemma RoundPrepares(c: Config, s: State, s': State)
    requires WellFormed(c, s) && forall m <- s.prepares :: PrepareOk(s, m)
    requires s'.prepares == s.prepares && s'.lastTried == s.lastTried && s'.targets == s.targets
    ensures forall m <- s'.prepares :: PrepareOk(s', m)
  {
    forall m <- s'.prepares ensures PrepareOk(s', m) {
      assert PrepareOk(s, m);
    }
  }

  lemma RoundAccepts(
    c: Config, s: State, s': State, p: Uid, next: ProposerState, sent: set<AcceptMessage>, inputs: set<Value>)
    requires c.Valid() && Inv(c, s) && RoundStep(c, s, s', p, next, sent, inputs) && Grows(s, s')
    requires ProposerOk(c, s', p)
    requires forall m <- sent :: Justified(c, s', m.id, m.value)
    ensures forall m <- sent :: AcceptOk(c, s', m)
  {
    hide Grows, Justified, PromiseOk, VoteOk, PermitOk, AcceptorOk, PrepareOk, AcceptMatchesOwner;
    forall m <- s'.promises ensures PromiseOk(s', m) { PromiseStays(s, s', m); }
    forall m <- sent ensures AcceptOk(c, s', m) {
      JustifiedIsKnown(c, s', m.id, m.value);
    }
  }

  /** A step inside the round keeps the invariant when the proposer itself is all right, agrees
      with what it already sent, and sends only what a quorum of promises justifies. */
  lemma RoundKeepsInv(
    c: Config, s: State, s': State, p: Uid, next: ProposerState, sent: set<AcceptMessage>, inputs: set<Value>)
    requires c.Valid() && Inv(c, s) && RoundStep(c, s, s', p, next, sent, inputs)
    requires ProposerOk(c, s', p) && HoldsTo(c, s, p, next)
    requires sent != {} ==> |next.promises| >= c.quorumSize
    requires forall m <- sent :: Justified(c, s', m.id, m.value)
    ensures Inv(c, s') && Grows(s, s')
  {
    hide Grows, WellFormed, Justified, PromiseOk, AcceptOk, VoteOk, AcceptorOk, ProposerOk, PrepareOk,
      AcceptMatchesOwner, HoldsTo, OneValue, SameProposer;
    RoundGrows(c, s, s', p, next, sent, inputs);
    RoundPrepares(c, s, s');
    RoundOwners(c, s, s', p, next, sent, inputs);
    RoundOneValue(c, s, s', p, next, sent, inputs);
    RoundAccepts(c, s, s', p, next, sent, inputs);
    OneBallotAsked(c, s, s', p);
    OthersUnchanged(c, s, s', p);
    InvFromChanges(c, s, s');
  }

  lemma OthersUnchanged(c: Config, s: State, s': State, p: Uid)
    requires WellFormed(c, s) && WellFormed(c, s') && p in c.nodes
    requires forall x <- c.nodes :: x != p ==>
               s'.proposers[x] == s.proposers[x] && s'.lastTried[x] == s.lastTried[x] && s'.targets[x] == s.targets[x]
    ensures forall x <- c.nodes :: x == p || SameProposer(s, s', x)
  {
  }

  /** The facts about p alone. */
  lemma OwnFacts(c: Config, s: State, p: Uid)
    requires Inv(c, s) && p in c.nodes
    ensures ProposerOk(c, s, p) && HoldsTo(c, s, p, s.proposers[p])
    ensures s.proposers[p].uid == s.proposers[p].ballot.uid == s.lastTried[p].uid == p
    ensures s.proposers[p].quorumSize == c.quorumSize
    ensures s.lastTried[p].number <= s.proposers[p].ballot.number
  {
    hide PromiseOk, AcceptOk, VoteOk, PermitOk, ProposerOk, AcceptorOk, PrepareOk;
    forall m <- s.accepts | m.id == s.lastTried[p]
      ensures m.value == s.proposers[p].value && |s.proposers[p].promises| >= c.quorumSize
    {
      assert AcceptMatchesOwner(c, s, m);
    }
  }

  lemma ObserveKeepsInv(c: Config, s: State, s': State, p: Uid, id: ProposalId)
    requires c.Valid() && Inv(c, s) && Observes(c, s, s', p, id)
    ensures Inv(c, s') && Grows(s, s')
  {
    hide Inv, Grows, WellFormed;
    SameKeys(c, s);
    OwnFacts(c, s, p);
    var r := s.proposers[p];
    NumberRoundTrip(id, r.ballot);
    OrderIsLexicographic(r.ballot, id);
    OrderIsStrictAndTotal(id, r.ballot);
    assert ProposerOk(c, s', p);
    assert RoundStep(c, s, s', p, r.Observe(id), {}, {});
    RoundKeepsInv(c, s, s', p, r.Observe(id), {}, {});
  }

  lemma FlagsKeepInv(c: Config, s: State, s': State, p: Uid, leader: bool, active: bool)
    requires c.Valid() && Inv(c, s) && SetsFlags(c, s, s', p, leader, active)
    ensures Inv(c, s') && Grows(s, s')
  {
    hide Inv, Grows, WellFormed;
    SameKeys(c, s);
    OwnFacts(c, s, p);
    var next := s.proposers[p].(leader := leader, active := active);
    assert ProposerOk(c, s', p);
    assert RoundStep(c, s, s', p, next, {}, {});
    RoundKeepsInv(c, s, s', p, next, {}, {});
  }

  lemma ClosedAbove(s: State, a: Uid, k: ProposalId, L: ProposalId, b: ProposalId)
    requires Closed(s, a, k, b) && k.Le(L)
    ensures Closed(s, a, L, b)
  {
    forall v <- s.votes | v.from == a && v.id.Lt(b) ensures v.id.Le(L) {
      LeTransitive(v.id, k, L);
    }
  }

  /** A proposer that has counted a quorum of promises may ask for the value it holds. */
  lemma CountedQuorumJustifies(c: Config, s: State, p: Uid)
    requires p in c.nodes && ProposerOk(c, s, p) && s.targets[p] <= c.nodes
    requires forall m <- s.promises :: PromiseOk(s, m)
    requires |s.proposers[p].promises| >= c.quorumSize
    ensures Justified(c, s, s.lastTried[p], s.proposers[p].value)
  {
    hide PromiseOk;
    var b, L, T := s.lastTried[p], s.proposers[p].lastAccepted, s.proposers[p].promises;
    forall a <- T ensures Promised(s, a, b) && Closed(s, a, L, b) {
      assert Counted(s, a, b, L);
      var m :| m in s.promises && m.from == a && m.id == b && m.prevId.Le(L);
      assert Closed(s, a, m.prevId, b) by { PromiseIsClosed(s, m); }
      ClosedAbove(s, a, m.prevId, L, b);
    }
    assert JustifiedBy(c, s, b, s.proposers[p].value, T, L);
  }

  lemma PromiseIsClosed(s: State, m: PromiseMessage)
    requires PromiseOk(s, m)
    ensures Closed(s, m.from, m.prevId, m.id)
  {
  }

  /** The messages there when a step inside a round is taken are as good afterwards. */
  lemma RoundPromises(
    c: Config, s: State, s': State, p: Uid, next: ProposerState, sent: set<AcceptMessage>, inputs: set<Value>)
    requires Inv(c, s) && RoundStep(c, s, s', p, next, sent, inputs)
    ensures forall m <- s'.promises :: PromiseOk(s', m)
    ensures s'.targets[p] <= c.nodes
  {
    hide Grows, WellFormed, PromiseOk, AcceptOk, VoteOk, PermitOk, AcceptorOk, ProposerOk, PrepareOk,
      AcceptMatchesOwner;
    RoundGrows(c, s, s', p, next, sent, inputs);
    forall m <- s'.promises ensures PromiseOk(s', m) { PromiseStays(s, s', m); }
    assert s'.targets[p] <= c.nodes by { TargetsAreNodes(c, s', p); }
  }

  lemma TargetsAreNodes(c: Config, s: State, p: Uid)
    requires WellFormed(c, s) && p in c.nodes
    ensures p in s.targets && s.targets[p] <= c.nodes
    ensures s.targets[p] == {} || |s.targets[p]| == c.quorumSize
  {
  }

  lemma ResendKeepsInv(c: Config, s: State, s': State, p: Uid, to: set<Uid>)
    requires c.Valid() && Inv(c, s) && Resends(c, s, s', p, to)
    ensures Inv(c, s') && Grows(s, s')
  {
    hide Inv, Grows, WellFormed, Justified, ProposerOk;
    SameKeys(c, s);
    OwnFacts(c, s, p);
    var r := s.proposers[p];
    var sent := AcceptsIn(p, to, r.ResendAccept());
    assert s'.proposers == s.proposers[p := r];
    assert s'.inputs == s.inputs + {};
    assert RoundStep(c, s, s', p, r, sent, {});
    RoundGrows(c, s, s', p, r, sent, {}) by { InvIsWellFormed(c, s); }
    RoundPromises(c, s, s', p, r, sent, {});
    ProposerStays(c, s, s', p) by { assert SameProposer(s, s', p); }
    if sent != {} {
      LeaderHasQuorum(c, s', p);
      CountedQuorumJustifies(c, s', p);
    }
    RoundKeepsInv(c, s, s', p, r, sent, {});
  }

  lemma LeaderHasQuorum(c: Config, s: State, p: Uid)
    requires ProposerOk(c, s, p) && s.proposers[p].leader
    ensures |s.proposers[p].promises| >= c.quorumSize
  {
  }

  lemma InvIsWellFormed(c: Config, s: State)
    requires Inv(c, s)
    ensures WellFormed(c, s)
  {
    hide WellFormed, OneValue, PromiseOk, AcceptOk, VoteOk, PermitOk, AcceptorOk, ProposerOk, PrepareOk,
      AcceptMatchesOwner;
  }

  /** A proposer without a value has not heard of any vote. */
  lemma NoValueNoVote(c: Config, s: State, p: Uid)
    requires Inv(c, s) && p in c.nodes && s.proposers[p].value == ""
    ensures s.proposers[p].lastAccepted == NO_ID
    ensures forall m <- s.accepts :: m.id != s.lastTried[p]
  {
    hide WellFormed, OneValue, Justified, PromiseOk, VoteOk, PermitOk, AcceptorOk, PrepareOk, AcceptMatchesOwner;
    OwnFacts(c, s, p);
    assert forall m <- s.accepts :: AcceptOk(c, s, m);
  }

  lemma ProposeKeepsInv(c: Config, s: State, s': State, p: Uid, v: Value, to: set<Uid>)
    requires c.Valid() && Inv(c, s) && Proposes(c, s, s', p, v, to)
    ensures Inv(c, s') && Grows(s, s')
  {
    hide Inv, Grows, WellFormed, Justified;
    SameKeys(c, s);
    OwnFacts(c, s, p);
    var r := s.proposers[p];
    var (next, effects) := r.SetProposal(v);
    var sent := AcceptsIn(p, to, effects);
    if r.value == "" {
      NoValueNoVote(c, s, p);
    }
    assert RoundStep(c, s, s', p, next, sent, {v});
    assert ProposerOk(c, s', p);
    if sent != {} {
      RoundPromises(c, s, s', p, next, sent, {v});
      CountedQuorumJustifies(c, s', p);
    }
    RoundKeepsInv(c, s, s', p, next, sent, {v});
  }

  /** A promise for the proposer's present ballot is for the ballot it prepared last: a ballot it
      was merely bumped to was never prepared, so nobody can have promised it. */
  lemma OwnPromiseIsForLastTried(c: Config, s: State, p: Uid, m: PromiseMessage)
    requires Inv(c, s) && p in c.nodes && m in s.promises
    requires m.id == s.proposers[p].Observe(m.id).ballot
    ensures m.id == s.lastTried[p] == s.proposers[p].ballot
    ensures s.proposers[p].Observe(m.id) == s.proposers[p]
  {
    hide WellFormed, OneValue, AcceptOk, VoteOk, PermitOk, AcceptorOk, ProposerOk, PrepareOk, AcceptMatchesOwner,
      Closed, Reached;
    SameKeys(c, s);
    OwnFacts(c, s, p);
    var r := s.proposers[p];
    assert PromiseOk(s, m);
    NumberRoundTrip(m.id, r.ballot);
    OrderIsLexicographic(r.ballot, m.id);
    OrderIsStrictAndTotal(m.id, r.ballot);
  }

  lemma ReachedIsTarget(c: Config, s: State, p: Uid, a: Uid)
    requires Inv(c, s) && p in c.nodes && Reached(s, a, s.lastTried[p])
    ensures a in s.targets[p]
  {
    hide WellFormed, OneValue, AcceptOk, PromiseOk, VoteOk, PermitOk, AcceptorOk, ProposerOk;
    OwnFacts(c, s, p);
    if m :| m in s.prepares && m.id == s.lastTried[p] && a in m.to {
      assert PrepareOk(s, m);
    } else {
      var m :| m in s.accepts && m.id == s.lastTried[p] && a in m.to;
      assert AcceptMatchesOwner(c, s, m);
    }
  }

  /** A promise not counted yet means that the ballot has no quorum yet, so no accept request
      was sent for it and no promise for it reports it. */
  lemma UncountedMeansNoAccept(c: Config, s: State, p: Uid, m: PromiseMessage)
    requires c.Valid() && Inv(c, s) && p in c.nodes && m in s.promises
    requires m.id == s.lastTried[p] && m.from !in s.proposers[p].promises
    ensures m.from in s.targets[p]
    ensures forall x <- s.accepts :: x.id != m.id
    ensures m.prevId.Lt(m.id)
  {
    hide WellFormed, Inv, Justified;
    PromiseHolds(c, s, m);
    ReachedIsTarget(c, s, p, m.from);
    OwnFacts(c, s, p);
    InvIsWellFormed(c, s);
    TargetsAreNodes(c, s, p);
    SubsetSize(s.proposers[p].promises, s.targets[p]);
    if m.prevId == m.id {
      VoteHolds(c, s, Vote(m.from, m.prevId, m.prevValue));
    }
  }

  lemma PromiseHolds(c: Config, s: State, m: PromiseMessage)
    requires Inv(c, s) && m in s.promises
    ensures PromiseOk(s, m)
    ensures m.id != NO_ID
    ensures m.prevId != NO_ID ==> Vote(m.from, m.prevId, m.prevValue) in s.votes
    ensures m.prevId == NO_ID || exists x <- s.accepts :: x.id == m.prevId && x.value == m.prevValue
    ensures m.prevId == NO_ID ==> m.prevValue == ""
    ensures m.prevId != NO_ID ==> m.prevValue != ""
  {
    hide WellFormed, OneValue, Justified, Closed, PermitOk, AcceptorOk, ProposerOk, PrepareOk, AcceptMatchesOwner;
    assert PromiseOk(s, m);
    var v := Vote(m.from, m.prevId, m.prevValue);
    if v in s.votes {
      assert VoteOk(s, v);
      var x :| x in s.accepts && x.id == v.id && x.value == v.value && v.from in x.to;
      assert AcceptOk(c, s, x);
    }
  }

  lemma VoteHolds(c: Config, s: State, v: Vote)
    requires Inv(c, s) && v in s.votes
    ensures VoteOk(s, v) && v.from in c.nodes
    ensures exists x <- s.accepts :: x.id == v.id && x.value == v.value
  {
    hide OneValue, Justified, PermitOk, AcceptorOk, ProposerOk, PrepareOk, AcceptMatchesOwner, PromiseOk, AcceptOk;
    assert VoteOk(s, v);
  }

  /** The state of a proposer after it has counted one more promise, before it may become leader. */
  function Counting(r: ProposerState, m: PromiseMessage): ProposerState {
    var c := r.(promises := r.promises + {m.from});
    if !c.lastAccepted.IsValid() || m.prevId.Gt(c.lastAccepted)
    then c.(lastAccepted := m.prevId, value := if m.prevValue != "" then m.prevValue else c.value)
    else c
  }

  /** The last accepted ID is the larger of the old one and the reported one, with its value. */
  lemma CountingRaises(r: ProposerState, m: PromiseMessage)
    requires r.lastAccepted == NO_ID || r.lastAccepted.IsValid()
    ensures r.lastAccepted.Le(Counting(r, m).lastAccepted)
    ensures m.prevId.Le(Counting(r, m).lastAccepted)
    ensures || (Counting(r, m).lastAccepted == r.lastAccepted && Counting(r, m).value == r.value)
            || (Counting(r, m).lastAccepted == m.prevId
                && Counting(r, m).value == if m.prevValue != "" then m.prevValue else r.value)
  {
    OrderIsStrictAndTotal(m.prevId, r.lastAccepted);
    NoIdIsBottom(m.prevId);
  }

  lemma KnownIsValid(c: Config, s: State, b: ProposalId)
    requires c.Valid() && WellFormed(c, s) && Known(s, b)
    ensures b.IsValid()
  {
  }

  lemma AcceptHolds(c: Config, s: State, m: AcceptMessage)
    requires Inv(c, s) && m in s.accepts
    ensures AcceptOk(c, s, m)
  {
    hide WellFormed, OneValue, Justified, Closed, PermitOk, AcceptorOk, ProposerOk, PrepareOk, AcceptMatchesOwner,
      VoteOk, PromiseOk, AcceptOk;
  }

  /** The last accepted ID a proposer holds is a real ballot or none at all. */
  lemma LastAcceptedIsValidOrNone(c: Config, s: State, p: Uid)
    requires c.Valid() && Inv(c, s) && p in c.nodes
    ensures s.proposers[p].lastAccepted == NO_ID || s.proposers[p].lastAccepted.IsValid()
  {
    hide Inv, WellFormed, Justified, HoldsTo;
    OwnFacts(c, s, p);
    if x :| x in s.accepts && x.id == s.proposers[p].lastAccepted {
      AcceptHolds(c, s, x);
      InvIsWellFormed(c, s);
      KnownIsValid(c, s, x.id);
    }
  }

  /** After one more promise is counted the proposer is all right: its last accepted ID covers
      every report, and the value it holds is the one requested there. */
  lemma CountedProposerOk(c: Config, s: State, s': State, p: Uid, m: PromiseMessage, next: ProposerState)
    requires c.Valid() && Inv(c, s) && p in c.nodes && m in s.promises
    requires m.id == s.lastTried[p] && m.from !in s.proposers[p].promises
    requires next == Counting(s.proposers[p], m).(leader := next.leader)
    requires next.leader ==> s.proposers[p].leader || |next.promises| >= c.quorumSize
    requires p in s'.proposers && s'.proposers[p] == next
    requires s'.lastTried == s.lastTried && s'.targets == s.targets && s'.promises == s.promises
    requires s.accepts <= s'.accepts && s.inputs <= s'.inputs
    ensures ProposerOk(c, s', p)
  {
    hide Inv, WellFormed, Justified, HoldsTo, PromiseOk, Counting;
    OwnFacts(c, s, p);
    LastAcceptedIsValidOrNone(c, s, p);
    var r := s.proposers[p];
    CountingRaises(r, m);
    PromiseHolds(c, s, m);
    UncountedMeansNoAccept(c, s, p, m);
    assert next.promises == r.promises + {m.from} by { CountingAdds(r, m); }
    if r.leader {
      SubsetSize(r.promises, next.promises);
    }
    forall a <- next.promises ensures Counted(s', a, s.lastTried[p], next.lastAccepted) {
      if a == m.from {
        assert Counted(s', a, s.lastTried[p], next.lastAccepted);
      } else {
        CountedAbove(s, s', a, s.lastTried[p], r.lastAccepted, next.lastAccepted);
      }
    }
    if m.prevId != NO_ID {
      var x :| x in s.accepts && x.id == m.prevId && x.value == m.prevValue;
      AcceptHolds(c, s, x);
    }
  }

  lemma CountingAdds(r: ProposerState, m: PromiseMessage)
    ensures Counting(r, m).promises == r.promises + {m.from}
  {
  }

  lemma CountedAbove(s: State, s': State, a: Uid, b: ProposalId, k: ProposalId, L: ProposalId)
    requires Counted(s, a, b, k) && k.Le(L) && s'.promises == s.promises
    ensures Counted(s', a, b, L)
  {
    var m :| m in s.promises && m.from == a && m.id == b && m.prevId.Le(k);
    LeTransitive(m.prevId, k, L);
  }

  lemma CountKeepsInv(c: Config, s: State, s': State, p: Uid, m: PromiseMessage, to: set<Uid>)
    requires c.Valid() && Inv(c, s) && Counts(c, s, s', p, m, to)
    ensures Inv(c, s') && Grows(s, s')
  {
    hide Inv, Grows, WellFormed, Justified, ProposerOk, HoldsTo;
    SameKeys(c, s);
    OwnFacts(c, s, p);
    var r := s.proposers[p];
    var (next, effects) := r.ReceivePromise(m.from, m.id, m.prevId, m.prevValue);
    var o := r.Observe(m.id);
    OrderIsStrictAndTotal(m.id, o.ballot);
    if m.id != o.ballot || m.from in o.promises {
      assert AcceptsIn(p, to, effects) == {};
      ObserveKeepsInv(c, s, s', p, m.id);
    } else {
      OwnPromiseIsForLastTried(c, s, p, m);
      CountNewKeepsInv(c, s, s', p, m, to);
    }
  }

  lemma CountNewKeepsInv(c: Config, s: State, s': State, p: Uid, m: PromiseMessage, to: set<Uid>)
    requires c.Valid() && Inv(c, s) && Counts(c, s, s', p, m, to) && p in c.nodes
    requires m.id == s.lastTried[p] == s.proposers[p].ballot
    requires s.proposers[p].Observe(m.id) == s.proposers[p]
    requires m.from !in s.proposers[p].promises
    ensures Inv(c, s') && Grows(s, s')
  {
    hide Inv, Grows, WellFormed, Justified, ProposerOk;
    OwnFacts(c, s, p);
    UncountedMeansNoAccept(c, s, p, m);
    var r := s.proposers[p];
    var (next, effects) := r.ReceivePromise(m.from, m.id, m.prevId, m.prevValue);
    var sent := AcceptsIn(p, to, effects);
    OrderIsStrictAndTotal(m.id, r.ballot);
    assert next == Counting(r, m).(leader := next.leader);
    assert s'.inputs == s.inputs + {};
    assert RoundStep(c, s, s', p, next, sent, {});
    CountedProposerOk(c, s, s', p, m, next);
    assert HoldsTo(c, s, p, next);
    if sent != {} {
      RoundPromises(c, s, s', p, next, sent, {});
      CountedQuorumJustifies(c, s', p);
    }
    RoundKeepsInv(c, s, s', p, next, sent, {});
  }

  // ----- opening a ballot keeps the invariant

  lemma OpenGrows(c: Config, s: State, s': State, p: Uid, targets: set<Uid>, sent: set<PrepareMessage>)
    requires WellFormed(c, s) && Opens(c, s, s', p, targets, sent)
    ensures Grows(s, s')
  {
    hide ProposalId.Compare, ProposalId.IncrementNumber, ProposerState.Prepare;
    PreparedState(s.proposers[p]);
  }

  lemma OpenedWellFormed(c: Config, s: State, s': State, p: Uid, targets: set<Uid>, sent: set<PrepareMessage>)
    requires WellFormed(c, s) && Opens(c, s, s', p, targets, sent)
    ensures WellFormed(c, s')
  {
    hide ProposalId.Compare, ProposalId.IncrementNumber, ProposerState.Prepare;
    PreparedState(s.proposers[p]);
  }

  lemma PreparedState(r: ProposerState)
    requires r.ballot.number < MAX_NUMBER
    ensures r.Prepare(true).0
         == r.(leader := false, active := true, promises := {}, ballot := ProposalId(r.ballot.number + 1, r.ballot.uid))
  {
    IncrementExceedsIff(r.ballot);
  }

  /** The ballot opened is above every ballot its owner used before. */
  lemma OpenedIsFresh(c: Config, s: State, p: Uid)
    requires WellFormed(c, s) && p in c.nodes && s.proposers[p].ballot.number < MAX_NUMBER
    ensures !Known(s, s.proposers[p].ballot.IncrementNumber())
    ensures s.lastTried[p].Lt(s.proposers[p].ballot.IncrementNumber())
  {
    IncrementExceedsIff(s.proposers[p].ballot);
    OrderIsLexicographic(s.lastTried[p], s.proposers[p].ballot.IncrementNumber());
  }

  lemma OpenedProposerOk(c: Config, s: State, s': State, p: Uid, targets: set<Uid>, sent: set<PrepareMessage>)
    requires Inv(c, s) && Opens(c, s, s', p, targets, sent) && p in c.nodes
    ensures ProposerOk(c, s', p)
  {
    hide Inv, WellFormed, HoldsTo;
    OwnFacts(c, s, p);
    InvIsWellFormed(c, s);
    OpenedIsFresh(c, s, p);
    if s.proposers[p].lastAccepted != NO_ID {
      LtTransitive(s.proposers[p].lastAccepted, s.lastTried[p], s'.lastTried[p]);
    }
  }

  lemma OpenedOwners(c: Config, s: State, s': State, p: Uid, targets: set<Uid>, sent: set<PrepareMessage>)
    requires Inv(c, s) && Opens(c, s, s', p, targets, sent) && p in c.nodes
    ensures forall m <- s'.prepares :: PrepareOk(s', m)
    ensures forall m <- s'.accepts :: AcceptMatchesOwner(c, s', m)
  {
    hide WellFormed, OneValue, Justified, PromiseOk, VoteOk, PermitOk, AcceptorOk, ProposerOk;
    OwnFacts(c, s, p);
    OpenedIsFresh(c, s, p);
    IncrementExceedsIff(s.proposers[p].ballot);
    forall m <- s'.prepares ensures PrepareOk(s', m) {
      if m !in sent { assert PrepareOk(s, m); }
    }
    forall m <- s'.accepts ensures AcceptMatchesOwner(c, s', m) {
      assert AcceptOk(c, s, m) && AcceptMatchesOwner(c, s, m);
    }
  }

  lemma OpenKeepsInv(c: Config, s: State, s': State, p: Uid, targets: set<Uid>, sent: set<PrepareMessage>)
    requires c.Valid() && Inv(c, s) && Opens(c, s, s', p, targets, sent)
    ensures Inv(c, s') && Grows(s, s')
  {
    hide Grows, WellFormed, SameProposer, PromiseOk, AcceptOk, VoteOk, PermitOk, AcceptorOk, ProposerOk, PrepareOk,
      AcceptMatchesOwner;
    SameKeys(c, s);
    OpenGrows(c, s, s', p, targets, sent);
    OpenedWellFormed(c, s, s', p, targets, sent);
    OpenedProposerOk(c, s, s', p, targets, sent);
    OpenedOwners(c, s, s', p, targets, sent);
    OneBallotAsked(c, s, s', p);
    OthersUnchanged(c, s, s', p);
    InvFromChanges(c, s, s');
  }
}
