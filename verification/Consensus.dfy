/** The consensus core of the cluster: every proposer as it is, every acceptor reduced to the
    triple it stands by, every phase 1 and phase 2 message ever sent, and the history of votes
    and of client values. A step of the whole system is a few of the small steps below. */
module Consensus {
  import opened ProposalIds
  import opened Messages
  import opened Acceptors
  import opened Proposers

  /** The fixed cluster. Two sets of quorumSize nodes always meet. */
  datatype Config = Config(nodes: set<Uid>, quorumSize: nat) {
    predicate Valid() {
      "" !in nodes && 0 < quorumSize && |nodes| < 2 * quorumSize
    }
  }

  datatype Vote = Vote(from: Uid, id: ProposalId, value: Value)

  datatype State = State(
    proposers: map<Uid, ProposerState>,
    lastTried: map<Uid, ProposalId>,   // history: the ballot each proposer prepared last
    targets: map<Uid, set<Uid>>,       // the acceptors chosen for it
    stable: map<Uid, Triple>,          // what each acceptor will not go back on
    prepares: set<PrepareMessage>,
    promises: set<PromiseMessage>,
    accepts: set<AcceptMessage>,
    permits: set<PermitMessage>,
    votes: set<Vote>,                  // history: every vote an acceptor stands by
    inputs: set<Value>)                // history: every value handed to setProposal

  // ----- small steps

  ghost predicate Observes(c: Config, s: State, s': State, p: Uid, id: ProposalId) {
    && p in s.proposers
    && s' == s.(proposers := s.proposers[p := s.proposers[p].Observe(id)])
  }

  ghost predicate Opens(c: Config, s: State, s': State, p: Uid, targets: set<Uid>, sent: set<PrepareMessage>) {
    && p in s.proposers
    && s.proposers[p].ballot.number < MAX_NUMBER
    && targets <= c.nodes && (targets == {} || |targets| == c.quorumSize)
    && var next := s.proposers[p].Prepare(true).0;
    && (forall m <- sent :: m.id == next.ballot && m.to <= targets)
    && s' == s.(proposers := s.proposers[p := next],
                lastTried := s.lastTried[p := next.ballot],
                targets := s.targets[p := targets],
                prepares := s.prepares + sent)
  }

  function AcceptsIn(p: Uid, to: set<Uid>, effects: seq<Effect>): set<AcceptMessage> {
    set e | e in effects && e.SendAccept? :: AcceptMessage(p, to, e.id, e.value)
  }

  ghost predicate Counts(c: Config, s: State, s': State, p: Uid, m: PromiseMessage, to: set<Uid>) {
    && p in s.proposers && p in s.targets && to <= s.targets[p]
    && m in s.promises
    && var (next, effects) := s.proposers[p].ReceivePromise(m.from, m.id, m.prevId, m.prevValue);
    && s' == s.(proposers := s.proposers[p := next], accepts := s.accepts + AcceptsIn(p, to, effects))
  }

  /** An accept request may leave only for the ballot the proposer prepared last. */
  ghost predicate OnOpenBallot(s: State, p: Uid, effects: seq<Effect>) {
    && p in s.proposers && p in s.lastTried
    && (effects != [] ==> s.proposers[p].ballot == s.lastTried[p])
  }

  ghost predicate Proposes(c: Config, s: State, s': State, p: Uid, v: Value, to: set<Uid>) {
    && p in s.proposers && p in s.targets && to <= s.targets[p]
    && v != ""
    && var (next, effects) := s.proposers[p].SetProposal(v);
    && OnOpenBallot(s, p, effects)
    && s' == s.(proposers := s.proposers[p := next],
                accepts := s.accepts + AcceptsIn(p, to, effects),
                inputs := s.inputs + {v})
  }

  ghost predicate Resends(c: Config, s: State, s': State, p: Uid, to: set<Uid>) {
    && p in s.proposers && p in s.targets && to <= s.targets[p]
    && var effects := s.proposers[p].ResendAccept();
    && OnOpenBallot(s, p, effects)
    && s' == s.(accepts := s.accepts + AcceptsIn(p, to, effects))
  }

  /** The leader flag may be cleared and the active flag set either way from outside. */
  ghost predicate SetsFlags(c: Config, s: State, s': State, p: Uid, leader: bool, active: bool) {
    && p in s.proposers
    && (leader ==> s.proposers[p].leader)
    && s' == s.(proposers := s.proposers[p := s.proposers[p].(leader := leader, active := active)])
  }

  /** Some request carrying ballot b was addressed to acceptor a. */
  ghost predicate Reached(s: State, a: Uid, b: ProposalId) {
    || (exists m <- s.prepares :: m.id == b && a in m.to)
    || (exists m <- s.accepts :: m.id == b && a in m.to)
  }

  /** The acceptors some request carrying ballot b was addressed to. */
  function Asked(prepares: set<PrepareMessage>, accepts: set<AcceptMessage>, b: ProposalId): set<Uid> {
    (set m, a | m in prepares && m.id == b && a in m.to :: a) + (set m, a | m in accepts && m.id == b && a in m.to :: a)
  }

  ghost predicate Requested(s: State, a: Uid, id: ProposalId, value: Value) {
    exists m <- s.accepts :: m.id == id && m.value == value && a in m.to
  }

  function NewVotes(a: Uid, t: Triple, t': Triple): set<Vote> {
    if t'.accepted == t.accepted && t'.value == t.value then {} else {Vote(a, t'.accepted, t'.value)}
  }

  /** t' may replace t at acceptor a: the promise only rises, to a ballot a was asked about, and
      a new vote is for a request sent to a, at a ballot not below the old promise. */
  ghost predicate MayBecome(s: State, a: Uid, t: Triple, t': Triple) {
    && t.promised.Le(t'.promised)
    && (t'.promised == t.promised || (Known(s, t'.promised) && Reached(s, a, t'.promised)))
    && ((t'.accepted == t.accepted && t'.value == t.value)
        || (Requested(s, a, t'.accepted, t'.value)
            && t.promised.Le(t'.accepted) && t'.accepted.Le(t'.promised)))
  }

  ghost predicate Commits(c: Config, s: State, s': State, a: Uid, t': Triple) {
    && a in s.stable
    && MayBecome(s, a, s.stable[a], t')
    && s' == s.(stable := s.stable[a := t'], votes := s.votes + NewVotes(a, s.stable[a], t'))
  }

  ghost predicate Promises(c: Config, s: State, s': State, m: PromiseMessage) {
    && m.from in s.stable
    && var t := s.stable[m.from];
    && m.id == t.promised && m.id != NO_ID && m.prevId == t.accepted && m.prevValue == t.value
    && s' == s.(promises := s.promises + {m})
  }

  ghost predicate Permits(c: Config, s: State, s': State, m: PermitMessage) {
    && Vote(m.from, m.id, m.value) in s.votes
    && s' == s.(permits := s.permits + {m})
  }

  // ----- invariant

  /** b was prepared by its owner at some time. */
  ghost predicate Known(s: State, b: ProposalId) {
    b.uid in s.lastTried && 1 <= b.number <= s.lastTried[b.uid].number
  }

  ghost predicate WellFormed(c: Config, s: State) {
    && s.proposers.Keys == s.lastTried.Keys == s.targets.Keys == s.stable.Keys == c.nodes
    && forall p <- c.nodes ::
         && s.proposers[p].uid == s.proposers[p].ballot.uid == s.lastTried[p].uid == p
         && s.proposers[p].quorumSize == c.quorumSize
         && s.lastTried[p].number <= s.proposers[p].ballot.number
         && s.targets[p] <= c.nodes
         && (s.targets[p] == {} || |s.targets[p]| == c.quorumSize)
  }

  /** a promised b or more, and never voted strictly between k and b. */
  ghost predicate Closed(s: State, a: Uid, k: ProposalId, b: ProposalId) {
    && a in s.stable
    && b.Le(s.stable[a].promised)
    && forall v <- s.votes :: v.from == a && v.id.Lt(b) ==> v.id.Le(k)
  }

  ghost predicate Promised(s: State, a: Uid, b: ProposalId) {
    exists m <- s.promises :: m.from == a && m.id == b
  }

  /** Every member of T promised b and is closed between L and b, and v was requested at L (or L
      is no ballot at all, and T never voted below b). */
  ghost predicate JustifiedBy(c: Config, s: State, b: ProposalId, v: Value, T: set<Uid>, L: ProposalId) {
    && T <= c.nodes && |T| >= c.quorumSize
    && (forall a <- T :: Promised(s, a, b) && Closed(s, a, L, b))
    && (L == NO_ID || (L.Lt(b) && exists m <- s.accepts :: m.id == L && m.value == v))
  }

  ghost predicate Justified(c: Config, s: State, b: ProposalId, v: Value) {
    exists T, L :: JustifiedBy(c, s, b, v, T, L)
  }

  ghost predicate PrepareOk(s: State, m: PrepareMessage) {
    && Known(s, m.id) && m.id.uid in s.targets
    && (s.lastTried[m.id.uid] == m.id ==> m.to <= s.targets[m.id.uid])
  }

  ghost predicate PromiseOk(s: State, m: PromiseMessage) {
    && Known(s, m.id) && Reached(s, m.from, m.id)
    && Closed(s, m.from, m.prevId, m.id)
    && m.prevId.Le(m.id)
    && ((m.prevId == NO_ID && m.prevValue == "") || Vote(m.from, m.prevId, m.prevValue) in s.votes)
  }

  /** While m's ballot is the last its owner prepared, the owner has all its promises and still
      holds the value. */
  ghost predicate AcceptMatchesOwner(c: Config, s: State, m: AcceptMessage) {
    var p := m.id.uid;
    && p in s.lastTried && p in s.targets && p in s.proposers
    && (s.lastTried[p] == m.id ==>
          && m.to <= s.targets[p]
          && |s.proposers[p].promises| >= c.quorumSize
          && s.proposers[p].value == m.value)
  }

  ghost predicate AcceptOk(c: Config, s: State, m: AcceptMessage) {
    && Known(s, m.id)
    && m.value != "" && m.value in s.inputs
    && Justified(c, s, m.id, m.value)
  }

  ghost predicate VoteOk(s: State, v: Vote) {
    v.from in s.stable && Requested(s, v.from, v.id, v.value) && v.id.Le(s.stable[v.from].accepted)
  }

  ghost predicate PermitOk(s: State, m: PermitMessage) {
    Vote(m.from, m.id, m.value) in s.votes
  }

  ghost predicate AcceptorOk(s: State, a: Uid) {
    && a in s.stable
    && var t := s.stable[a];
    && t.accepted.Le(t.promised)
    && (t.promised == NO_ID || (Known(s, t.promised) && Reached(s, a, t.promised)))
    && ((t.accepted == NO_ID && t.value == "") || Vote(a, t.accepted, t.value) in s.votes)
  }

  /** a's promise for ballot b is counted and its report is not above L. */
  ghost predicate Counted(s: State, a: Uid, b: ProposalId, L: ProposalId) {
    exists m <- s.promises :: m.from == a && m.id == b && m.prevId.Le(L)
  }

  ghost predicate ProposerOk(c: Config, s: State, p: Uid) {
    && p in s.proposers && p in s.lastTried && p in s.targets
    && var r := s.proposers[p];
    && (r.value != "" ==> r.value in s.inputs)
    && (r.lastAccepted == NO_ID
        || (r.lastAccepted.Lt(s.lastTried[p])
            && exists m <- s.accepts :: m.id == r.lastAccepted && m.value == r.value))
    && r.promises <= s.targets[p]
    && (forall a <- r.promises :: Counted(s, a, s.lastTried[p], r.lastAccepted))
    && (r.leader ==> |r.promises| >= c.quorumSize)
  }

  ghost predicate OneValue(s: State) {
    forall m <- s.accepts, m' <- s.accepts :: m.id == m'.id ==> m.value == m'.value
  }

  /** No ballot was ever addressed to more than a quorum, however often requests for it were sent. */
  ghost predicate FewAsked(c: Config, s: State, b: ProposalId) {
    |Asked(s.prepares, s.accepts, b)| <= c.quorumSize
  }

  ghost predicate Inv(c: Config, s: State) {
    && WellFormed(c, s)
    && (forall m <- s.prepares :: PrepareOk(s, m))
    && (forall m <- s.promises :: PromiseOk(s, m))
    && (forall m <- s.accepts :: AcceptOk(c, s, m))
    && (forall m <- s.accepts :: AcceptMatchesOwner(c, s, m))
    && (forall m <- s.permits :: PermitOk(s, m))
    && (forall v <- s.votes :: VoteOk(s, v))
    && (forall a <- c.nodes :: AcceptorOk(s, a))
    && (forall p <- c.nodes :: ProposerOk(c, s, p))
    && OneValue(s)
    && (forall b: ProposalId :: FewAsked(c, s, b))
  }
}
