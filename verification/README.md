# Paxos: model and proofs

This project models the single-decree Paxos core of the repository: the proposer, acceptor and
learner of a node, the leadership state machine over them, the choice of acceptors by the server,
and the ballot order underneath. It proves what the protocol is for: learners agree, over every run
of any number of nodes, on a network that loses, repeats, delays and reorders messages, with and
without crashes of acceptors and learners.

## Layout

| file | content |
|---|---|
| `ProposalIds` | ballots: `compare`, the six operators, the 32-bit number |
| `Messages` | the messenger's calls and the message shapes |
| `Proposers`, `Acceptors`, `Learners`, `Nodes`, `Servers` | one class per source class, each method proved against a step function on the class's state value, and the local theorems about those functions |
| `Quorums` | two quorums meet |
| `Consensus` | the core all nodes share: proposers, what each acceptor stands by, all phase 1 and 2 messages; small steps and the invariant |
| `ConsensusSteps` | each small step keeps the invariant and only adds to the history |
| `Agreement` | safe proposals, at most one chosen value, the write-once register |
| `Systems` | the whole cluster: the events of a node, runs, the view of a cluster as a core |
| `SystemSteps` | each event of the cluster is a few small steps of the core |
| `SystemInvariant` | each event keeps the invariant of the whole cluster |
| `Theorems`, `Ballots`, `CrashSafety`, `Leadership`, `Selections` | the main results over runs |
| `Rounds` | what a proposer makes of the promises for its ballot, told from the promises |
| `Replies` | what acceptors answer, to whom and when, and that refusals are true |
| `Counting` | when the learner as written completes, told from the reports |
| `Progress` | over runs, whoever leads has asked for its value |
| `Heartbeats` | what hearing heartbeats does to a node's leader, whatever they are and in whatever order |
| `Witness` | runs of three nodes: one in which a learner learns, one in which learners disagree |
| `Preconditions` | what callers of a proposer must respect, and what goes wrong otherwise |

Three layers are tied together. A class method equals a step function on the state value (the
method's `ensures`). An event of the cluster runs that step function, lets the server post what it
sends, and is proved to be a sequence of small steps of the core (`SystemSteps.EventIsCoreStep`).
The core's invariant gives safe proposals, and from them agreement.

The argument is that of sections 2.2 and 2.3 of Lamport's "Paxos Made Simple", with what this code
adds to it: replies wait for `persisted()`; a ballot is raised without clearing the collected
promises; the highest accepted ID seen by a proposer survives from one ballot to the next; the
leader flag does not stop a proposer from counting more promises; the learner counts, and drops
entries.

## Two modes

`Setup.durable` selects the fault model. Without it nobody crashes and acceptors are switched on
and off freely. With it acceptors are always active, save their triple to disk at any moment, and
acceptor and learner of a node may crash at any moment: the acceptor comes back through `recover`
with the saved triple, the learner comes back empty. All results hold in both modes except where a
row says otherwise.

In the durable mode two delivery rules are explicit. `persisted()` is called only when the saved
triple is the one in memory: exactly then the replies it flushes are covered by the disk
(`CrashSafety.FlushedPromiseIsOnDiskIff`; for a permit alone the saved vote is enough,
`FlushedPermitIsOnDiskIff`). A request that the acceptor would answer at once, by the branches at
`paxos/acceptor.cpp:21-28` and `:66-73`, waits while the disk does not hold the answer
(`CrashSafety.NothingPendingMeansSaved` shows that holding such requests back while
`persistenceRequired()` is true is enough for this; `CrashSafety.UnsavedAnswerBreaksPromise` shows
that without a rule a promise can be broken).

## What the runs assume

- Two quorums meet: twice the quorum size exceeds the number of nodes. The set of nodes is fixed
  and the empty string is not a node's UID; peer tables may change at any time to any table of
  other nodes.
- Ballots are opened with `prepare(true)`, as all internal callers do, and only while the number is
  below 2^32 - 1 (`ProposalIds.IncrementExceedsIff`: an increment gives a larger ID exactly then).
- `setProposal` is called with a non-empty value. A call of `setProposal` or `resendAccept` that
  sends something is made only while the ballot is the last one prepared
  (`Preconditions.LeaderBallotIsBackedIff`: exactly then the ballot has promises behind it).
- The leader flag starts false and there is no preconfigured leader; the constructors leave the
  flags unset. The active flag starts with any value.
- Proposer state is never saved, so proposers do not restart.
- Nothing in `server.cpp:181-192` hands a Paxos message to the node yet. Each kind of message goes
  to the handler of the same name. A broadcast is delivered to its recipients; a reply may reach
  any node, which includes the one it is addressed to.

## What the code does differently from its own description

- **Learner, first report.** A new entry starts with counts of zero (`paxos/learner.cpp:66-69`), so
  the first approval of a proposal is not counted. A learner that hears of one ballot only completes
  exactly when more than a quorum of acceptors report it, the one the comments describe exactly when
  a quorum does (`Learners.OneBallotCompletesIff`). The server never addresses a ballot to more than
  a quorum (`Theorems.BallotReachesOneQuorum`), so no ballot is ever learned by a learner that heard
  of it alone, even when every acceptor that was asked voted (`Theorems.OneBallotIsNeverLearned`).
  Learning takes acceptors that move on to a further ballot: how many is in
  `Learners.MoversCompleteIff`, the exact condition for all sequences of reports is in
  `Counting.WrittenCompletesIff`, and `Witness.EveryValueCanBeLearned` is a run in which it happens.
- **Learner, old proposal.** Line 51 overwrites the acceptor's entry before lines 54-62 look up its
  old proposal, so they work on the new one, and default-construct it when it is absent; that
  constructor leaves both counts unset (`paxos/learner.h:14`). In the model each report comes with
  the counts, `blank`, that an entry constructed for it holds; they may differ from report to report.
  Such an entry is harmless when its accept count is not positive, or its retention count is 1, or
  the quorum size is at most 1. The learner is sound exactly when all entries that may be met are
  harmless (`Learners.SoundIffHarmless`), and in a cluster of three exactly then learners agree over
  all runs (`Witness.AgreementIffHarmless`; `Witness.LearnersMayDisagree` is the run). Where a result
  needs it, it requires `HarmlessLog` of the reports a learner was given; zero counts satisfy it. The
  learner described by the comments at `paxos/learner.h:18-21` is modelled beside it
  (`ReceiveAcceptedIntended`) and needs no such condition (`Theorems.IntendedLearnersAgree`).
- **Bumped leader.** `observeProposal` raises the ballot and keeps promises and leader flag. Such a
  leader sends accept requests under a ballot nobody promised
  (`Preconditions.BumpedLeaderAsksUnprepared`, with the exact condition in `LeaderBallotIsBackedIff`).
- **Empty value.** `setProposal("")` by a leader sends the empty value and leaves the proposer
  without one, so a second call may send another value under the same ballot
  (`Preconditions.TwoValuesOnOneBallotIff`).
- **Accept refusals.** The promised ID is observed before the refused ballot is compared with the
  present one, so a refusal of the present ballot is recorded exactly when the promised number is
  not above the ballot's (`Leadership.RefusalIsRecordedIff`).
- **Rotation of acceptors.** Nothing assigns `m_maxChoosenAcceptorUID`, so over whole runs every scan
  starts at the first peer (`Selections.ScanNeverMoves`) and a prepare request always goes to the
  quorumSize smallest peers of the table (`Selections.PreparesGoToSmallestPeers`). The scan itself is
  proved for every value of the field.
- **Inactive acceptors.** A request that changes an acceptor's triple leaves something pending
  exactly when the acceptor is active (and the sender named) or another reply was pending
  (`CrashSafety.ChangeIsPendingIff`). So an acceptor that promises while inactive answers from
  memory once it is active again (`CrashSafety.InactivePromiseIsNeverPending`).
- **Heartbeats.** `receiveHeartbeat` takes any ID while it knows no valid one, and keeps the first UID
  announced with an ID. So for arbitrary heartbeats the highest ID wins exactly when it names
  somebody or comes last (`Heartbeats.HighestBeatWinsIff`), and the UID does not depend on their order
  exactly when the highest ID was known already or has one announcer
  (`Heartbeats.AnyOrderSameLeaderIff`). In a run every heartbeat names the owner of its ballot
  (`Leadership.OwnersLeadAlways`), so neither condition can fail (`Leadership.RunLeadersConverge`).

## Model

| member | source | states |
|---|---|---|
| Theorems.LearnersAgree | paxos/learner.cpp:29-85 | Agreement: any two complete learners, at any two moments of a run, hold the same value; crashes included. No default-constructed entry that the two learners met may have been harmful |
| Theorems.IntendedLearnersAgree | paxos/learner.h:18-21 | Agreement of the learners the header describes, fed with whatever permits the nodes were given, with no condition on counts |
| Theorems.ClusterIsRegister | paxos/proposer.cpp:82-121 | Every run of the cluster is a run of a write-once register: unwritten at first, never changed once written, and complete learners hold its value |
| Theorems.HigherRequestsCarryChosen | paxos/proposer.cpp:95-118 | If a quorum votes for w at ballot c, at any time of the run, every accept request above c carries w, whenever it was sent, though the highest accepted ID is kept from round to round |
| Theorems.SameBallotSameValue | paxos/proposer.cpp:60-72 | Two accept requests with one proposal ID carry one value, over a whole run |
| Theorems.RequestHasQuorum | paxos/proposer.cpp:87-118 | Behind every accept request a quorum of distinct acceptors promised exactly its ballot, although observing an ID raises the ballot and keeps the promises |
| Theorems.PromisesStayTrue | paxos/acceptor.cpp:19-54 | For every promise (id, prevId, prevValue) sent: prevId is at most id, prevValue was the sender's vote at prevId (empty if prevId is none), the sender keeps promising at least id, and it never voted and never votes strictly between prevId and id; re-sent and late promises included |
| Theorems.OnlyClientValues | paxos/proposer.cpp:97-104 | Validity: every vote and every learned value was handed to some setProposal |
| Theorems.RefusedBallotIsDead | paxos/acceptor.cpp:89-95 | Without crashes: once a quorum of acceptors that have not voted for a ballot have refused it, no quorum ever votes for it |
| Theorems.NeverVotesAfterRefusal | paxos/acceptor.cpp:75-95 | Without crashes: an acceptor that refused a ballot it had not voted for never votes for it, before or after |
| Theorems.BallotReachesOneQuorum | server.cpp:448-519 | Over a run no ballot, present or superseded, is ever addressed to more than quorumSize acceptors, prepares and accept requests together, and only those vote for it |
| Theorems.OneBallotIsNeverLearned | paxos/learner.cpp:65-69 | Exact-quorum targeting and the uncounted first report: a learner that heard of one ballot only, whichever it is, is not complete, however many acceptors voted |
| Theorems.LearnedIsChosen | paxos/learner.cpp:72-83 | A complete learner holds a value that a quorum of distinct acceptors voted for at one ballot |
| Witness.EveryValueCanBeLearned | paxos/learner.cpp:29-85 | For every value a run, in either fault mode and with zero default-constructed counts, in which a learner as written ends up holding it |
| Witness.LearnersMayDisagree | paxos/learner.cpp:50-83 | For all harmful default-constructed counts and any two values a run of three nodes in which two learners as written hold the one and the other |
| Witness.AgreementIffHarmless | paxos/learner.cpp:50-83 | In a cluster of three, learners as written agree over all runs if and only if every default-constructed entry that may be met is harmless |
| Theorems.InvariantAlways | paxos/proposer.cpp:82-121 | The invariant of the whole cluster holds at every moment of every run |
| Theorems.HistoryGrows | paxos/acceptor.cpp:134-149 | Over a run no message, vote or input is lost from the history and no acceptor's stable promise falls |
| Agreement.SafeProposals | paxos/proposer.cpp:95-118 | In every invariant state: above a chosen ballot all requests carry the chosen value; induction over the requests below |
| Agreement.AtMostOneChosen | paxos/acceptor.cpp:75-87 | At most one value is ever voted for by a quorum, at whatever ballots |
| Agreement.RegisterHoldsChosen | paxos/learner.cpp:72-83 | The register holds v if and only if v is chosen |
| Agreement.GrowthIsRegisterStep | paxos/acceptor.cpp:75-87 | Growing history is a step of the write-once register |
| SystemSteps.EventIsCoreStep | paxos/paxos_node.cpp:76-229 | Every event of a node, with everything its server posts, is a sequence of core steps: the core invariant is kept and history only grows |
| SystemInvariant.StepKeepsInv | paxos/paxos_node.cpp:76-229 | Every event of a node keeps the invariant of the whole cluster: roles, servers, disk against memory, learners against votes, recorded refusals |
| SystemInvariant.RefusalMeans | paxos/acceptor.cpp:89-95 | An accept refusal names the request's ballot, is sent only when more was promised, reports that promise and changes nothing |
| SystemInvariant.RecordedRefusal | paxos/paxos_node.cpp:213-218 | A refusal enters the NACK set only if it refuses the ballot prepared last, and adds only its sender |
| ConsensusSteps.OwnPromiseIsForLastTried | paxos/proposer.cpp:82-91 | A promise that a proposer may count is for the ballot it prepared last, never for one it was only bumped to |
| ConsensusSteps.UncountedMeansNoAccept | server.cpp:425-466 | While one promise of the last ballot is uncounted, no accept request for that ballot exists: exactly a quorum was asked |
| ConsensusSteps.CountedQuorumJustifies | paxos/proposer.cpp:87-118 | A counted quorum shows that the held value is safe: none of it voted above the highest reported ID, and the value was requested there |
| ConsensusSteps.CountKeepsInv | paxos/proposer.cpp:82-121 | Counting a promise, with the accept request it may trigger, keeps the core invariant |
| ConsensusSteps.OpenKeepsInv | paxos/proposer.cpp:31-52 | Opening a ballot, with new targets, keeps the core invariant |
| ConsensusSteps.ObserveKeepsInv | paxos/proposer.cpp:214-220 | Raising the ballot without clearing anything keeps the core invariant |
| ConsensusSteps.ProposeKeepsInv | paxos/proposer.cpp:60-72 | A client value, with the accept request it may trigger, keeps the core invariant |
| ConsensusSteps.ResendKeepsInv | paxos/proposer.cpp:227-233 | Sending the accept request again keeps the core invariant |
| ConsensusSteps.FlagsKeepInv | paxos/proposer.cpp:244-257 | Clearing the leader flag and setting the active flag keep the core invariant |
| ConsensusSteps.CommitKeepsInv | paxos/acceptor.cpp:75-87 | A promise or vote becoming stable keeps the core invariant, also when several happened in memory before one save |
| ConsensusSteps.PromiseKeepsInv | paxos/acceptor.cpp:21-28 | Sending a promise that matches the stable triple keeps the core invariant |
| ConsensusSteps.PermitKeepsInv | paxos/acceptor.cpp:134-149 | Sending a permit for a stable vote keeps the core invariant |
| Rounds.LeadsAndAsksIff | paxos/proposer.cpp:82-121 | A proposer that has just opened a ballot hears any promises for it and for older ballots, in any order and with repetitions: it leads if and only if quorumSize distinct senders promised, and has then sent accept(ballot, w) if and only if it is active and w is not empty, where w, told from the promises, is the value of the highest vote reported above the one it held, or else its own; sending again sends the same |
| Rounds.ValueFirstOrLast | paxos/proposer.cpp:60-72 | When no higher vote is reported, a client value may come before or after the promises: same state, and the value is asked for exactly when a quorum promised |
| Rounds.OpeningIsJustOpened | paxos/proposer.cpp:31-52 | Opening a ballot from any state gives an active proposer without promises or lead, with its value and highest vote kept, and asks for the next ballot |
| Rounds.PrepareAgain | paxos/proposer.cpp:31-52 | Asking again without an increment changes nothing, and needs an active proposer |
| Progress.LeaderHasAsked | paxos/proposer.cpp:60-121 | Over runs in which a node stays active: whenever it leads and holds a value, an accept request with this value for the ballot it prepared last is on the network, whichever of value and promises came first |
| Replies.PrepareAnswers | paxos/acceptor.cpp:19-54 | For every acceptor and prepare request: refused, naming the ballot promised, if and only if active and more was promised; promised at once if and only if active and just this was promised; the promise raised and its reply held back if and only if nothing as high was promised and none is held back; no other reply |
| Replies.AcceptAnswers | paxos/acceptor.cpp:63-96 | For every acceptor and accept request: refused, naming the ballot promised, if and only if active, more promised and not the vote cast last; permitted at once if and only if active and the vote cast last; the vote cast and its reply held back if and only if nothing higher was promised and none is held back; no other reply |
| Replies.FlushIsImmediateAnswer | paxos/acceptor.cpp:134-149 | persisted() sends exactly what the acceptor would answer at once to the requests it held back, promise before vote; both are let go, and a second call sends nothing |
| Replies.InactiveFlushIsSilent | paxos/acceptor.cpp:134-149 | An inactive acceptor lets go of what it held back without a word |
| Replies.RecoverRoundTrip | paxos/acceptor.cpp:127-132 | Recovering another triple and then the old one gives back the acceptor: recover touches nothing but the triple |
| Replies.InactiveNodeIsSilent | paxos/paxos_node.cpp:49-54 | A node switched off says nothing of either phase, whatever reaches it, until it opens a ballot; switching on undoes switching off |
| Replies.StaleAcceptIsRefused | paxos/acceptor.cpp:89-95 | A stale accept request that reaches an active acceptor puts a refusal on the network that names the ballot promised, if the sender is a peer |
| Replies.StalePrepareIsRefused | paxos/acceptor.cpp:44-53 | The same for a stale prepare request |
| Replies.PrepareRefusalsAreTrue | paxos/acceptor.cpp:44-53 | Over runs: every prepare refusal names a prepared ballot above the refused one, which its sender had promised at an earlier moment |
| Replies.PrepareRefusalsStand | paxos/acceptor.cpp:44-53 | Without crashes the refuser's promise is still at least the one it named |
| Replies.RetryExceedsPromise | paxos/paxos_node.cpp:203-211 | Over runs: a ballot opened on a prepare refusal exceeds what the refuser had promised when it refused |
| Replies.PrepareNackRetriesIff | paxos/paxos_node.cpp:203-211 | A prepare refusal makes a node ask for a ballot above its own and the one named if and only if it is after the lead; otherwise only its ballot rises |
| Ballots.PreparedBallotsNeverRepeat | paxos/proposer.cpp:31-52 | A new prepare request carries its sender's UID, exceeds the ballot held, and is for a ballot nobody prepared before and above all its sender prepared |
| Ballots.NewBallotExceedsObserved | paxos/proposer.cpp:214-220 | A new ballot exceeds every ID its owner ever observed, at any earlier moment of the run: promised IDs, IDs of refusals and heartbeats, and the refused ballot on step-down |
| Ballots.BallotsNeverFall | paxos/proposalid.cpp:41-44 | The number of a proposer's ballot never falls over a run |
| Ballots.NewPrepareIsNextBallot | paxos/paxos_node.cpp:95-121 | A prepare request leaves only from the four places that open ballots, for the number after the one held once the event's own ID was observed |
| Ballots.RetryExceedsRefusal | paxos/paxos_node.cpp:203-211 | A ballot opened on a prepare refusal exceeds the promise that caused it |
| CrashSafety.SentIsOnDisk | paxos/acceptor.cpp:120-149 | With crashes: every promise and permit ever sent is covered by its sender's saved triple, at every moment |
| CrashSafety.CrashForgetsNothingSent | paxos/acceptor.cpp:127-132 | Right after a crash and recover the acceptor still stands for all it sent |
| CrashSafety.NothingPendingMeansSaved | paxos/acceptor.cpp:120-124 | With nothing pending the disk is up to date, and every request is deliverable |
| CrashSafety.ImmediatePromiseIsOnDiskIff | paxos/acceptor.cpp:21-28 | In every state of a durable run: the promise that answers a prepare at once is covered by the disk if and only if the delivery rule lets the prepare through |
| CrashSafety.ImmediatePermitIsOnDiskIff | paxos/acceptor.cpp:66-73 | In every state of a durable run: the permit that answers an accept request at once is covered by the disk if and only if the delivery rule lets the request through |
| CrashSafety.MemoryAgainstDisk | paxos/acceptor.cpp:134-149 | In every state of a durable run memory promises at least what the disk does, its vote is at least as late, and at the same ballot it is the same vote |
| CrashSafety.FlushedPromiseIsOnDiskIff | paxos/acceptor.cpp:134-149 | In every state of a durable run with a promise held back: the promise that persisted() sends is covered by the disk if and only if the disk is up to date |
| CrashSafety.FlushedPermitIsOnDiskIff | paxos/acceptor.cpp:134-149 | In every state of a durable run with a permit held back: the permit that persisted() sends is covered by the disk if and only if the vote is saved |
| CrashSafety.UnsavedAnswerBreaksPromise | paxos/acceptor.cpp:21-28 | Without the rule, from any state of an active acceptor with no promise pending: asked twice it answers a new ballot from memory, and after a crash it casts a vote strictly between the vote it reported and the ballot it promised |
| CrashSafety.ChangeIsPendingIff | paxos/acceptor.cpp:29-42 | A prepare or accept request that changes the triple leaves something pending if and only if the acceptor is active and the sender named, or the other reply was pending |
| CrashSafety.InactivePromiseIsNeverPending | paxos/acceptor.cpp:29-42 | Any inactive acceptor with nothing pending that takes on a promise has nothing pending, and once active answers the same prepare from memory |
| Leadership.RunLeadersConverge | paxos/paxos_node.cpp:123-151 | Over runs, with no condition on the heartbeats: two nodes that know the same leader ballot, at any moments, and hear the same of the heartbeats sent, in any order and with any repetitions, agree on the leader's ballot and on its UID, the owner of the highest ballot announced |
| Leadership.OwnersLeadAlways | paxos/paxos_node.cpp:156-201 | Over runs: every heartbeat is sent by the owner of the ballot it announces, and a node's leader is the owner of the leader ballot it knows, or there is none |
| Leadership.LeaderNeverFalls | paxos/paxos_node.cpp:123-151 | Over the events of a run: while a node does not give up the lead on refusals, the leader ballot it knows never falls and is at least every heartbeat ID delivered to it |
| Heartbeats.LeadersConverge | paxos/paxos_node.cpp:123-151 | The handler alone: nodes that know the same leader ballot and hear the same announcements, in any order and with any repetitions, agree on ballot and UID, if the highest ballot is valid and has one announcer or is the one known |
| Heartbeats.AnyOrderSameLeaderIff | paxos/paxos_node.cpp:123-151 | The handler alone, highest ballot valid: all orders of the same announcements give one leader UID if and only if the node knew the highest ballot already or all who announce it are one |
| Heartbeats.HighestBeatWinsIff | paxos/paxos_node.cpp:123-151 | The handler alone, any heartbeats: the leader ballot ends at the highest of the known and the announced ones if and only if the highest names somebody or came last |
| Leadership.HeartbeatRefreshesIff | paxos/paxos_node.cpp:146-150 | For every heartbeat: the clock is at now afterwards if and only if it was, or the ID is valid and the leader's afterwards; the ID is the leader's afterwards exactly when none valid was known or it is not below the one known |
| Leadership.ElapsedIs | paxos/paxos_node.cpp:85-88 | The unsigned clock difference, for timestamps before and after now |
| Leadership.PollOpensIff | paxos/paxos_node.cpp:95-121 | A poll opens a ballot if and only if the last heartbeat of the leader and the last prepare request are both longer ago than their windows; it sends one prepare, for the next number, forgets refusals and promises, and otherwise changes nothing |
| Leadership.AcquireOpensIff | paxos/paxos_node.cpp:165-176 | Asking for the lead opens a ballot, and leaves the node after the lead, if and only if the leader's last heartbeat is longer ago than its window |
| Leadership.CurrentHeartbeatSilencesPolls | paxos/paxos_node.cpp:123-151 | After a current heartbeat all polls within the heartbeat window send nothing |
| Leadership.PrepareSilencesPolls | paxos/acceptor.cpp:19-54 | After a prepare request of anybody, answered or not, all polls within the prepare window send nothing |
| Leadership.HeartbeatKeepsLeadIff | paxos/paxos_node.cpp:123-151 | After any heartbeat the proposer leads if and only if it led and the heartbeat is its own or not above a valid leader's ballot known; a lost lead is announced exactly when lost, and the leader known, its UID and the search for the lead change exactly when the ID is adopted |
| Leadership.BeatenLeaderStops | paxos/paxos_node.cpp:137-144 | Over the events of a run: a leader that is delivered another's heartbeat above the leader ballot it knows does not lead, nor send heartbeats, until another promise reaches it |
| Leadership.NoLeadWithoutPromises | paxos/paxos_node.cpp:183-201 | Over the events of a run: who does not lead comes to lead only by a promise, and sends no heartbeat before |
| Leadership.PulseAnnouncesIff | paxos/paxos_node.cpp:156-163 | A pulse sends a heartbeat if and only if the proposer leads, for its own ballot, leaves its lead alone, and counts as heard unless a higher leader is known |
| Leadership.PulseIsSent | paxos/paxos_node.cpp:156-163 | Over runs a leader's pulse puts a heartbeat for its own ballot on the network |
| Leadership.PromiseTakesLeadIff | paxos/paxos_node.cpp:183-201 | A promise makes a node the leader it knows of, announced at once and with the clock set, if and only if it knew of none and its proposer leads; otherwise only the proposer changes |
| Leadership.WinnerIsAnnounced | paxos/paxos_node.cpp:183-201 | Over runs a node that knows of no leader and leads after a promise has put a heartbeat for its ballot on the network |
| Leadership.LeadershipIsAnnounced | paxos/messenger.h:6-40 | No event changes the leader known, or makes or ends a lead, without the announcement for it, save opening a ballot, which ends a lead in silence; a lost lead is announced only when lost |
| Leadership.StepsDownIff | paxos/paxos_node.cpp:213-229 | On any refusal: recorded exactly when it is for the ballot held after observing the promise named; a leader stops leading exactly when the recorded refusers are a quorum, then knows of no leader and says so; otherwise nothing about the lead changes |
| Leadership.QuorumOfRefusalsIff | paxos/paxos_node.cpp:213-229 | Over any sequence of refusals of the present ballot a leader stops leading exactly when a quorum of distinct acceptors has refused, and then knows of no leader |
| Leadership.StepsDownIffQuorum | paxos/paxos_node.cpp:213-228 | Over runs: a leader that hears a refusal stops leading if and only if it has then recorded refusals from a quorum, all of the one ballot it prepared last |
| Leadership.StepDownBuriesBallot | paxos/paxos_node.cpp:213-228 | Without crashes: when a leader steps down on refusals by acceptors that had not voted for the ballot it prepared last, no quorum ever votes for that ballot, before or after |
| Leadership.RefusalIsRecordedIff | paxos/paxos_node.cpp:213-218 | A refusal of the present ballot is recorded if and only if the promised number is not above the ballot's |
| Preconditions.LeaderHasPromises | paxos/proposer.cpp:106-118 | A leader holds a quorum of promises for the ballot it prepared last, whatever it was bumped to |
| Preconditions.LeaderBallotIsBackedIff | paxos/proposer.cpp:214-233 | A leader's present ballot has a quorum of promises if and only if it is the one prepared last |
| Preconditions.BumpedLeaderAsksUnprepared | paxos/proposer.cpp:60-72 | A leader that won ballot 1 and saw a refusal naming ballot 5 sends its value under ballot 5, which nobody was asked about |
| Preconditions.TwoValuesOnOneBallotIff | paxos/proposer.cpp:60-72 | A leader without a value asks for two values under one ballot if and only if it is given the empty value first |
| Learners.SoundIffHarmless | paxos/learner.cpp:44-84 | The learner as written resolves only on a quorum of distinct reporters, over all sequences of reports, if and only if all default-constructed entries it may meet, a different one each time, are harmless |
| Learners.RunIsBacked | paxos/learner.cpp:29-85 | With harmless counts, over any sequence of reports: each accept count is at most the number of distinct acceptors that reported the proposal, and resolution needs a quorum of them |
| Learners.BlankCountsMislead | paxos/learner.cpp:53-62 | For every harmful default-constructed entry a sequence of reports that resolves the learner without a quorum |
| Learners.ResultIsReported | paxos/learner.cpp:72-83 | The resolved ID and value were reported together, whatever the default-constructed counts |
| Learners.CompleteIsFinal | paxos/learner.cpp:32-35 | A complete learner, as written or intended, stays as it is over any further sequence of reports |
| Learners.FirstReportIsNotCounted | paxos/learner.cpp:65-69 | Two reports of one proposal with quorum size 2 resolve the intended learner and not the written one |
| Learners.OneBallotCompletesIff | paxos/learner.cpp:65-83 | Reports of one ballot resolve the learner as written if and only if more than a quorum of distinct acceptors sent them, and the intended one if and only if a quorum did |
| Learners.MoversCompleteIff | paxos/learner.cpp:50-83 | After any reports, acceptors heard before that move to a ballot new to the learner resolve it if and only if the accept count of the entry constructed for the first of them plus their number reaches a quorum (one more mover is needed if that entry's retention count is 1, which erases it) |
| Counting.WrittenCompletesIff | paxos/learner.cpp:29-85 | The learner as written, over any reports with values: it completes exactly when one ballot's counter, told from the reports, reaches the quorum; it then holds the ballot and value that did so first and has announced just that, and before it has announced nothing |
| Learners.BooksBalanceAlways | paxos/learner.h:18-21 | Intended learner, over any reports, before completion: each retention count is the number of acceptors standing at the proposal, and 0 < retention <= accept count < quorum |
| Learners.RetentionCountsAddUp | paxos/learner.h:18-21 | Intended learner: the retention counts sum to the number of acceptors heard from |
| Learners.RemembersLatestAlways | paxos/learner.h:43-44 | Intended learner: each acceptor is kept at the highest proposal it ever reported, whatever the order of arrival |
| Learners.IntendedIsPrompt | paxos/learner.h:18-21 | Intended learner: complete as soon as a quorum of acceptors has one proposal as its latest |
| Learners.IntendedIsBacked | paxos/learner.h:18-21 | Intended learner: sound over any sequence of reports |
| Servers.SelectionIsTheCyclicSuccessors | server.cpp:425-441 | The scan picks exactly quorumSize distinct peers, and each comes before every one left out on the circle that starts after the last one chosen |
| Servers.SelectionsMeet | server.cpp:425-441 | Two selections, by any servers from any tables over fewer than twice quorumSize nodes, share an acceptor |
| Servers.TooFewPeersKeepsChoice | server.cpp:425-441 | A selection with fewer peers than quorumSize keeps the previous choice; a selection changes nothing but the choice |
| Selections.ScanNeverMoves | server.cpp:425-441 | Over runs the last chosen acceptor is never recorded, so every scan starts at the first peer |
| Selections.PreparesGoToSmallestPeers | server.cpp:448-466 | Over runs every new prepare request goes to exactly the quorumSize smallest peers of its sender's table, if it has that many |
| Selections.SmallestAreUnique | server.cpp:425-441 | So requests from one table always ask the same acceptors |
| Servers.Server.SelectMajorityAcceptors | server.cpp:425-441 | The wrap-around loop terminates and leaves the set of the next quorumSize peers |
| Servers.Server.FindRecipients | server.cpp:512-518 | The loop over the chosen acceptors reaches exactly those in the peer table |
| Servers.Server.SendPrepare | server.cpp:448-466 | Chooses acceptors anew, then asks each of them that is in the table; asks nobody when none is chosen |
| Servers.Server.SendAccept | server.cpp:503-519 | Asks the acceptors already chosen, without choosing again |
| Servers.Server.constructor | server.cpp:5-16 | A server starts with no peers, no choice and no last acceptor |
| Proposers.Proposer.Prepare | paxos/proposer.cpp:31-52 | The new state and the messages are the step function's, whose consequences are the rows above |
| Proposers.Proposer.SetProposal | paxos/proposer.cpp:60-72 | Same, for a client value |
| Proposers.Proposer.ReceivePromise | paxos/proposer.cpp:82-121 | Same, for a promise: observe, count once, adopt the highest reported vote, lead on a quorum |
| Proposers.Proposer.ReceivePrepareNack | paxos/proposer.cpp:130-134 | Same, for a prepare refusal: only the ballot may rise |
| Proposers.Proposer.ReceiveAcceptNack | paxos/proposer.cpp:143-147 | Same, for an accept refusal |
| Proposers.Proposer.ObserveProposal | paxos/proposer.cpp:214-220 | Same, for an ID seen elsewhere: the number is taken over, the UID stays |
| Proposers.Proposer.ResendAccept | paxos/proposer.cpp:227-233 | Sends the accept request again if leader, active and holding a value; changes no state |
| Acceptors.Acceptor.ReceivePrepare | paxos/acceptor.cpp:19-54 | The new state and the messages are the step function's: answer again, promise and hold the reply, or refuse |
| Acceptors.Acceptor.ReceiveAcceptRequest | paxos/acceptor.cpp:63-96 | Same, for an accept request: permit again, vote and hold the reply, or refuse |
| Acceptors.Acceptor.Persisted | paxos/acceptor.cpp:134-149 | Same, for the flush: the held promise then the held permit, from the present triple; nothing held afterwards |
| Acceptors.Acceptor.Recover | paxos/acceptor.cpp:127-132 | The triple is replaced, held replies stay as they are |
| Acceptors.Acceptor.constructor | paxos/acceptor.cpp:4-9 | An acceptor starts with no promise, no vote and nothing held |
| Learners.Learner.ReceiveAccepted | paxos/learner.cpp:29-85 | The maps, the result and the announcement are the step function's, with the overwritten entry and the uncounted first report as written |
| Learners.Learner.constructor | paxos/learner.cpp:3-7 | A learner starts with nothing learned and nothing on its books |
| Nodes.PaxosNode.Prepare | paxos/paxos_node.cpp:76-83 | The new state of node and proposer and the messages are the step function's; recorded refusals go when a ballot is opened |
| Nodes.PaxosNode.AcquireLeadership | paxos/paxos_node.cpp:165-176 | Same, for the attempt to lead |
| Nodes.PaxosNode.PollLiveness | paxos/paxos_node.cpp:95-121 | Same, for the poll, on the unsigned clock difference |
| Nodes.PaxosNode.ReceiveHeartbeat | paxos/paxos_node.cpp:123-151 | Same, for a heartbeat: adopt, give up the lead, refresh |
| Nodes.PaxosNode.Pulse | paxos/paxos_node.cpp:156-163 | Same, for the leader's own heartbeat |
| Nodes.PaxosNode.ReceivePromise | paxos/paxos_node.cpp:183-201 | Same, for a promise, taking the lead when no leader was known |
| Nodes.PaxosNode.ReceivePrepareNack | paxos/paxos_node.cpp:203-211 | Same, for a prepare refusal, retrying while after the lead |
| Nodes.PaxosNode.ReceiveAcceptNack | paxos/paxos_node.cpp:213-229 | Same, for an accept refusal: observe, record, step down on a quorum |
| Nodes.PaxosNode.constructor | paxos/paxos_node.cpp:8-28 | A node starts with fresh roles and no recorded refusal; it starts with the lead exactly when it is configured as its own leader |
| ProposalIds.OrderIsStrictAndTotal | paxos/proposalid.cpp:53-95 | compare and the six operators form one strict total order, and equality is identity |
| ProposalIds.LtTransitive | paxos/proposalid.cpp:53-67 | The order is transitive |
| ProposalIds.OrderIsLexicographic | paxos/proposalid.cpp:53-67 | Number first, then UID |
| ProposalIds.UidLessIsFirstDifference | paxos/proposalid.cpp:53-67 | UIDs of any length compare by the first difference, a proper prefix first |
| ProposalIds.NoIdIsBottom | paxos/proposalid.cpp:22-29 | The default ID is below every other ID |
| ProposalIds.IncrementExceedsIff | paxos/proposalid.cpp:41-44 | An increment exceeds the ID if and only if the 32-bit number does not wrap; otherwise the number is 0 |
| ProposalIds.NumberRoundTrip | paxos/proposalid.cpp:31-39 | Taking over a number through the signed accessors loses nothing |

## Left out

- Liveness: whether the cluster ever decides depends on timing, and no back-off is there to reason about.
- Sockets, epoll, connecting, framing, ping and peer gossip in `server.cpp`, marshalling in `paxos/proto.h` and `paxos/peer.h`, `eztimer.h`, `main.cpp`, logging and status dumps: plumbing. The libraries under `deps` that pack messages are not part of this model. The clock is an argument of the handlers that read it.
- Wiring: `PaxosNode` has no `receiveAcceptRequest`, `receivePermit` or `persisted` and the server drops Paxos messages; the events of `Systems` deliver them to the roles directly.
- The timer set up at `server.cpp:15` binds a copy of the node; the polls and pulses of the model act on the node itself.
- Proposer restart, `prepare(false)` and `setLeaderProposalID` in runs, a preconfigured leader, and sending as a leader after a bump: excluded from runs, because nothing safe can be claimed of them. `Proposer.Prepare` and `PaxosNode.Prepare` are modelled for both arguments.
- Order of recipients: a broadcast is one message with the set of its recipients, of which the network may deliver to each or not.
- Reply senders and the heartbeat of the server (`server.cpp:476-495`, `:528-642`), which have no loop and change no field, are cases of the function `ServerState.Post` and not class methods.
- Integer widths other than the ballot number: quorum size and learner counts are unbounded; the clock difference wraps at 64 bits.
- ProposalID is a value here: its setters return a new ID, so aliasing of IDs is not captured. UIDs and values are strings compared character by character.
- The active flag of the learner, which nothing reads.
- Theorems.LearnersAgree: requires that no default-constructed entry the two learners met was harmful, because otherwise the learner as written is unsound and learners may disagree. That harmful entries lead to disagreement is shown for clusters of three.
- Theorems.RefusedBallotIsDead: for runs without crashes, because a refusal does not wait for the promise behind it to be saved.
- `getFinalValue`, `isLeader`, `getQuorumSize` and the other accessors: easy.
