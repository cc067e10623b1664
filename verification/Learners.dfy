/** The learner as the code has it, and the counting learner its header comments describe. */
module Learners {
  import opened ProposalIds
  import opened Messages
  import opened Quorums

  /** Per proposal: how many approved it at any time, and how many still stand at it. */
  datatype Tally = Tally(acceptCount: int, retentionCount: int, value: Value)

  /** An approval as it reaches a learner. `blank` stands for what an entry holds that the learner
      default-constructs while it handles the report; the source leaves its counts unset. */
  datatype Report = Report(from: Uid, id: ProposalId, value: Value, blank: Tally)

  datatype LearnerState = LearnerState(
    proposals: map<ProposalId, Tally>,
    acceptors: map<Uid, ProposalId>,
    finalValue: Value,
    finalId: ProposalId)
  {
    predicate IsComplete() {
      finalValue != ""
    }

    predicate Ignores(m: Report) {
      || IsComplete()
      || !m.id.IsValid()
      || (m.from in acceptors && (m.id.Lt(acceptors[m.from]) || m.id.Eq(acceptors[m.from])))
    }

    /** The step as written. An acceptor that moves has its entry overwritten first, so the "old"
        proposal looked up afterwards is the new one; if absent it is default-constructed. */
    function ReceiveAccepted(quorumSize: nat, m: Report): (LearnerState, seq<Effect>) {
      if Ignores(m) then (this, [])
      else
        var acceptors' := acceptors[m.from := m.id];
        var ps := if m.from in acceptors
                  then
                    var prior := if m.id in proposals then proposals[m.id] else m.blank;
                    if prior.retentionCount - 1 == 0 then proposals - {m.id}
                    else proposals[m.id := prior.(retentionCount := prior.retentionCount - 1)]
                  else proposals;
        if m.id !in ps then
          (this.(proposals := ps[m.id := Tally(0, 0, m.value)], acceptors := acceptors'), [])
        else
          Settle(quorumSize, ps, acceptors', m)
    }

    /** One more approval of a proposal that has an entry; a quorum resolves the learner. */
    function Settle(quorumSize: nat, ps: map<ProposalId, Tally>, acceptors': map<Uid, ProposalId>, m: Report)
      : (LearnerState, seq<Effect>)
      requires m.id in ps
    {
      var t := ps[m.id];
      var t' := t.(acceptCount := t.acceptCount + 1, retentionCount := t.retentionCount + 1);
      if t'.acceptCount >= quorumSize
      then (LearnerState(map[], map[], m.value, m.id), [OnResolution(m.id, m.value)])
      else (this.(proposals := ps[m.id := t'], acceptors := acceptors'), [])
    }

    /** An acceptor taken off the books: its proposal loses one that stood at it, and its entry if
        that was the last. */
    function Left(a: Uid): LearnerState {
      if a in acceptors && acceptors[a] in proposals
      then
        var id := acceptors[a];
        var prior := proposals[id];
        this.(proposals := if prior.retentionCount - 1 == 0 then proposals - {id}
                           else proposals[id := prior.(retentionCount := prior.retentionCount - 1)],
              acceptors := acceptors - {a})
      else this.(acceptors := acceptors - {a})
    }

    /** The step the header describes: the old proposal is looked up before the move and loses
        one that stood at it, and every report counts, the first one too. */
    function ReceiveAcceptedIntended(quorumSize: nat, m: Report): LearnerState {
      if Ignores(m) then this
      else
        var gone := Left(m.from);
        var ps := if m.id in gone.proposals then gone.proposals else gone.proposals[m.id := Tally(0, 0, m.value)];
        gone.Settle(quorumSize, ps, gone.acceptors[m.from := m.id], m).0
    }
  }

  const NEW_LEARNER: LearnerState := LearnerState(map[], map[], "", NO_ID)

  /** The learner after any sequence of reports: lost, repeated and reordered ones included. */
  function Run(quorumSize: nat, log: seq<Report>): LearnerState {
    if log == [] then NEW_LEARNER
    else Run(quorumSize, log[..|log| - 1]).ReceiveAccepted(quorumSize, log[|log| - 1]).0
  }

  function RunIntended(quorumSize: nat, log: seq<Report>): LearnerState {
    if log == [] then NEW_LEARNER
    else RunIntended(quorumSize, log[..|log| - 1]).ReceiveAcceptedIntended(quorumSize, log[|log| - 1])
  }

  class Learner {
    const messenger: Messenger
    const quorumSize: nat
    var proposals: map<ProposalId, Tally>
    var acceptors: map<Uid, ProposalId>
    var finalValue: Value
    var finalProposalId: ProposalId

    function State(): LearnerState
      reads this
    {
      LearnerState(proposals, acceptors, finalValue, finalProposalId)
    }

    constructor (messenger: Messenger, quorumSize: nat)
      ensures this.messenger == messenger && this.quorumSize == quorumSize
      ensures State() == NEW_LEARNER
    {
      this.messenger, this.quorumSize := messenger, quorumSize;
      proposals, acceptors, finalValue, finalProposalId := map[], map[], "", NO_ID;
    }

    /** `blank` is what an entry default-constructed during this call holds. */
    method ReceiveAccepted(from: Uid, id: ProposalId, acceptedValue: Value, blank: Tally)
      modifies this, messenger
      ensures State() == old(State()).ReceiveAccepted(quorumSize, Report(from, id, acceptedValue, blank)).0
      ensures messenger.sent == old(messenger.sent)
           + old(State()).ReceiveAccepted(quorumSize, Report(from, id, acceptedValue, blank)).1
    {
      hide ProposalId.Compare;
      if finalValue != "" {
        return;
      }
      if !id.IsValid() {
        return;
      }
      var known := from in acceptors;
      if known && (id.Lt(acceptors[from]) || id.Eq(acceptors[from])) {
        return;
      }
      acceptors := acceptors[from := id];
      if known {
        if id !in proposals {
          proposals := proposals[id := blank];
        }
        var t := proposals[id];
        proposals := proposals[id := t.(retentionCount := t.retentionCount - 1)];
        if t.retentionCount - 1 == 0 {
          proposals := proposals - {id};
        }
      }
      if id !in proposals {
        proposals := proposals[id := Tally(0, 0, acceptedValue)];
      } else {
        var t := proposals[id];
        t := t.(acceptCount := t.acceptCount + 1, retentionCount := t.retentionCount + 1);
        proposals := proposals[id := t];
        if t.acceptCount >= quorumSize {
          finalProposalId := id;
          finalValue := acceptedValue;
          proposals := map[];
          acceptors := map[];
          messenger.Send(OnResolution(id, acceptedValue));
        }
      }
    }
  }

  // ----- soundness over any sequence of reports

  /** The distinct acceptors that reported id. */
  function Reporters(log: seq<Report>, id: ProposalId): set<Uid> {
    set m | m in log && m.id == id :: m.from
  }

  /** Those of them whose report the learner still remembers having passed. */
  function Credited(s: LearnerState, log: seq<Report>, id: ProposalId): set<Uid> {
    set a | a in Reporters(log, id) && a in s.acceptors && !s.acceptors[a].Lt(id)
  }

  ghost predicate CountsAreCredited(s: LearnerState, log: seq<Report>) {
    forall id <- s.proposals :: s.proposals[id].acceptCount <= |Credited(s, log, id)|
  }

  /** The result is one of the reports, at an ID that a quorum reported. */
  ghost predicate Backed(quorumSize: nat, log: seq<Report>, s: LearnerState) {
    s.IsComplete() ==>
      && (exists m <- log :: m.id == s.finalId && m.value == s.finalValue)
      && |Reporters(log, s.finalId)| >= quorumSize
  }

  /** The default-constructed counts can never be mistaken for reports. */
  predicate Harmless(blank: Tally) {
    blank.acceptCount <= 0 || blank.retentionCount == 1
  }

  lemma CreditedGrows(s: LearnerState, s': LearnerState, log: seq<Report>, m: Report, id: ProposalId)
    requires !s.Ignores(m) && s'.acceptors == s.acceptors[m.from := m.id]
    ensures Credited(s, log, id) <= Credited(s', log + [m], id)
    ensures id == m.id ==> |Credited(s', log + [m], id)| >= |Credited(s, log, id)| + 1
  {
    forall a <- Credited(s, log, id) ensures a in Credited(s', log + [m], id) {
      var x :| x in log && x.id == id && x.from == a;
      assert x in log + [m];
      if a == m.from {
        OrderIsStrictAndTotal(m.id, s.acceptors[a]);
        OrderIsStrictAndTotal(id, s.acceptors[a]);
        OrderIsStrictAndTotal(id, m.id);
        if m.id.Lt(id) && s.acceptors[a].Lt(m.id) { LtTransitive(s.acceptors[a], m.id, id); }
      }
    }
    if id == m.id {
      OrderIsStrictAndTotal(id, id);
      if m.from in s.acceptors { OrderIsStrictAndTotal(m.id, s.acceptors[m.from]); }
      assert m in log + [m];
      assert m.from in Credited(s', log + [m], id) && m.from !in Credited(s, log, id);
      CardinalityGrows(Credited(s, log, id), Credited(s', log + [m], id), m.from);
    }
  }

  lemma CardinalityGrows<T>(a: set<T>, b: set<T>, x: T)
    requires a <= b && x in b && x !in a
    ensures |b| >= |a| + 1
  {
    assert b == a + {x} + (b - a - {x});
  }

  lemma ReportersGrow(log: seq<Report>, m: Report, id: ProposalId)
    ensures Reporters(log, id) <= Reporters(log + [m], id)
    ensures |Reporters(log, id)| <= |Reporters(log + [m], id)|
    ensures m.from in Reporters(log + [m], m.id)
  {
    forall a <- Reporters(log, id) ensures a in Reporters(log + [m], id) {
      var x :| x in log && x.id == id && x.from == a;
      assert x in log + [m];
    }
    assert Reporters(log + [m], id) == Reporters(log, id) + (Reporters(log + [m], id) - Reporters(log, id));
    assert m in log + [m];
  }

  lemma ReportersAtLeast(s: LearnerState, log: seq<Report>, id: ProposalId)
    ensures |Credited(s, log, id)| <= |Reporters(log, id)|
  {
    assert Reporters(log, id) == Credited(s, log, id) + (Reporters(log, id) - Credited(s, log, id));
  }

  /** One step, as written: no count runs ahead of the acceptors credited, unless the
      default-constructed counts already do. */
  lemma StepKeepsCredit(q: nat, s: LearnerState, log: seq<Report>, m: Report)
    requires Harmless(m.blank) && CountsAreCredited(s, log) && !s.IsComplete()
    ensures CountsAreCredited(s.ReceiveAccepted(q, m).0, log + [m])
    ensures Backed(q, log + [m], s.ReceiveAccepted(q, m).0)
  {
    var s' := s.ReceiveAccepted(q, m).0;
    if s.Ignores(m) {
      forall id <- s.proposals ensures s.proposals[id].acceptCount <= |Credited(s, log + [m], id)| {
        IgnoredKeepsCredit(s, log, m, id);
      }
    } else {
      var moved := s.(acceptors := s.acceptors[m.from := m.id]);
      forall id: ProposalId
        ensures |Credited(s, log, id)| <= |Credited(moved, log + [m], id)|
        ensures id == m.id ==> |Credited(s, log, id)| + 1 <= |Credited(moved, log + [m], id)|
      {
        CreditedGrows(s, moved, log, m, id);
        SubsetSize(Credited(s, log, id), Credited(moved, log + [m], id));
      }
      if !s'.IsComplete() && s'.acceptors == moved.acceptors {
        forall id <- s'.proposals ensures s'.proposals[id].acceptCount <= |Credited(s', log + [m], id)| {
          assert Credited(s', log + [m], id) == Credited(moved, log + [m], id);
        }
      }
      if s'.IsComplete() {
        assert s'.finalId == m.id && s'.finalValue == m.value && m in log + [m];
        ReportersAtLeast(moved, log + [m], m.id);
      }
    }
  }

  lemma IgnoredKeepsCredit(s: LearnerState, log: seq<Report>, m: Report, id: ProposalId)
    ensures |Credited(s, log, id)| <= |Credited(s, log + [m], id)|
  {
    ReportersGrow(log, m, id);
    SubsetSize(Credited(s, log, id), Credited(s, log + [m], id));
  }

  /** With a quorum of at most one, whoever completes the learner is the quorum. */
  lemma StepOfTinyQuorum(q: nat, s: LearnerState, log: seq<Report>, m: Report)
    requires q <= 1 && !s.IsComplete()
    ensures Backed(q, log + [m], s.ReceiveAccepted(q, m).0)
  {
    var s' := s.ReceiveAccepted(q, m).0;
    if s'.IsComplete() {
      assert s'.finalId == m.id && s'.finalValue == m.value && m in log + [m];
      ReportersGrow(log, m, m.id);
    }
  }

  /** A complete learner keeps its state whatever reports follow, written or intended. */
  lemma {:induction false} CompleteIsFinal(q: nat, log: seq<Report>, more: seq<Report>)
    ensures Run(q, log).IsComplete() ==> Run(q, log + more) == Run(q, log)
    ensures RunIntended(q, log).IsComplete() ==> RunIntended(q, log + more) == RunIntended(q, log)
  {
    if more == [] {
      assert log + more == log;
    } else {
      var before, m := more[..|more| - 1], more[|more| - 1];
      CompleteIsFinal(q, log, before);
      assert log + more == (log + before) + [m];
      RunAppend(q, log + before, m);
    }
  }

  /** One more report is one more step. */
  lemma RunAppend(q: nat, log: seq<Report>, m: Report)
    ensures Run(q, log + [m]) == Run(q, log).ReceiveAccepted(q, m).0
    ensures RunIntended(q, log + [m]) == RunIntended(q, log).ReceiveAcceptedIntended(q, m)
  {
    hide LearnerState.ReceiveAccepted, LearnerState.ReceiveAcceptedIntended;
    assert (log + [m])[..|log|] == log;
  }

  lemma BackedStays(q: nat, log: seq<Report>, m: Report, s: LearnerState)
    requires s.IsComplete() && Backed(q, log, s)
    ensures Backed(q, log + [m], s)
  {
    ReportersGrow(log, m, s.finalId);
    var x :| x in log && x.id == s.finalId && x.value == s.finalValue;
    assert x in log + [m];
  }

  /** Whatever the default-constructed counts are, the result is one of the reports. */
  lemma {:induction false} ResultIsReported(q: nat, log: seq<Report>)
    requires Run(q, log).IsComplete()
    ensures exists m <- log :: m.id == Run(q, log).finalId && m.value == Run(q, log).finalValue
  {
    if log != [] {
      var before, m := log[..|log| - 1], log[|log| - 1];
      if Run(q, before).IsComplete() {
        ResultIsReported(q, before);
      } else {
        assert m in log;
      }
    }
  }

  predicate HarmlessFor(q: nat, blank: Tally) {
    q <= 1 || Harmless(blank)
  }

  /** No report meets a default-constructed entry that can be mistaken for reports. */
  ghost predicate HarmlessLog(q: nat, log: seq<Report>) {
    forall m <- log :: HarmlessFor(q, m.blank)
  }

  lemma {:induction false} RunIsBacked(q: nat, log: seq<Report>)
    requires HarmlessLog(q, log)
    ensures Backed(q, log, Run(q, log))
    ensures HarmlessLog(2, log) && !Run(q, log).IsComplete() ==> CountsAreCredited(Run(q, log), log)
  {
    if log != [] {
      var before, m := log[..|log| - 1], log[|log| - 1];
      assert log == before + [m];
      RunIsBacked(q, before);
      var s := Run(q, before);
      if s.IsComplete() {
        BackedStays(q, before, m, s);
      } else if HarmlessLog(2, log) {
        assert m in log;
        StepKeepsCredit(q, s, before, m);
      } else {
        StepOfTinyQuorum(q, s, before, m);
      }
    }
  }

  /** Every default-constructed entry is one of these. */
  ghost predicate Meets(log: seq<Report>, blanks: iset<Tally>) {
    forall m <- log :: m.blank in blanks
  }

  /** Sound: over every sequence of reports, a result comes from a quorum of distinct reporters,
      when a default-constructed entry may hold any of the blanks, another one each time. */
  ghost predicate Sound(q: nat, blanks: iset<Tally>) {
    forall log :: Meets(log, blanks) ==> Backed(q, log, Run(q, log))
  }

  // ----- what the default-constructed counts can do

  const FIRST: ProposalId := ProposalId(1, "p")
  const SECOND: ProposalId := ProposalId(2, "p")

  function Name(k: nat): Uid {
    seq(k + 2, _ => 'b')
  }

  /** One acceptor moves from FIRST to SECOND, then k others report SECOND. */
  function MoverThenOthers(blank: Tally, k: nat): seq<Report> {
    if k == 0 then [Report("a", FIRST, "v", blank), Report("a", SECOND, "v", blank)]
    else MoverThenOthers(blank, k - 1) + [Report(Name(k - 1), SECOND, "v", blank)]
  }

  lemma MoverAlone(q: nat, blank: Tally)
    requires blank.retentionCount != 1
    ensures |MoverThenOthers(blank, 0)| == 2
    ensures var s := Run(q, MoverThenOthers(blank, 0));
            if blank.acceptCount + 1 >= q then s.IsComplete() && s.finalId == SECOND
            else && !s.IsComplete() && s.acceptors == map["a" := SECOND] && SECOND in s.proposals
                 && s.proposals[SECOND].acceptCount == blank.acceptCount + 1
  {
    var m1, m2 := Report("a", FIRST, "v", blank), Report("a", SECOND, "v", blank);
    assert [m1, m2][..1] == [m1] && [m1][..0] == [];
    OrderIsLexicographic(SECOND, FIRST);
    OrderIsStrictAndTotal(SECOND, FIRST);
    var s1 := Run(q, [m1]);
    assert Run(q, []) == NEW_LEARNER;
    assert s1 == NEW_LEARNER.ReceiveAccepted(q, m1).0;
    assert Run(q, [m1, m2]) == s1.ReceiveAccepted(q, m2).0;
  }

  /** A first report of a proposal that has an entry adds one. */
  lemma NewcomerAdds(q: nat, s: LearnerState, m: Report)
    requires !s.IsComplete() && m.id.IsValid() && m.from !in s.acceptors && m.id in s.proposals && m.value != ""
    ensures var s' := s.ReceiveAccepted(q, m).0;
            if s.proposals[m.id].acceptCount + 1 >= q then s'.IsComplete() && s'.finalId == m.id
            else && !s'.IsComplete() && s'.acceptors == s.acceptors[m.from := m.id] && m.id in s'.proposals
                 && s'.proposals[m.id].acceptCount == s.proposals[m.id].acceptCount + 1
  {
  }

  ghost predicate OnlyMoverAndOthers(s: LearnerState, k: nat) {
    && !s.IsComplete() && SECOND in s.proposals
    && forall a <- s.acceptors.Keys :: a == "a" || (2 <= |a| < k + 2)
  }

  lemma {:induction false} OthersAdd(q: nat, blank: Tally, k: nat)
    requires blank.retentionCount != 1 && blank.acceptCount + 1 + k < q
    ensures OnlyMoverAndOthers(Run(q, MoverThenOthers(blank, k)), k)
    ensures Run(q, MoverThenOthers(blank, k)).proposals[SECOND].acceptCount == blank.acceptCount + 1 + k
  {
    hide LearnerState.ReceiveAccepted, Run, MoverThenOthers;
    if k == 0 {
      MoverAlone(q, blank);
    } else {
      OthersAdd(q, blank, k - 1);
      OtherIsNew(q, blank, k);
    }
  }

  lemma OtherIsNew(q: nat, blank: Tally, k: nat)
    requires k > 0 && OnlyMoverAndOthers(Run(q, MoverThenOthers(blank, k - 1)), k - 1)
    ensures var s, s' := Run(q, MoverThenOthers(blank, k - 1)), Run(q, MoverThenOthers(blank, k));
            if s.proposals[SECOND].acceptCount + 1 >= q then s'.IsComplete() && s'.finalId == SECOND
            else && OnlyMoverAndOthers(s', k)
                 && s'.proposals[SECOND].acceptCount == s.proposals[SECOND].acceptCount + 1
  {
    var before, m := MoverThenOthers(blank, k - 1), Report(Name(k - 1), SECOND, "v", blank);
    assert MoverThenOthers(blank, k) == before + [m];
    assert (before + [m])[..|before + [m]| - 1] == before;
    assert Run(q, before + [m]) == Run(q, before).ReceiveAccepted(q, m).0;
    assert |m.from| == k + 1 && |"a"| == 1;
    hide LearnerState.ReceiveAccepted, Run;
    NewcomerAdds(q, Run(q, before), m);
  }

  lemma {:induction false} FewReporters(blank: Tally, k: nat)
    ensures |Reporters(MoverThenOthers(blank, k), SECOND)| <= k + 1
  {
    if k == 0 {
      assert Reporters(MoverThenOthers(blank, 0), SECOND) <= {"a"};
      SubsetSize(Reporters(MoverThenOthers(blank, 0), SECOND), {"a"});
    } else {
      FewReporters(blank, k - 1);
      var r := Reporters(MoverThenOthers(blank, k - 1), SECOND);
      assert Reporters(MoverThenOthers(blank, k), SECOND) <= r + {Name(k - 1)};
      SubsetSize(Reporters(MoverThenOthers(blank, k), SECOND), r + {Name(k - 1)});
    }
  }

  lemma {:induction false} AllBlank(blank: Tally, k: nat)
    ensures Meets(MoverThenOthers(blank, k), iset{blank})
  {
    if k > 0 { AllBlank(blank, k - 1); }
  }

  /** A positive blank count lets fewer than a quorum complete the learner. */
  lemma BlankCountsMislead(q: nat, blank: Tally) returns (log: seq<Report>)
    requires !HarmlessFor(q, blank)
    ensures Meets(log, iset{blank}) && !Backed(q, log, Run(q, log))
  {
    hide LearnerState.ReceiveAccepted, Run, MoverThenOthers, Reporters;
    if blank.acceptCount + 1 >= q {
      log := MoverThenOthers(blank, 0);
      AllBlank(blank, 0);
      MoverAlone(q, blank);
      FewReporters(blank, 0);
    } else {
      var k := q - blank.acceptCount - 1;
      log := MoverThenOthers(blank, k);
      AllBlank(blank, k);
      OthersAdd(q, blank, k - 1);
      OtherIsNew(q, blank, k);
      FewReporters(blank, k);
    }
  }

  /** The learner as written is sound exactly when each count that a default-constructed entry may
      hold is harmless: no positive accept count, or erased at once, or a single report is a quorum. */
  lemma SoundIffHarmless(q: nat, blanks: iset<Tally>)
    ensures Sound(q, blanks) <==> forall blank <- blanks :: HarmlessFor(q, blank)
  {
    if forall blank <- blanks :: HarmlessFor(q, blank) {
      forall log | Meets(log, blanks) ensures Backed(q, log, Run(q, log)) {
        RunIsBacked(q, log);
      }
    } else {
      var blank :| blank in blanks && !HarmlessFor(q, blank);
      var log := BlankCountsMislead(q, blank);
      assert Meets(log, blanks);
    }
  }

  // ----- bookkeeping of the intended learner

  /** The acceptors that stand at id now. */
  function Standing(s: LearnerState, id: ProposalId): set<Uid> {
    set a | a in s.acceptors && s.acceptors[a] == id
  }

  ghost predicate TallyOk(q: nat, s: LearnerState, id: ProposalId) {
    && id in s.proposals
    && s.proposals[id].retentionCount == |Standing(s, id)|
    && 0 < s.proposals[id].retentionCount <= s.proposals[id].acceptCount < q
  }

  ghost predicate BooksBalance(q: nat, s: LearnerState) {
    && (forall id <- s.proposals :: TallyOk(q, s, id))
    && (forall a <- s.acceptors :: s.acceptors[a] in s.proposals)
  }

  lemma LeavingKeepsTally(q: nat, s: LearnerState, a: Uid, id: ProposalId)
    requires BooksBalance(q, s) && id in s.Left(a).proposals
    ensures TallyOk(q, s.Left(a), id)
  {
    assert TallyOk(q, s, id);
    assert Standing(s.Left(a), id) == Standing(s, id) - {a};
  }

  lemma LeavingKeepsBooks(q: nat, s: LearnerState, a: Uid)
    requires BooksBalance(q, s)
    ensures BooksBalance(q, s.Left(a))
  {
    var s' := s.Left(a);
    forall id <- s'.proposals ensures TallyOk(q, s', id) {
      LeavingKeepsTally(q, s, a, id);
    }
    forall x <- s'.acceptors ensures s'.acceptors[x] in s'.proposals {
      if a in s.acceptors {
        assert TallyOk(q, s, s.acceptors[a]);
        OthersStillStand(s, a, x);
      }
    }
  }

  /** One more acceptor at m.id, from an acceptor that stands nowhere. */
  lemma ArrivingKeepsBooks(q: nat, s: LearnerState, ps: map<ProposalId, Tally>, m: Report)
    requires BooksBalance(q, s) && m.from !in s.acceptors && m.id in ps && !s.IsComplete()
    requires ps == if m.id in s.proposals then s.proposals else s.proposals[m.id := Tally(0, 0, m.value)]
    ensures var s' := s.Settle(q, ps, s.acceptors[m.from := m.id], m).0;
            s'.IsComplete() || BooksBalance(q, s')
  {
    var s' := s.Settle(q, ps, s.acceptors[m.from := m.id], m).0;
    if s'.acceptors == s.acceptors[m.from := m.id] {
      NoneStands(q, s, m.id);
      forall id: ProposalId
        ensures Standing(s', id) == if id == m.id then Standing(s, id) + {m.from} else Standing(s, id)
      {}
      forall id <- s'.proposals ensures TallyOk(q, s', id) {
        assert id in s.proposals ==> TallyOk(q, s, id);
      }
    }
  }

  /** Before completion each retention count is the number of acceptors that stand there now, and
      it is positive, at most the accept count, and the accept count is below a quorum. */
  lemma StepKeepsBooks(q: nat, s: LearnerState, m: Report)
    requires BooksBalance(q, s) && !s.IsComplete()
    ensures s.ReceiveAcceptedIntended(q, m).IsComplete() || BooksBalance(q, s.ReceiveAcceptedIntended(q, m))
  {
    if !s.Ignores(m) {
      var gone := s.Left(m.from);
      LeavingKeepsBooks(q, s, m.from);
      var ps := if m.id in gone.proposals then gone.proposals else gone.proposals[m.id := Tally(0, 0, m.value)];
      ArrivingKeepsBooks(q, gone, ps, m);
    }
  }

  lemma NoneStands(q: nat, s: LearnerState, id: ProposalId)
    requires BooksBalance(q, s)
    ensures id !in s.proposals ==> Standing(s, id) == {}
  {
  }

  lemma FewStand(q: nat, s: LearnerState, id: ProposalId)
    requires BooksBalance(q, s)
    ensures Standing(s, id) == {} || |Standing(s, id)| < q
  {
    if id in s.proposals { assert TallyOk(q, s, id); }
  }

  /** If another acceptor stands where the mover stood, that entry has at least two standing. */
  lemma OthersStillStand(s: LearnerState, mover: Uid, a: Uid)
    requires mover in s.acceptors
    ensures a in s.acceptors && a != mover && s.acceptors[a] == s.acceptors[mover]
            ==> |Standing(s, s.acceptors[mover])| >= 2
  {
    if a in s.acceptors && a != mover && s.acceptors[a] == s.acceptors[mover] {
      SubsetSize({a, mover}, Standing(s, s.acceptors[mover]));
    }
  }

  lemma {:induction false} BooksBalanceAlways(q: nat, log: seq<Report>)
    ensures RunIntended(q, log).IsComplete() || BooksBalance(q, RunIntended(q, log))
  {
    if log != [] {
      var before, m := log[..|log| - 1], log[|log| - 1];
      assert log == before + [m];
      BooksBalanceAlways(q, before);
      if RunIntended(q, before).IsComplete() {
        CompleteIsFinal(q, before, [m]);
      } else {
        StepKeepsBooks(q, RunIntended(q, before), m);
      }
    }
  }

  ghost function RetentionSum(s: LearnerState, ids: set<ProposalId>): int
    requires ids <= s.proposals.Keys
  {
    if ids == {} then 0
    else var id :| id in ids; s.proposals[id].retentionCount + RetentionSum(s, ids - {id})
  }

  lemma {:induction false} SumOverIds(q: nat, s: LearnerState, ids: set<ProposalId>)
    requires BooksBalance(q, s) && ids <= s.proposals.Keys
    ensures RetentionSum(s, ids) == |set a | a in s.acceptors && s.acceptors[a] in ids|
    decreases ids
  {
    if ids == {} {
      assert (set a | a in s.acceptors && s.acceptors[a] in ids) == {};
    } else {
      var id :| id in ids && RetentionSum(s, ids) == s.proposals[id].retentionCount + RetentionSum(s, ids - {id});
      SumOverIds(q, s, ids - {id});
      assert TallyOk(q, s, id);
      assert (set a | a in s.acceptors && s.acceptors[a] in ids)
          == Standing(s, id) + (set a | a in s.acceptors && s.acceptors[a] in ids - {id});
    }
  }

  /** The retention counts add up to the number of acceptors heard from. */
  lemma RetentionCountsAddUp(q: nat, log: seq<Report>)
    requires !RunIntended(q, log).IsComplete()
    ensures var s := RunIntended(q, log); RetentionSum(s, s.proposals.Keys) == |s.acceptors|
  {
    var s := RunIntended(q, log);
    BooksBalanceAlways(q, log);
    SumOverIds(q, s, s.proposals.Keys);
    assert (set a | a in s.acceptors && s.acceptors[a] in s.proposals.Keys) == s.acceptors.Keys;
  }

  /** id is the highest ballot a has reported. */
  ghost predicate Latest(log: seq<Report>, a: Uid, id: ProposalId) {
    && (exists m <- log :: m.from == a && m.id == id)
    && (forall m <- log :: m.from == a ==> m.id == id || m.id.Lt(id))
  }

  ghost predicate WellFormedLog(log: seq<Report>) {
    forall m <- log :: m.id.IsValid() && m.value != ""
  }

  ghost predicate RemembersLatest(s: LearnerState, log: seq<Report>) {
    && (forall m <- log :: m.from in s.acceptors)
    && (forall a <- s.acceptors :: Latest(log, a, s.acceptors[a]))
  }

  lemma StepRemembers(q: nat, s: LearnerState, log: seq<Report>, m: Report)
    requires RemembersLatest(s, log) && !s.IsComplete() && m.id.IsValid() && m.value != ""
    ensures s.ReceiveAcceptedIntended(q, m).IsComplete()
         || RemembersLatest(s.ReceiveAcceptedIntended(q, m), log + [m])
  {
    var s' := s.ReceiveAcceptedIntended(q, m);
    if !s'.IsComplete() {
      assert s.Left(m.from).acceptors[m.from := m.id] == s.acceptors[m.from := m.id];
      forall a <- s'.acceptors ensures Latest(log + [m], a, s'.acceptors[a]) {
        LatestAfter(s, s', log, m, a);
      }
    }
  }

  lemma LatestAfter(s: LearnerState, s': LearnerState, log: seq<Report>, m: Report, a: Uid)
    requires RemembersLatest(s, log) && !s.IsComplete() && m.id.IsValid() && a in s'.acceptors
    requires s'.acceptors == if s.Ignores(m) then s.acceptors else s.acceptors[m.from := m.id]
    ensures Latest(log + [m], a, s'.acceptors[a])
  {
    var all := log + [m];
    assert m in all;
    if a in s.acceptors {
      OrderIsStrictAndTotal(m.id, s.acceptors[a]);
      var x :| x in log && x.from == a && x.id == s.acceptors[a];
      assert x in all;
      forall y <- all | y.from == a ensures y.id == s'.acceptors[a] || y.id.Lt(s'.acceptors[a]) {
        if y in log && y.id.Lt(s.acceptors[a]) && s.acceptors[a].Lt(m.id) {
          LtTransitive(y.id, s.acceptors[a], m.id);
        }
      }
    }
  }

  lemma {:induction false} RemembersLatestAlways(q: nat, log: seq<Report>)
    requires WellFormedLog(log)
    ensures RunIntended(q, log).IsComplete() || RemembersLatest(RunIntended(q, log), log)
  {
    if log != [] {
      var before, m := log[..|log| - 1], log[|log| - 1];
      assert log == before + [m];
      RemembersLatestAlways(q, before);
      if RunIntended(q, before).IsComplete() {
        CompleteIsFinal(q, before, [m]);
      } else {
        StepRemembers(q, RunIntended(q, before), before, m);
      }
    }
  }

  /** The intended learner is complete as soon as a quorum of acceptors stands at one proposal. */
  lemma IntendedIsPrompt(q: nat, log: seq<Report>, id: ProposalId, S: set<Uid>)
    requires WellFormedLog(log) && S != {} && |S| >= q
    requires forall a <- S :: Latest(log, a, id)
    ensures RunIntended(q, log).IsComplete()
  {
    var s := RunIntended(q, log);
    if !s.IsComplete() {
      BooksBalanceAlways(q, log);
      RemembersLatestAlways(q, log);
      forall a <- S ensures a in Standing(s, id) {
        assert Latest(log, a, id);
        OrderIsStrictAndTotal(id, s.acceptors[a]);
      }
      SubsetSize(S, Standing(s, id));
      FewStand(q, s, id);
    }
  }

  /** The acceptors credited after one report that is not ignored. */
  lemma MovedCredit(s: LearnerState, moved: LearnerState, log: seq<Report>, m: Report, id: ProposalId)
    requires !s.Ignores(m) && moved.acceptors == s.acceptors[m.from := m.id]
    ensures |Credited(s, log, id)| + (if id == m.id then 1 else 0) <= |Credited(moved, log + [m], id)|
  {
    CreditedGrows(s, moved, log, m, id);
    SubsetSize(Credited(s, log, id), Credited(moved, log + [m], id));
  }

  lemma SettleKeepsCredit(
    q: nat, s: LearnerState, ps: map<ProposalId, Tally>, moved: LearnerState, log: seq<Report>, m: Report)
    requires m.id in ps && m in log && !s.IsComplete()
    requires forall id <- ps ::
               ps[id].acceptCount + (if id == m.id then 1 else 0) <= |Credited(moved, log, id)|
    ensures CountsAreCredited(s.Settle(q, ps, moved.acceptors, m).0, log)
    ensures Backed(q, log, s.Settle(q, ps, moved.acceptors, m).0)
  {
    var s' := s.Settle(q, ps, moved.acceptors, m).0;
    if ps[m.id].acceptCount + 1 >= q {
      ReportersAtLeast(moved, log, m.id);
    } else {
      forall id <- s'.proposals ensures s'.proposals[id].acceptCount <= |Credited(s', log, id)| {
        SameCredit(s', moved, log, id);
      }
    }
  }

  lemma IntendedStepKeepsCredit(q: nat, s: LearnerState, log: seq<Report>, m: Report)
    requires CountsAreCredited(s, log) && !s.IsComplete() && !s.Ignores(m)
    ensures CountsAreCredited(s.ReceiveAcceptedIntended(q, m), log + [m])
    ensures Backed(q, log + [m], s.ReceiveAcceptedIntended(q, m))
  {
    hide Credited, LearnerState.Ignores, LearnerState.Settle;
    var gone := s.Left(m.from);
    var moved := s.(acceptors := s.acceptors[m.from := m.id]);
    assert gone.acceptors[m.from := m.id] == moved.acceptors;
    var ps := if m.id in gone.proposals then gone.proposals else gone.proposals[m.id := Tally(0, 0, m.value)];
    forall id <- ps
      ensures ps[id].acceptCount + (if id == m.id then 1 else 0) <= |Credited(moved, log + [m], id)|
    {
      MovedCredit(s, moved, log, m, id);
    }
    SettleKeepsCredit(q, gone, ps, moved, log + [m], m);
  }

  lemma SameCredit(s: LearnerState, s': LearnerState, log: seq<Report>, id: ProposalId)
    requires s.acceptors == s'.acceptors
    ensures Credited(s, log, id) == Credited(s', log, id)
  {
  }

  /** The intended learner too completes only on a quorum of distinct reporters. */
  lemma {:induction false} IntendedIsBacked(q: nat, log: seq<Report>)
    ensures Backed(q, log, RunIntended(q, log))
    ensures !RunIntended(q, log).IsComplete() ==> CountsAreCredited(RunIntended(q, log), log)
  {
    if log != [] {
      var before, m := log[..|log| - 1], log[|log| - 1];
      assert log == before + [m];
      IntendedIsBacked(q, before);
      var s := RunIntended(q, before);
      if s.IsComplete() {
        BackedStays(q, before, m, s);
      } else if s.Ignores(m) {
        forall id <- s.proposals ensures s.proposals[id].acceptCount <= |Credited(s, log, id)| {
          IgnoredKeepsCredit(s, before, m, id);
        }
      } else {
        IntendedStepKeepsCredit(q, s, before, m);
      }
    }
  }

  // ----- where the learner as written departs from the intended one

  /** A quorum of first reports completes the intended learner and not the one written, because
      the code does not count the first report of a proposal. */
  lemma FirstReportIsNotCounted(blank: Tally)
    ensures var log := [Report("a", FIRST, "v", blank), Report("b", FIRST, "v", blank)];
            && RunIntended(2, log).IsComplete()
            && !Run(2, log).IsComplete()
  {
    var m1, m2 := Report("a", FIRST, "v", blank), Report("b", FIRST, "v", blank);
    assert [m1, m2][..1] == [m1] && [m1][..0] == [];
    assert Run(2, []) == RunIntended(2, []) == NEW_LEARNER;
    var w1 := Run(2, [m1]);
    assert w1 == NEW_LEARNER.ReceiveAccepted(2, m1).0;
    assert w1.proposals == map[FIRST := Tally(0, 0, "v")];
    assert "b" !in w1.acceptors by { assert w1.acceptors == map["a" := FIRST]; assert "a"[0] != "b"[0]; }
    var i1 := RunIntended(2, [m1]);
    assert i1 == NEW_LEARNER.ReceiveAcceptedIntended(2, m1);
    assert i1.proposals == map[FIRST := Tally(1, 1, "v")];
    assert "b" !in i1.acceptors by { assert i1.acceptors == map["a" := FIRST]; assert "a"[0] != "b"[0]; }
    assert Run(2, [m1, m2]) == w1.ReceiveAccepted(2, m2).0;
    assert RunIntended(2, [m1, m2]) == i1.ReceiveAcceptedIntended(2, m2);
  }

  /** The books of a learner that has heard of id only, from these acceptors. */
  ghost predicate OneBallotBooks(s: LearnerState, id: ProposalId, heard: set<Uid>) {
    && !s.IsComplete()
    && s.acceptors.Keys == heard
    && (forall a <- s.acceptors :: s.acceptors[a] == id)
    && (forall x <- s.proposals :: x == id)
    && (heard == {} <==> id !in s.proposals)
    && (id in s.proposals ==> s.proposals[id].acceptCount == |heard| - 1)
  }

  lemma OneBallotStep(q: nat, s: LearnerState, m: Report, heard: set<Uid>)
    requires OneBallotBooks(s, m.id, heard) && q > 0 && m.id.IsValid() && m.value != ""
    ensures var s' := s.ReceiveAccepted(q, m).0;
            if |heard + {m.from}| > q then s'.IsComplete() || m.from in heard
            else OneBallotBooks(s', m.id, heard + {m.from})
  {
    OrderIsStrictAndTotal(m.id, m.id);
    if m.from in heard {
      assert heard + {m.from} == heard;
    } else {
      assert s.acceptors[m.from := m.id].Keys == heard + {m.from};
    }
  }

  lemma OneMoreReporter(log: seq<Report>, m: Report, id: ProposalId)
    requires m.id == id
    ensures Reporters(log + [m], id) == Reporters(log, id) + {m.from}
  {
    ReportersGrow(log, m, id);
  }

  ghost predicate OneBallotLog(log: seq<Report>, id: ProposalId) {
    forall m <- log :: m.id == id && m.value != ""
  }

  lemma {:induction false} OneBallotRun(q: nat, log: seq<Report>, id: ProposalId)
    requires q > 0 && id.IsValid() && OneBallotLog(log, id)
    ensures if |Reporters(log, id)| > q then Run(q, log).IsComplete()
            else OneBallotBooks(Run(q, log), id, Reporters(log, id))
  {
    hide LearnerState.ReceiveAccepted;
    if log == [] {
      assert Reporters(log, id) == {};
    } else {
      hide Run, Reporters;
      var before, m := log[..|log| - 1], log[|log| - 1];
      assert log == before + [m];
      OneBallotRun(q, before, id);
      RunAppend(q, before, m);
      CompleteIsFinal(q, before, [m]);
      ReportersGrow(before, m, id);
      OneMoreReporter(before, m, id);
      if |Reporters(before, id)| <= q {
        OneBallotStep(q, Run(q, before), m, Reporters(before, id));
        assert m.from in Reporters(before, id) ==> Reporters(log, id) == Reporters(before, id);
      }
    }
  }

  /** A learner that hears of one ballot only: as written it completes if and only if more than a
      quorum of acceptors reported, the intended one if and only if a quorum did. */
  lemma OneBallotCompletesIff(q: nat, log: seq<Report>, id: ProposalId)
    requires q > 0 && id.IsValid() && OneBallotLog(log, id)
    ensures Run(q, log).IsComplete() <==> |Reporters(log, id)| > q
    ensures RunIntended(q, log).IsComplete() <==> |Reporters(log, id)| >= q
  {
    OneBallotRun(q, log, id);
    if |Reporters(log, id)| >= q {
      var a :| a in Reporters(log, id);
      assert WellFormedLog(log);
      IntendedIsPrompt(q, log, id, Reporters(log, id));
    }
    if RunIntended(q, log).IsComplete() {
      IntendedIsBacked(q, log);
      var m :| m in log && m.id == RunIntended(q, log).finalId;
    }
  }

  // ----- acceptors the learner has heard before, moving on to a ballot new to it

  /** The moves report id, from distinct acceptors of which the learner holds an older report, and
      the learner knows nothing about id. */
  ghost predicate MayMove(s: LearnerState, moves: seq<Report>, id: ProposalId) {
    && !s.IsComplete() && id !in s.proposals && id.IsValid()
    && (forall i, j :: 0 <= i < j < |moves| ==> moves[i].from != moves[j].from)
    && forall i :: 0 <= i < |moves| ==>
         moves[i].id == id && moves[i].value != ""
         && moves[i].from in s.acceptors && s.acceptors[moves[i].from].Lt(id)
  }

  /** What the accept count has once k > 0 movers are counted: it starts from the entry constructed
      for the first mover, or one behind zero when that entry is erased at once. */
  function CountAfter(blank: Tally, k: nat): int {
    k + if blank.retentionCount == 1 then -1 else blank.acceptCount
  }

  /** After k movers none of which completed the learner: the movers to come are where they were. */
  ghost predicate Moved(s: LearnerState, t: LearnerState, moves: seq<Report>, k: nat, id: ProposalId)
    requires k <= |moves|
  {
    && !t.IsComplete()
    && (k == 0 ==> id !in t.proposals)
    && (k > 0 ==> id in t.proposals && t.proposals[id].acceptCount == CountAfter(moves[0].blank, k)
                  && t.proposals[id].retentionCount != 1)
    && forall i :: k <= i < |moves| ==>
         && moves[i].from in s.acceptors && moves[i].from in t.acceptors
         && t.acceptors[moves[i].from] == s.acceptors[moves[i].from]
  }

  lemma OneMoves(q: nat, s: LearnerState, t: LearnerState, moves: seq<Report>, k: nat, id: ProposalId)
    requires q > 0 && MayMove(s, moves, id) && k < |moves| && Moved(s, t, moves, k, id)
    ensures var t' := t.ReceiveAccepted(q, moves[k]).0;
            if CountAfter(moves[0].blank, k + 1) >= q then t'.finalId == id && t'.finalValue == moves[k].value
            else Moved(s, t', moves, k + 1, id)
  {
    OrderIsStrictAndTotal(s.acceptors[moves[k].from], id);
    hide ProposalId.Compare;
  }

  /** As many movers as it takes, one at a time. */
  lemma {:induction false} MoversRun(q: nat, log: seq<Report>, moves: seq<Report>, k: nat, id: ProposalId)
    requires q > 0 && MayMove(Run(q, log), moves, id) && k <= |moves|
    ensures var t := Run(q, log + moves[..k]);
            if k > 0 && CountAfter(moves[0].blank, k) >= q then t.IsComplete() && t.finalId == id
            else Moved(Run(q, log), t, moves, k, id)
  {
    hide Run, LearnerState.ReceiveAccepted, ProposalId.Compare;
    var s := Run(q, log);
    if k == 0 {
      assert log + moves[..k] == log;
    } else {
      var before := log + moves[..k - 1];
      assert log + moves[..k] == before + [moves[k - 1]];
      MoversRun(q, log, moves, k - 1, id);
      var t := Run(q, before);
      RunAppend(q, before, moves[k - 1]);
      if k > 1 && CountAfter(moves[0].blank, k - 1) >= q {
        CompleteIsFinal(q, before, [moves[k - 1]]);
      } else {
        OneMoves(q, s, t, moves, k - 1, id);
      }
    }
  }

  /** Acceptors it has heard before move on to a ballot it has not heard of, after any reports: the
      learner as written completes if and only if there are enough of them, given the entry that is
      default-constructed for the first; with zero counts a quorum of movers is needed and enough. */
  lemma MoversCompleteIff(q: nat, log: seq<Report>, moves: seq<Report>, id: ProposalId)
    requires q > 0 && MayMove(Run(q, log), moves, id)
    ensures Run(q, log + moves).IsComplete() <==> moves != [] && CountAfter(moves[0].blank, |moves|) >= q
    ensures Run(q, log + moves).IsComplete() ==> Run(q, log + moves).finalId == id
  {
    hide Run, MayMove;
    assert moves[..|moves|] == moves;
    MoversRun(q, log, moves, |moves|, id);
  }
}
