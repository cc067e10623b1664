/** The learner as written, told from the reports alone: one counter per ballot, when the learner
    completes, and what it announces. */
module Counting {
  import opened ProposalIds
  import opened Messages
  import opened Learners

  // ----- what a report is, given the reports before it

  /** a has reported before. */
  ghost predicate HasReported(log: seq<Report>, a: Uid) {
    exists x <- log :: x.from == a && x.id.IsValid()
  }

  /** m is news: it has a real ballot, above all its sender has reported before. */
  ghost predicate IsNews(log: seq<Report>, m: Report) {
    && m.id.IsValid()
    && forall x <- log :: x.from == m.from && x.id.IsValid() ==> x.id.Lt(m.id)
  }

  /** A ballot's counter: none yet, or how many approvals count and how many of them still stand. */
  datatype Counter = NoCounter | Counter(approvals: int, standing: int)

  /** An acceptor's first report ever adds one to both, the one that opens the counter adds nothing. A
      report of an acceptor that moves on from another ballot adds an approval to the entry constructed
      for it or there; but with one standing, the counter is lost and opened anew. */
  function Count(c: Counter, mover: bool, blank: Tally): (r: Counter)
    ensures r.Counter?
  {
    match c
    case NoCounter =>
      if mover && blank.retentionCount != 1 then Counter(blank.acceptCount + 1, blank.retentionCount)
      else Counter(0, 0)
    case Counter(n, k) =>
      if !mover then Counter(n + 1, k + 1)
      else if k == 1 then Counter(0, 0)
      else Counter(n + 1, k)
  }

  ghost function CounterOf(log: seq<Report>, id: ProposalId): Counter {
    if log == [] then NoCounter
    else
      var before, m := log[..|log| - 1], log[|log| - 1];
      var c := CounterOf(before, id);
      if m.id == id && IsNews(before, m) then Count(c, HasReported(before, m.from), m.blank) else c
  }

  /** After its last report a ballot's counter is at the quorum. */
  ghost predicate Reaches(q: nat, log: seq<Report>) {
    && log != []
    && IsNews(log[..|log| - 1], log[|log| - 1])
    && var c := CounterOf(log, log[|log| - 1].id); c.Counter? && c.approvals >= q
  }

  ghost predicate SomePrefixReaches(q: nat, log: seq<Report>) {
    exists k: nat :: k <= |log| && Reaches(q, log[..k])
  }

  // ----- the learner's books are these counters

  ghost predicate BooksAre(s: LearnerState, log: seq<Report>) {
    !s.IsComplete() && AcceptorsAre(s, log) && CountersAre(s, log)
  }

  /** Each acceptor is kept at the highest ballot it reported. */
  ghost predicate AcceptorsAre(s: LearnerState, log: seq<Report>) {
    && (forall a :: a in s.acceptors <==> HasReported(log, a))
    && (forall x <- log :: x.id.IsValid() ==> x.from in s.acceptors && x.id.Le(s.acceptors[x.from]))
    && (forall a <- s.acceptors :: exists x <- log :: x.from == a && x.id == s.acceptors[a] && x.id.IsValid())
  }

  ghost predicate CountersAre(s: LearnerState, log: seq<Report>) {
    && (forall id :: id in s.proposals <==> CounterOf(log, id).Counter?)
    && (forall id <- s.proposals ::
          CounterOf(log, id) == Counter(s.proposals[id].acceptCount, s.proposals[id].retentionCount))
  }

  lemma IgnoredIsNoNews(s: LearnerState, log: seq<Report>, m: Report)
    requires BooksAre(s, log)
    ensures s.Ignores(m) <==> !IsNews(log, m)
    ensures m.from in s.acceptors <==> HasReported(log, m.from)
  {
    hide CounterOf;
    if m.id.IsValid() && m.from in s.acceptors {
      var y :| y in log && y.from == m.from && y.id == s.acceptors[m.from] && y.id.IsValid();
      OrderIsStrictAndTotal(m.id, y.id);
      OrderIsStrictAndTotal(y.id, m.id);
      forall x <- log | x.from == m.from && x.id.IsValid() && y.id.Lt(m.id) ensures x.id.Lt(m.id) {
        LtLeTransitive(x.id, y.id, m.id);
      }
    }
    hide ProposalId.Compare;
  }

  lemma OneMoreReport(log: seq<Report>, m: Report)
    ensures forall id :: CounterOf(log + [m], id)
              == if m.id == id && IsNews(log, m) then Count(CounterOf(log, id), HasReported(log, m.from), m.blank)
                 else CounterOf(log, id)
    ensures forall a :: HasReported(log + [m], a) <==> HasReported(log, a) || (a == m.from && m.id.IsValid())
  {
    var all := log + [m];
    assert all[..|all| - 1] == log;
    forall a ensures HasReported(all, a) <==> HasReported(log, a) || (a == m.from && m.id.IsValid()) {
      if HasReported(log, a) {
        var x :| x in log && x.from == a && x.id.IsValid();
        assert x in all;
      }
      assert m in all;
    }
  }

  lemma NoNewsKeepsBooks(q: nat, s: LearnerState, log: seq<Report>, m: Report)
    requires BooksAre(s, log) && !IsNews(log, m)
    ensures s.ReceiveAccepted(q, m) == (s, []) && BooksAre(s, log + [m])
  {
    IgnoredIsNoNews(s, log, m);
    OneMoreReport(log, m);
    var all := log + [m];
    forall x <- all | x.id.IsValid() ensures x.from in s.acceptors && x.id.Le(s.acceptors[x.from]) {
      if x !in log {
        StaleIsBelow(s, log, m);
      }
    }
    forall a <- s.acceptors ensures exists x <- all :: x.from == a && x.id == s.acceptors[a] && x.id.IsValid() {
      var x :| x in log && x.from == a && x.id == s.acceptors[a] && x.id.IsValid();
      assert x in all;
    }
  }

  lemma StaleIsBelow(s: LearnerState, log: seq<Report>, m: Report)
    requires BooksAre(s, log) && !IsNews(log, m) && m.id.IsValid()
    ensures m.from in s.acceptors && m.id.Le(s.acceptors[m.from])
  {
    hide CounterOf;
    var x :| x in log && x.from == m.from && x.id.IsValid() && !x.id.Lt(m.id);
    OrderIsStrictAndTotal(m.id, x.id);
    LeTransitive(m.id, x.id, s.acceptors[m.from]);
  }

  /** One report that is news: the counter of its ballot moves, or reaches the quorum. */
  lemma NewsCounts(q: nat, s: LearnerState, log: seq<Report>, m: Report)
    requires q > 0 && BooksAre(s, log) && IsNews(log, m) && m.value != ""
    ensures var (s', effects) := s.ReceiveAccepted(q, m);
            var c := Count(CounterOf(log, m.id), HasReported(log, m.from), m.blank);
            if c.approvals >= q
            then s' == LearnerState(map[], map[], m.value, m.id) && effects == [OnResolution(m.id, m.value)]
            else BooksAre(s', log + [m]) && effects == []
  {
    hide LearnerState.ReceiveAccepted, CounterOf, Count, IsNews, HasReported;
    IgnoredIsNoNews(s, log, m);
    var s' := s.ReceiveAccepted(q, m).0;
    CountedStep(q, s, m, CounterOf(log, m.id), HasReported(log, m.from));
    if Count(CounterOf(log, m.id), HasReported(log, m.from), m.blank).approvals < q {
      BooksMove(s, s', log, m);
    }
  }

  lemma BooksMove(s: LearnerState, s': LearnerState, log: seq<Report>, m: Report)
    requires BooksAre(s, log) && IsNews(log, m) && !s'.IsComplete()
    requires s'.acceptors == s.acceptors[m.from := m.id] && s'.proposals.Keys == s.proposals.Keys + {m.id}
    requires Counter(s'.proposals[m.id].acceptCount, s'.proposals[m.id].retentionCount)
          == Count(CounterOf(log, m.id), HasReported(log, m.from), m.blank)
    requires forall id <- s.proposals :: id != m.id ==> s'.proposals[id] == s.proposals[id]
    ensures BooksAre(s', log + [m])
  {
    hide AcceptorsAre, CountersAre, Count, IsNews;
    AcceptorsMove(s, s', log, m);
    CountersMove(s, s', log, m);
  }

  lemma CountersMove(s: LearnerState, s': LearnerState, log: seq<Report>, m: Report)
    requires CountersAre(s, log) && IsNews(log, m) && s'.proposals.Keys == s.proposals.Keys + {m.id}
    requires Counter(s'.proposals[m.id].acceptCount, s'.proposals[m.id].retentionCount)
          == Count(CounterOf(log, m.id), HasReported(log, m.from), m.blank)
    requires forall id <- s.proposals :: id != m.id ==> s'.proposals[id] == s.proposals[id]
    ensures CountersAre(s', log + [m])
  {
    hide CounterOf, Count, IsNews, HasReported;
    OneMoreReport(log, m);
    forall id ensures id in s'.proposals <==> CounterOf(log + [m], id).Counter? {
      assert id in s'.proposals <==> id in s.proposals || id == m.id;
    }
  }

  /** The same in the learner's terms. */
  lemma CountedStep(q: nat, s: LearnerState, m: Report, c: Counter, mover: bool)
    requires q > 0 && !s.Ignores(m) && m.value != "" && mover == (m.from in s.acceptors)
    requires c.Counter? <==> m.id in s.proposals
    requires m.id in s.proposals ==>
               c == Counter(s.proposals[m.id].acceptCount, s.proposals[m.id].retentionCount)
    ensures var (s', effects) := s.ReceiveAccepted(q, m);
            var c' := Count(c, mover, m.blank);
            if c'.approvals >= q
            then s' == LearnerState(map[], map[], m.value, m.id) && effects == [OnResolution(m.id, m.value)]
            else !s'.IsComplete() && effects == [] && s'.acceptors == s.acceptors[m.from := m.id]
                 && s'.proposals.Keys == s.proposals.Keys + {m.id}
                 && Counter(s'.proposals[m.id].acceptCount, s'.proposals[m.id].retentionCount) == c'
                 && forall id <- s.proposals :: id != m.id ==> s'.proposals[id] == s.proposals[id]
  {
  }

  lemma AcceptorsMove(s: LearnerState, s': LearnerState, log: seq<Report>, m: Report)
    requires AcceptorsAre(s, log) && IsNews(log, m) && s'.acceptors == s.acceptors[m.from := m.id]
    ensures AcceptorsAre(s', log + [m])
  {
    hide ProposalId.Compare;
    OneMoreReport(log, m);
    hide CounterOf, HasReported;
    var all := log + [m];
    assert m in all;
    forall a <- s'.acceptors ensures exists x <- all :: x.from == a && x.id == s'.acceptors[a] && x.id.IsValid() {
      if a != m.from {
        var x :| x in log && x.from == a && x.id == s.acceptors[a] && x.id.IsValid();
        assert x in all;
      }
    }
    forall x <- all | x.id.IsValid() ensures x.from in s'.acceptors && x.id.Le(s'.acceptors[x.from]) {
      assert x in log || x == m;
    }
  }

  // ----- when it completes, and what it says

  function Announcements(q: nat, log: seq<Report>): seq<Effect> {
    if log == [] then []
    else
      var before := log[..|log| - 1];
      Announcements(q, before) + Run(q, before).ReceiveAccepted(q, log[|log| - 1]).1
  }

  ghost predicate Values(log: seq<Report>) {
    forall m <- log :: m.value != ""
  }

  /** A learner that reached the quorum at log[k], for the first time. */
  ghost predicate ResolvedAt(q: nat, log: seq<Report>, k: nat) {
    && k < |log| && Reaches(q, log[..k + 1])
    && forall j: nat :: j <= k ==> !Reaches(q, log[..j])
  }

  lemma NothingReported(s: LearnerState)
    requires s == NEW_LEARNER
    ensures BooksAre(s, [])
  {
  }

  ghost predicate Outcome(q: nat, log: seq<Report>) {
    if SomePrefixReaches(q, log)
    then exists k: nat :: ResolvedAt(q, log, k)
           && Run(q, log) == LearnerState(map[], map[], log[k].value, log[k].id)
           && Announcements(q, log) == [OnResolution(log[k].id, log[k].value)]
    else BooksAre(Run(q, log), log) && Announcements(q, log) == []
  }

  lemma PrefixesOfMore(q: nat, log: seq<Report>, m: Report)
    ensures SomePrefixReaches(q, log + [m]) <==> SomePrefixReaches(q, log) || Reaches(q, log + [m])
    ensures forall k: nat :: ResolvedAt(q, log, k) ==> ResolvedAt(q, log + [m], k)
    ensures !SomePrefixReaches(q, log) && Reaches(q, log + [m]) ==> ResolvedAt(q, log + [m], |log|)
  {
    hide Reaches;
    var all := log + [m];
    assert forall k: nat :: k <= |log| ==> all[..k] == log[..k];
    assert all[..|all|] == all && log[..|log|] == log;
    if SomePrefixReaches(q, log) {
      var k: nat :| k <= |log| && Reaches(q, log[..k]);
      assert Reaches(q, all[..k]);
    }
    if Reaches(q, all) { assert Reaches(q, all[..|all|]); }
    if SomePrefixReaches(q, all) && !SomePrefixReaches(q, log) {
      var k: nat :| k <= |all| && Reaches(q, all[..k]);
      assert k == |all|;
    }
  }

  lemma {:induction false} OutcomeAlways(q: nat, log: seq<Report>)
    requires q > 0 && Values(log)
    ensures Outcome(q, log)
  {
    if log == [] {
      NothingReported(Run(q, log));
    } else {
      hide LearnerState.ReceiveAccepted, BooksAre;
      var before, m := log[..|log| - 1], log[|log| - 1];
      assert log == before + [m] && m in log;
      OutcomeAlways(q, before);
      PrefixesOfMore(q, before, m);
      var s := Run(q, before);
      if SomePrefixReaches(q, before) {
        CompleteIsFinal(q, before, [m]);
        CompleteSaysNothing(q, s, m);
        var k: nat :| ResolvedAt(q, before, k) && s == LearnerState(map[], map[], before[k].value, before[k].id)
          && Announcements(q, before) == [OnResolution(before[k].id, before[k].value)];
        assert ResolvedAt(q, log, k) && log[k] == before[k];
      } else {
        OneMoreOutcome(q, before, m);
      }
    }
  }

  lemma CompleteSaysNothing(q: nat, s: LearnerState, m: Report)
    requires s.IsComplete()
    ensures s.ReceiveAccepted(q, m) == (s, [])
  {
  }

  lemma OneMoreOutcome(q: nat, log: seq<Report>, m: Report)
    requires q > 0 && m.value != "" && !SomePrefixReaches(q, log) && BooksAre(Run(q, log), log)
    requires Announcements(q, log) == []
    ensures Outcome(q, log + [m])
  {
    hide BooksAre, LearnerState.ReceiveAccepted, ResolvedAt, SomePrefixReaches, CounterOf, Count, IsNews;
    var all := log + [m];
    assert all[..|all| - 1] == log;
    assert Run(q, all) == Run(q, log).ReceiveAccepted(q, m).0;
    assert Announcements(q, all) == Run(q, log).ReceiveAccepted(q, m).1;
    PrefixesOfMore(q, log, m);
    ReachesIff(q, log, m);
    if IsNews(log, m) {
      NewsCounts(q, Run(q, log), log, m);
      hide Run, Announcements;
    } else {
      NoNewsKeepsBooks(q, Run(q, log), log, m);
      hide Run, Announcements;
    }
  }

  lemma ReachesIff(q: nat, log: seq<Report>, m: Report)
    requires q > 0
    ensures Reaches(q, log + [m]) <==>
              IsNews(log, m) && Count(CounterOf(log, m.id), HasReported(log, m.from), m.blank).approvals >= q
  {
    var all := log + [m];
    assert all[..|all| - 1] == log;
    OneMoreReport(log, m);
    hide HasReported, CounterOf;
  }

  /** WHEN THE LEARNER AS WRITTEN COMPLETES. Over any sequence of reports with values, in any order and
      with any repetitions: exactly when some ballot's counter reaches the quorum. It then holds the
      ballot and value of the report that did it first, and has announced just that; before, it has
      announced nothing. */
  lemma WrittenCompletesIff(q: nat, log: seq<Report>)
    requires q > 0 && Values(log)
    ensures Run(q, log).IsComplete() <==> SomePrefixReaches(q, log)
    ensures !Run(q, log).IsComplete() ==> Announcements(q, log) == []
    ensures Run(q, log).IsComplete() ==>
              Announcements(q, log) == [OnResolution(Run(q, log).finalId, Run(q, log).finalValue)]
    ensures forall k: nat :: ResolvedAt(q, log, k) ==>
              Run(q, log).finalId == log[k].id && Run(q, log).finalValue == log[k].value
  {
    hide Run, BooksAre, Announcements, Reaches;
    OutcomeAlways(q, log);
    if SomePrefixReaches(q, log) {
      var k: nat :| ResolvedAt(q, log, k) && Run(q, log) == LearnerState(map[], map[], log[k].value, log[k].id)
        && Announcements(q, log) == [OnResolution(log[k].id, log[k].value)];
      assert log[k] in log;
      forall j: nat | ResolvedAt(q, log, j) ensures j == k {
        OnlyFirst(q, log, j, k);
      }
    } else {
      BooksAreOpen(Run(q, log), log);
    }
  }

  lemma OnlyFirst(q: nat, log: seq<Report>, j: nat, k: nat)
    requires ResolvedAt(q, log, j) && ResolvedAt(q, log, k)
    ensures j == k
  {
    hide Reaches;
  }

  lemma BooksAreOpen(s: LearnerState, log: seq<Report>)
    requires BooksAre(s, log)
    ensures !s.IsComplete()
  {
  }
}
