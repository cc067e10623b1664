/** Proposal IDs (ballots): a 32-bit number and the UID of the proposer that owns it,
    with the order every role rests on. */
module ProposalIds {

  type Uid = string

  const MAX_NUMBER: int := 0xFFFF_FFFF

  type uint32 = x: int | 0 <= x <= 0xFFFF_FFFF

  /** Byte-wise lexicographic order of UIDs, as std::string compares them. */
  predicate UidLess(a: Uid, b: Uid) {
    b != "" && (a == "" || a[0] < b[0] || (a[0] == b[0] && UidLess(a[1..], b[1..])))
  }

  datatype ProposalId = ProposalId(number: uint32, uid: Uid) {

    predicate IsValid() {
      uid != ""
    }

    function Compare(id: ProposalId): int {
      if number > id.number || (number == id.number && UidLess(id.uid, uid)) then 1
      else if number == id.number && uid == id.uid then 0
      else -1
    }

    predicate Lt(id: ProposalId) { Compare(id) < 0 }
    predicate Eq(id: ProposalId) { Compare(id) == 0 }
    predicate Gt(id: ProposalId) { Compare(id) > 0 }
    predicate Ne(id: ProposalId) { Compare(id) != 0 }
    predicate Le(id: ProposalId): (r: bool)
      ensures r <==> this == id || Lt(id)
    {
      UidLessIrreflexive(uid);
      Lt(id) || Eq(id)
    }
    predicate Ge(id: ProposalId) { Gt(id) || Eq(id) }

    /** The number seen through a 32-bit signed int. */
    function GetNumber(): int {
      if number < 0x8000_0000 then number else number - 0x1_0000_0000
    }

    /** The number set from a signed int, truncated to 32 bits. */
    function SetNumber(n: int): ProposalId {
      ProposalId(n % 0x1_0000_0000, uid)
    }

    /** Unsigned increment: wraps at 2^32. */
    function IncrementNumber(): ProposalId {
      ProposalId((number + 1) % 0x1_0000_0000, uid)
    }
  }

  /** The default-constructed ID. */
  const NO_ID: ProposalId := ProposalId(0, "")

  // ----- the order of UIDs

  lemma {:induction false} UidLessIrreflexive(a: Uid)
    ensures !UidLess(a, a)
  {
    if a != "" {
      UidLessIrreflexive(a[1..]);
    }
  }

  lemma {:induction false} UidLessTransitive(a: Uid, b: Uid, c: Uid)
    requires UidLess(a, b) && UidLess(b, c)
    ensures UidLess(a, c)
  {
    if a != "" && a[0] == b[0] && b[0] == c[0] {
      UidLessTransitive(a[1..], b[1..], c[1..]);
    }
  }

  lemma {:induction false} UidLessTotal(a: Uid, b: Uid)
    ensures a == b || UidLess(a, b) || UidLess(b, a)
  {
    if a != "" && b != "" && a[0] == b[0] {
      UidLessTotal(a[1..], b[1..]);
      assert a == [a[0]] + a[1..];
      assert b == [b[0]] + b[1..];
    }
  }

  /** The UIDs agree up to k, where a ends or holds the smaller character. */
  predicate FirstDifference(a: Uid, b: Uid, k: nat) {
    && k <= |a| && k < |b|
    && a[..k] == b[..k]
    && (k == |a| || a[k] < b[k])
  }

  /** The order against a definition that does not recurse: the first place where the two
      UIDs differ decides, and a proper prefix comes first. Any length, any characters. */
  lemma {:induction false} UidLessIsFirstDifference(a: Uid, b: Uid)
    ensures UidLess(a, b) <==> exists k: nat :: FirstDifference(a, b, k)
  {
    if UidLess(a, b) {
      if a == "" || a[0] < b[0] {
        assert FirstDifference(a, b, 0);
      } else {
        UidLessIsFirstDifference(a[1..], b[1..]);
        var k: nat :| FirstDifference(a[1..], b[1..], k);
        assert a[..k + 1] == [a[0]] + a[1..][..k];
        assert b[..k + 1] == [b[0]] + b[1..][..k];
        assert FirstDifference(a, b, k + 1);
      }
    }
    if k: nat :| FirstDifference(a, b, k) {
      if k > 0 {
        assert a[0] == a[..k][0] == b[..k][0] == b[0];
        assert a[1..][..k - 1] == a[..k][1..];
        assert b[1..][..k - 1] == b[..k][1..];
        assert FirstDifference(a[1..], b[1..], k - 1);
        UidLessIsFirstDifference(a[1..], b[1..]);
      }
    }
  }

  // ----- the order of proposal IDs

  /** compare() and the six operators form one strict total order. */
  lemma OrderIsStrictAndTotal(a: ProposalId, b: ProposalId)
    ensures (a.Lt(b) && a != b && !b.Lt(a)) || (a == b && !a.Lt(b)) || (b.Lt(a) && a != b && !a.Lt(b))
    ensures a.Gt(b) <==> b.Lt(a)
    ensures a.Eq(b) <==> a == b
    ensures a.Ne(b) <==> a != b
    ensures a.Le(b) <==> !b.Lt(a)
    ensures a.Ge(b) <==> !a.Lt(b)
  {
    UidLessIrreflexive(a.uid);
    UidLessTotal(a.uid, b.uid);
    if UidLess(a.uid, b.uid) && UidLess(b.uid, a.uid) {
      UidLessTransitive(a.uid, b.uid, a.uid);
    }
  }

  lemma LtTransitive(a: ProposalId, b: ProposalId, c: ProposalId)
    requires a.Lt(b) && b.Lt(c)
    ensures a.Lt(c)
  {
    OrderIsStrictAndTotal(a, b);
    OrderIsStrictAndTotal(b, c);
    OrderIsStrictAndTotal(a, c);
    if a.number == b.number == c.number {
      UidLessTransitive(a.uid, b.uid, c.uid);
      UidLessIrreflexive(a.uid);
      if UidLess(c.uid, a.uid) {
        UidLessTransitive(a.uid, c.uid, a.uid);
      }
    }
  }

  lemma LeTransitive(a: ProposalId, b: ProposalId, c: ProposalId)
    requires a.Le(b) && b.Le(c)
    ensures a.Le(c)
  {
    if a.Lt(b) && b.Lt(c) {
      LtTransitive(a, b, c);
    }
  }

  lemma LtLeTransitive(a: ProposalId, b: ProposalId, c: ProposalId)
    requires (a.Lt(b) && b.Le(c)) || (a.Le(b) && b.Lt(c))
    ensures a.Lt(c)
  {
    if a.Lt(b) && b.Lt(c) {
      LtTransitive(a, b, c);
    }
  }

  /** The order is lexicographic, number first. */
  lemma OrderIsLexicographic(a: ProposalId, b: ProposalId)
    ensures a.Lt(b) <==> a.number < b.number || (a.number == b.number && UidLess(a.uid, b.uid))
  {
    OrderIsStrictAndTotal(a, b);
    UidLessIrreflexive(a.uid);
    UidLessTotal(a.uid, b.uid);
  }

  /** The default ID is below every other ID, so "not promised yet" loses every comparison. */
  lemma NoIdIsBottom(a: ProposalId)
    ensures NO_ID.Le(a)
    ensures a.Lt(NO_ID) <==> false
    ensures NO_ID.Lt(a) <==> a != NO_ID
    ensures a.IsValid() ==> NO_ID.Lt(a)
  {
    OrderIsLexicographic(NO_ID, a);
    OrderIsStrictAndTotal(NO_ID, a);
  }

  /** Copying a number through the signed accessor pair loses nothing. */
  lemma NumberRoundTrip(from: ProposalId, onto: ProposalId)
    ensures onto.SetNumber(from.GetNumber()) == ProposalId(from.number, onto.uid)
  {
  }

  /** An increment gives a larger ID exactly when the 32-bit number does not wrap. */
  lemma IncrementExceedsIff(a: ProposalId)
    ensures a.Lt(a.IncrementNumber()) <==> a.number != MAX_NUMBER
    ensures a.number != MAX_NUMBER ==> a.IncrementNumber() == ProposalId(a.number + 1, a.uid)
    ensures a.number == MAX_NUMBER ==> a.IncrementNumber() == ProposalId(0, a.uid)
  {
    OrderIsLexicographic(a, a.IncrementNumber());
  }
}
