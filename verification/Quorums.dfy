/** Counting facts about finite sets of nodes. */
module Quorums {

  lemma {:induction false} SubsetSize<T>(a: set<T>, b: set<T>)
    requires a <= b
    ensures |a| <= |b|
    ensures |a| == |b| ==> a == b
  {
    assert b == a + (b - a);
  }

  /** Two sets of at least q of fewer than 2q nodes share a node. */
  lemma QuorumsIntersect<T>(nodes: set<T>, q: nat, a: set<T>, b: set<T>) returns (x: T)
    requires a <= nodes && b <= nodes
    requires |a| >= q && |b| >= q && |nodes| < 2 * q
    ensures x in a && x in b
  {
    if a * b == {} {
      assert |a + b| == |a| + |b|;
      SubsetSize(a + b, nodes);
      assert false;
    }
    x :| x in a * b;
  }
}
