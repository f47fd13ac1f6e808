/** Growing arrays in segments: segment 0 holds elements 0 and 1, and segment k the 2^k elements from 2^k
    on.  The hash table's buckets and the elements of a concurrent vector are laid out like this. */
module Segments {
  import opened HashPaths

  /** The numbers of segments that a concurrent vector's tables have room for. */
  const SHORT_TABLE: nat := 3
  const LONG_TABLE: nat := 64

  /** a & b */
  function And(a: nat, b: nat): nat {
    if a == 0 || b == 0 then 0 else 2 * And(a / 2, b / 2) + (if a % 2 == 1 && b % 2 == 1 then 1 else 0)
  }

  ghost predicate IsPow2(k: nat) { exists n: nat :: k == Pow2(n) }

  lemma {:induction false} AndPredecessor(m: nat)
    requires m >= 1
    ensures And(m, m - 1) == 0 <==> IsPow2(m)
    decreases m
  {
    if m == 1 {
      assert Pow2(0) == 1;
    } else if m % 2 == 0 {
      AndPredecessor(m / 2);
      assert (m - 1) / 2 == m / 2 - 1;
      HalfIsPow2(m);
    } else {
      assert And(m, m - 1) == 2 * And(m / 2, m / 2);
      AndSelf(m / 2);
      OddIsNoPow2(m);
    }
  }

  lemma {:induction false} AndSelf(m: nat)
    ensures And(m, m) == m
  {
    if m > 0 { AndSelf(m / 2); }
  }

  lemma HalfIsPow2(m: nat)
    requires m >= 2 && m % 2 == 0
    ensures IsPow2(m) <==> IsPow2(m / 2)
  {
    if n: nat :| m == Pow2(n) { assert m / 2 == Pow2(n - 1); }
    if n: nat :| m / 2 == Pow2(n) { assert m == Pow2(n + 1); }
  }

  lemma OddIsNoPow2(m: nat)
    requires m > 1 && m % 2 == 1
    ensures !IsPow2(m)
  {
    forall n: nat ensures m != Pow2(n) {
      assert n > 0 ==> Pow2(n) == 2 * Pow2(n - 1);
    }
  }

  /** The test for the beginning of a segment: k & (k - 2) is 0 just for 0 and the powers of two from
      2 on. */
  lemma WizardTest(k: nat)
    requires k >= 2
    ensures And(k, k - 2) == 0 <==> IsPow2(k)
  {
    if k % 2 == 0 {
      AndPredecessor(k / 2);
      assert (k - 2) / 2 == k / 2 - 1;
      HalfIsPow2(k);
    } else {
      OddIsNoPow2(k);
    }
  }

  function SegmentOf(index: nat): nat { Level(index) - 1 }

  function SegmentBase(s: nat): nat { if s == 0 then 0 else Pow2(s) }

  /** An element's address: its segment and its place there. */
  datatype Ptr = Ptr(segment: nat, offset: nat)

  function Locate(index: nat): (p: Ptr)
    ensures SegmentBase(p.segment) + p.offset == index
  {
    assert SegmentOf(index) > 0 ==> Pow2(SegmentOf(index)) <= index;
    Ptr(SegmentOf(index), index - SegmentBase(SegmentOf(index)))
  }

  lemma SameLevel(k: nat)
    requires k >= 3 && !IsPow2(k)
    ensures Level(k - 1) == Level(k)
  {
    hide Level;
    var n := Level(k);
    assert k != Pow2(n - 1);
    LevelMonotone(k - 1, k);
    if Level(k - 1) < n { Pow2Monotone(Level(k - 1), n - 1); }
  }

  /** Where no segment begins, the next place in the same segment is the next element. */
  lemma NextInSegment(k: nat)
    requires k == 1 || (k >= 2 && And(k, k - 2) != 0)
    ensures var p := Locate(k - 1); Locate(k) == Ptr(p.segment, p.offset + 1)
  {
    if k >= 2 {
      NoSegmentBegins(k);
      SameLevel(k);
      hide And, Level, Pow2;
      assert SegmentOf(k) == SegmentOf(k - 1);
    } else {
      assert Level(0) == 1 && Level(1) == 1;
    }
  }

  lemma NoSegmentBegins(k: nat)
    requires k >= 2 && And(k, k - 2) != 0
    ensures k >= 3 && !IsPow2(k)
  {
    WizardTest(k);
    assert Pow2(1) == 2;
  }

  /** is_power_of_two_factor(k, 2).  For k = 1 the difference wraps around to all ones. */
  predicate BeginsSegment(k: nat)
    requires k > 0
  {
    k != 1 && And(k, k - 2) == 0
  }

  /** Where no segment begins, an element is in the segment of the one before, one place behind it. */
  lemma SameSegment(k: nat)
    requires k > 0 && !BeginsSegment(k)
    ensures SegmentOf(k) == SegmentOf(k - 1) && Locate(k).offset == Locate(k - 1).offset + 1
  {
    hide And, Level, Pow2;
    NextInSegment(k);
  }

  lemma NewSegment(k: nat)
    requires k > 0 && BeginsSegment(k)
    ensures SegmentOf(k) != SegmentOf(k - 1)
  {
    WizardTest(k);
    var n: nat :| k == Pow2(n);
    assert Pow2(0) == 1;
    assert k == SegmentBase(n);
    hide And, Level, Pow2;
    SegmentBounds(k);
    SegmentBounds(k - 1);
    LocateUnique(k, n);
  }

  function SegmentLength(s: nat): nat { if s == 0 then 2 else Pow2(s) }

  /** An element's segment is the one that the element's index falls into. */
  lemma SegmentBounds(index: nat)
    ensures SegmentBase(SegmentOf(index)) <= index < SegmentBase(SegmentOf(index) + 1)
  {
    assert Pow2(SegmentOf(index) + 1) == Pow2(Level(index));
  }

  lemma {:induction false} BaseMonotone(s: nat, t: nat)
    requires s <= t
    ensures SegmentBase(s) <= SegmentBase(t)
    ensures s < t ==> SegmentBase(s) + SegmentLength(s) <= SegmentBase(t)
  {
    Pow2Monotone(s, t);
    if s < t { Pow2Monotone(s + 1, t); }
  }

  /** The places of the segments and the indices are in one-to-one correspondence. */
  lemma LocateUnique(index: nat, s: nat)
    requires SegmentBase(s) <= index < SegmentBase(s) + SegmentLength(s)
    ensures Locate(index) == Ptr(s, index - SegmentBase(s))
  {
    hide Level, Pow2, SegmentBase, SegmentLength;
    var t := SegmentOf(index);
    SegmentBounds(index);
    if t < s { BaseMonotone(t + 1, s); }
    if s < t { BaseMonotone(s, t); }
  }
}
