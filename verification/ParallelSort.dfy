/** parallel_sort: in-place quicksort by splitting ranges, and the pretest that skips sorting. */
module ParallelSort {
  import opened QueueSpec

  // ---------------------------------------------------------------- order

  ghost predicate Sorted<T(!new)>(less: Less<T>, s: seq<T>) {
    forall i, j :: 0 <= i < j < |s| ==> !less(s[j], s[i])
  }

  ghost predicate NoneAbove<T(!new)>(less: Less<T>, s: seq<T>, key: T) {
    forall x | x in s :: !less(key, x)
  }

  ghost predicate NoneBelow<T(!new)>(less: Less<T>, s: seq<T>, key: T) {
    forall x | x in s :: !less(x, key)
  }

  predicate InOrder<T>(less: Less<T>, s: seq<T>, k: nat)
    requires 1 <= k < |s|
  {
    !less(s[k], s[k - 1])
  }

  /** A sequence is sorted if its neighbours are in order. */
  lemma {:induction false} NeighboursSorted<T(!new)>(less: Less<T>, s: seq<T>)
    requires StrictWeak(less) && forall k :: 1 <= k < |s| ==> InOrder(less, s, k)
    ensures Sorted(less, s)
    decreases |s|
  {
    if |s| > 1 {
      var n := |s| - 1;
      var front := s[..n];
      forall k | 1 <= k < |front| ensures InOrder(less, front, k) { assert InOrder(less, s, k); }
      NeighboursSorted(less, front);
      assert InOrder(less, s, n);
      forall i | 0 <= i < n ensures !less(s[n], s[i]) {
        if i < n - 1 { assert !less(front[n - 1], front[i]); }
      }
      forall i, j | 0 <= i < j < |s| ensures !less(s[j], s[i]) {
        if j < n { assert !less(front[j], front[i]); }
      }
    }
  }

  /** Two sorted parts around a key that none of them violates are sorted. */
  lemma JoinSorted<T(!new)>(less: Less<T>, left: seq<T>, key: T, right: seq<T>)
    requires StrictWeak(less) && Sorted(less, left) && Sorted(less, right)
    requires NoneAbove(less, left, key) && NoneBelow(less, right, key)
    ensures Sorted(less, left + [key] + right)
  {
    var s, n := left + [key] + right, |left|;
    forall i, j | 0 <= i < j < |s| ensures !less(s[j], s[i]) {
      if i < n { assert s[i] == left[i] && s[i] in left; }
      if j > n { assert s[j] == right[j - n - 1] && s[j] in right; }
    }
  }

  lemma SameElements<T(!new)>(s: seq<T>, t: seq<T>)
    requires multiset(s) == multiset(t)
    ensures forall x :: x in s <==> x in t
  {
    forall x ensures x in s <==> x in t {
      assert x in s <==> x in multiset(s);
      assert x in t <==> x in multiset(t);
    }
  }

  // ---------------------------------------------------------------- serial sorting

  function Insert<T>(less: Less<T>, s: seq<T>, x: T): seq<T> {
    if s == [] || !less(x, s[|s| - 1]) then s + [x] else Insert(less, s[..|s| - 1], x) + [s[|s| - 1]]
  }

  lemma SnocSorted<T(!new)>(less: Less<T>, s: seq<T>, last: T)
    requires StrictWeak(less) && Sorted(less, s) && NoneAbove(less, s, last)
    ensures Sorted(less, s + [last])
  {
    JoinSorted(less, s, last, []);
    assert s + [last] + [] == s + [last];
  }

  lemma LastIsAbove<T(!new)>(less: Less<T>, s: seq<T>)
    requires StrictWeak(less) && Sorted(less, s) && s != []
    ensures Sorted(less, s[..|s| - 1]) && NoneAbove(less, s[..|s| - 1], s[|s| - 1])
  {
  }

  lemma AtEnd<T(!new)>(less: Less<T>, s: seq<T>, x: T)
    requires StrictWeak(less) && Sorted(less, s) && (s != [] ==> !less(x, s[|s| - 1]))
    ensures Sorted(less, s + [x])
  {
    forall y | y in s ensures !less(x, y) {
      var i :| 0 <= i < |s| && s[i] == y;
      assert i < |s| - 1 ==> !less(s[|s| - 1], s[i]);
    }
    SnocSorted(less, s, x);
  }

  lemma WithElement<T(!new)>(less: Less<T>, s: seq<T>, x: T, t: seq<T>, key: T)
    requires multiset(t) == multiset(s) + multiset{x} && NoneAbove(less, s, key) && !less(key, x)
    ensures NoneAbove(less, t, key)
  {
    forall y | y in t ensures !less(key, y) {
      assert y in multiset(t);
      assert y != x ==> y in multiset(s);
    }
  }

  lemma {:induction false} InsertSorts<T(!new)>(less: Less<T>, s: seq<T>, x: T)
    requires StrictWeak(less) && Sorted(less, s)
    ensures Sorted(less, Insert(less, s, x)) && multiset(Insert(less, s, x)) == multiset(s) + multiset{x}
    decreases |s|
  {
    hide Sorted, NoneAbove;
    if s == [] || !less(x, s[|s| - 1]) {
      AtEnd(less, s, x);
    } else {
      var n := |s| - 1;
      var front, last := s[..n], s[n];
      LastIsAbove(less, s);
      InsertSorts(less, front, x);
      WithElement(less, front, x, Insert(less, front, x), last);
      SnocSorted(less, Insert(less, front, x), last);
      assert s == front + [last];
    }
  }

  /** What the serial sort makes of a sequence.  Any sorted permutation would do. */
  function SerialSort<T>(less: Less<T>, s: seq<T>): seq<T> {
    if s == [] then [] else Insert(less, SerialSort(less, s[..|s| - 1]), s[|s| - 1])
  }

  lemma {:induction false} SerialSorts<T(!new)>(less: Less<T>, s: seq<T>)
    requires StrictWeak(less)
    ensures Sorted(less, SerialSort(less, s)) && multiset(SerialSort(less, s)) == multiset(s)
    ensures |SerialSort(less, s)| == |s|
    decreases |s|
  {
    if s != [] {
      var n := |s| - 1;
      SerialSorts(less, s[..n]);
      InsertSorts(less, SerialSort(less, s[..n]), s[n]);
      assert s == s[..n] + [s[n]];
      assert |multiset(SerialSort(less, s))| == |multiset(s)|;
    }
  }

  // ---------------------------------------------------------------- the pivot

  function MedianOfThree<T>(less: Less<T>, s: seq<T>, l: nat, m: nat, r: nat): (k: nat)
    requires l < |s| && m < |s| && r < |s|
    ensures k == l || k == m || k == r
  {
    if less(s[l], s[m]) then
      if less(s[m], s[r]) then m else if less(s[l], s[r]) then r else l
    else
      if less(s[r], s[m]) then m else if less(s[r], s[l]) then r else l
  }

  /** y lies between x and z. */
  predicate Between<T>(less: Less<T>, x: T, y: T, z: T) {
    (!less(y, x) && !less(z, y)) || (!less(y, z) && !less(x, y))
  }

  lemma IsMedian<T(!new)>(less: Less<T>, s: seq<T>, l: nat, m: nat, r: nat)
    requires StrictWeak(less) && l < |s| && m < |s| && r < |s|
    ensures var k := MedianOfThree(less, s, l, m, r);
            || (k == l && Between(less, s[m], s[l], s[r]))
            || (k == m && Between(less, s[l], s[m], s[r]))
            || (k == r && Between(less, s[l], s[r], s[m]))
  {
  }

  function PseudoMedianOfNine<T>(less: Less<T>, s: seq<T>): (k: nat)
    requires s != []
    ensures k < |s|
  {
    var o := |s| / 8;
    MedianOfThree(less, s, MedianOfThree(less, s, 0, o, o * 2), MedianOfThree(less, s, o * 3, o * 4, o * 5),
                  MedianOfThree(less, s, o * 6, o * 7, |s| - 1))
  }

  function One(b: bool): nat { if b then 1 else 0 }

  /** How many of three elements do not come after the k-th, and how many do not come before it. */
  function NotAfter<T>(less: Less<T>, s: seq<T>, k: nat, l: nat, m: nat, r: nat): nat
    requires k < |s| && l < |s| && m < |s| && r < |s|
  {
    One(!less(s[k], s[l])) + One(!less(s[k], s[m])) + One(!less(s[k], s[r]))
  }

  function NotBefore<T>(less: Less<T>, s: seq<T>, k: nat, l: nat, m: nat, r: nat): nat
    requires k < |s| && l < |s| && m < |s| && r < |s|
  {
    One(!less(s[l], s[k])) + One(!less(s[m], s[k])) + One(!less(s[r], s[k]))
  }

  /** An element that does not come before the median of three does not come before two of them, and so the other
      way round. */
  lemma BesideMedian<T(!new)>(less: Less<T>, s: seq<T>, k: nat, l: nat, m: nat, r: nat)
    requires StrictWeak(less) && k < |s| && l < |s| && m < |s| && r < |s|
    ensures !less(s[k], s[MedianOfThree(less, s, l, m, r)]) ==> NotAfter(less, s, k, l, m, r) >= 2
    ensures !less(s[MedianOfThree(less, s, l, m, r)], s[k]) ==> NotBefore(less, s, k, l, m, r) >= 2
  {
  }

  /** The pseudo-median lies in the middle of nine elements taken from all over the range: four of them, itself
      included, do not come after it, and four do not come before it. */
  lemma NineIsCentral<T(!new)>(less: Less<T>, s: seq<T>)
    requires StrictWeak(less) && s != []
    ensures var k, o := PseudoMedianOfNine(less, s), |s| / 8;
      && NotAfter(less, s, k, 0, o, o * 2) + NotAfter(less, s, k, o * 3, o * 4, o * 5)
         + NotAfter(less, s, k, o * 6, o * 7, |s| - 1) >= 4
      && NotBefore(less, s, k, 0, o, o * 2) + NotBefore(less, s, k, o * 3, o * 4, o * 5)
         + NotBefore(less, s, k, o * 6, o * 7, |s| - 1) >= 4
  {
    var k, o := PseudoMedianOfNine(less, s), |s| / 8;
    var a, b, c := MedianOfThree(less, s, 0, o, o * 2), MedianOfThree(less, s, o * 3, o * 4, o * 5),
                   MedianOfThree(less, s, o * 6, o * 7, |s| - 1);
    assert NotAfter(less, s, k, a, b, c) >= 2 && NotBefore(less, s, k, a, b, c) >= 2 by {
      Irreflexive(less, s[k]);
      BesideMedian(less, s, k, a, b, c);
    }
    BesideMedian(less, s, k, 0, o, o * 2);
    BesideMedian(less, s, k, o * 3, o * 4, o * 5);
    BesideMedian(less, s, k, o * 6, o * 7, |s| - 1);
    hide StrictWeak;
  }

  // ---------------------------------------------------------------- splitting a range in place

  /** Between s and t only the elements from `from` up to `end` have traded places. */
  ghost predicate PartPermuted<T>(s: seq<T>, t: seq<T>, from: nat, end: nat) {
    && from <= end <= |s| == |t| && t[..from] == s[..from] && t[end..] == s[end..]
    && multiset(t[from..end]) == multiset(s[from..end])
  }

  lemma PermutedTwice<T>(s: seq<T>, t: seq<T>, u: seq<T>, from: nat, end: nat)
    requires PartPermuted(s, t, from, end) && PartPermuted(t, u, from, end)
    ensures PartPermuted(s, u, from, end)
  {
  }

  lemma SamePart<T>(s: seq<T>, from: nat, end: nat)
    requires from <= end <= |s|
    ensures PartPermuted(s, s, from, end)
  {
  }

  lemma PermutedPart<T>(s: seq<T>, t: seq<T>, from: nat, end: nat)
    requires PartPermuted(s, t, from, end)
    ensures from <= end <= |s| == |t| && multiset(t[from..end]) == multiset(s[from..end])
  {
  }

  /** Elements that trade places within a part of a range trade places within the range. */
  lemma PermutedWithin<T>(s: seq<T>, t: seq<T>, from: nat, end: nat, begin: nat, finish: nat)
    requires PartPermuted(s, t, from, end) && begin <= from && end <= finish <= |s|
    ensures PartPermuted(s, t, begin, finish)
  {
    assert t[..begin] == t[..from][..begin] && s[..begin] == s[..from][..begin];
    assert t[finish..] == t[end..][finish - end..] && s[finish..] == s[end..][finish - end..];
    assert forall u: seq<T> | |u| == |s| ::
        u[begin..finish] == u[..from][begin..] + u[from..end] + u[end..][..finish - end];
  }

  lemma SwappedPart<T>(before: seq<T>, after: seq<T>, begin: nat, end: nat, i: nat, j: nat)
    requires |before| == |after| && end <= |before| && begin <= i < end && begin <= j < end
    requires after[i] == before[j] && after[j] == before[i]
    requires forall k :: 0 <= k < |before| && k != i && k != j ==> after[k] == before[k]
    ensures PartPermuted(before, after, begin, end)
  {
    hide PartPermuted;
    var p, q := before[begin..end], after[begin..end];
    SwapPermutes(p, i - begin, j - begin);
    forall k | 0 <= k < |q| ensures q[k] == Swap(p, i - begin, j - begin)[k] {
      assert q[k] == after[begin + k] && p[k] == before[begin + k];
    }
    assert q == Swap(p, i - begin, j - begin);
    hide Swap;
    SameOutside(before, after, begin, end);
  }

  lemma SameOutside<T>(before: seq<T>, after: seq<T>, begin: nat, end: nat)
    requires begin <= end <= |before| == |after| && multiset(after[begin..end]) == multiset(before[begin..end])
    requires forall k :: 0 <= k < |before| && !(begin <= k < end) ==> after[k] == before[k]
    ensures PartPermuted(before, after, begin, end)
  {
  }

  method SwapElements<T>(a: array<T>, ghost begin: nat, ghost size: nat, i: nat, j: nat)
    requires begin + size <= a.Length && begin <= i < begin + size && begin <= j < begin + size
    modifies a
    ensures a[i] == old(a[j]) && a[j] == old(a[i]) && PartPermuted(old(a[..]), a[..], begin, begin + size)
    ensures forall k :: 0 <= k < a.Length && k != i && k != j ==> a[k] == old(a[k])
  {
    hide PartPermuted;
    ghost var before := a[..];
    a[i], a[j] := a[j], a[i];
    SwappedPart(before, a[..], begin, begin + size, i, j);
  }

  lemma Irreflexive<T(!new)>(less: Less<T>, x: T)
    requires StrictWeak(less)
    ensures !less(x, x)
  {
  }

  /** Elements up to place i do not come after the key, which is the first element of the range; those
      from place j on do not come before it. */
  ghost predicate Around<T(!new)>(a: array<T>, less: Less<T>, begin: nat, size: nat, i: nat, j: nat)
    requires begin + size <= a.Length && size >= 1
    reads a
  {
    && i < size && j <= size
    && (forall k :: begin <= k <= begin + i ==> !less(a[begin], a[k]))
    && (forall k :: begin + j <= k < begin + size ==> !less(a[k], a[begin]))
  }

  /** The key is at place j: elements before it do not come after it, those behind it not before it. */
  ghost predicate KeyPlaced<T(!new)>(s: seq<T>, less: Less<T>, begin: nat, size: nat, j: nat)
    requires begin + size <= |s|
  {
    j < size
    && NoneAbove(less, s[begin..begin + j], s[begin + j])
    && NoneBelow(less, s[begin + j + 1..begin + size], s[begin + j])
  }

  /** Splits a range around a key: the elements before place j do not come after the key, those behind
      it do not come before it, and both parts are smaller than the range. */
  method Split<T(!new)>(a: array<T>, less: Less<T>, begin: nat, size: nat) returns (j: nat)
    requires StrictWeak(less) && size >= 1 && begin + size <= a.Length
    modifies a
    ensures j < size && PartPermuted(old(a[..]), a[..], begin, begin + size) && KeyPlaced(a[..], less, begin, size, j)
    ensures a[begin + j] == old(a[begin + PseudoMedianOfNine(less, a[begin..begin + size])])
  {
    hide StrictWeak, Around, KeyPlaced, PartPermuted, PseudoMedianOfNine;
    ghost var s0 := a[..];
    ChooseKey(a, less, begin, size);
    var i: nat, more := 0, true;
    j := size;
    while more
      invariant j <= size && PartPermuted(s0, a[..], begin, begin + size) && (if more then i < j else i == j < size)
      invariant Around(a, less, begin, size, i, if more then j else j + 1)
      invariant a[begin] == old(a[begin + PseudoMedianOfNine(less, a[begin..begin + size])])
      decreases if more then j - i + 1 else 0
    {
      ghost var s1 := a[..];
      i, j, more := Narrow(a, less, begin, size, i, j);
      PermutedTwice(s0, s1, a[..], begin, begin + size);
    }
    ghost var s2 := a[..];
    PlaceKey(a, less, begin, size, j);
    PermutedTwice(s0, s2, a[..], begin, begin + size);
  }

  /** Makes the pseudo-median of nine the first element. */
  method ChooseKey<T(!new)>(a: array<T>, less: Less<T>, begin: nat, size: nat)
    requires StrictWeak(less) && size >= 1 && begin + size <= a.Length
    modifies a
    ensures PartPermuted(old(a[..]), a[..], begin, begin + size) && Around(a, less, begin, size, 0, size)
    ensures a[begin] == old(a[begin + PseudoMedianOfNine(less, a[begin..begin + size])])
  {
    var m := PseudoMedianOfNine(less, a[begin..begin + size]);
    if m != 0 { SwapElements(a, begin, size, begin, begin + m); }
    Irreflexive(less, a[begin]);
  }

  /** Puts the key where it belongs. */
  method PlaceKey<T(!new)>(a: array<T>, less: Less<T>, begin: nat, size: nat, j: nat)
    requires size >= 1 && begin + size <= a.Length && j < size && Around(a, less, begin, size, j, j + 1)
    modifies a
    ensures PartPermuted(old(a[..]), a[..], begin, begin + size) && KeyPlaced(a[..], less, begin, size, j)
    ensures a[begin + j] == old(a[begin])
  {
    SwapElements(a, begin, size, begin + j, begin);
  }

  /** One round: both ends move towards each other until they meet or an element on each side belongs to
      the other, and then these two trade places. */
  method Narrow<T(!new)>(a: array<T>, less: Less<T>, begin: nat, size: nat, i0: nat, j0: nat)
    returns (i: nat, j: nat, more: bool)
    requires StrictWeak(less) && size >= 1 && begin + size <= a.Length && i0 < j0 && Around(a, less, begin, size, i0, j0)
    modifies a
    ensures i <= j < j0 && PartPermuted(old(a[..]), a[..], begin, begin + size) && (if more then i0 < i < j else i == j)
    ensures j < size && forall k :: begin + j < k < begin + size ==> !less(a[k], a[begin])
    ensures Around(a, less, begin, size, i, if more then j else j + 1) && a[begin] == old(a[begin])
  {
    hide PartPermuted, StrictWeak;
    SamePart(a[..], begin, begin + size);
    j := ScanDown(a, less, begin, size, i0, j0 - 1);
    i := ScanUp(a, less, begin, i0, j);
    more := i != j;
    if more { SwapElements(a, begin, size, begin + i, begin + j); }
  }

  /** From j on downwards to an element that does not come after the key.  The scan needs no bound: the
      element at i is one. */
  method ScanDown<T(!new)>(a: array<T>, less: Less<T>, begin: nat, size: nat, i: nat, j0: nat) returns (j: nat)
    requires StrictWeak(less) && i <= j0 < size && begin + size <= a.Length && !less(a[begin], a[begin + i])
    ensures i <= j <= j0 && !less(a[begin], a[begin + j])
    ensures forall k :: begin + j < k <= begin + j0 ==> !less(a[k], a[begin])
  {
    j := j0;
    while less(a[begin], a[begin + j])
      invariant i <= j <= j0 && forall k :: begin + j < k <= begin + j0 ==> !less(a[k], a[begin])
      decreases j
    {
      j := j - 1;
    }
  }

  /** From i on upwards to an element that does not come before the key, or to j. */
  method ScanUp<T(!new)>(a: array<T>, less: Less<T>, begin: nat, i0: nat, j: nat) returns (i: nat)
    requires StrictWeak(less) && i0 <= j && begin + j < a.Length
    ensures i0 <= i <= j && (i < j ==> i0 < i && !less(a[begin + i], a[begin]))
    ensures forall k :: begin + i0 < k < begin + i ==> !less(a[begin], a[k])
  {
    i := i0;
    while i != j
      invariant i0 <= i <= j
      invariant forall k :: begin + i0 < k <= begin + i ==> less(a[k], a[begin])
      decreases j - i
    {
      i := i + 1;
      if !less(a[begin + i], a[begin]) { break; }
    }
  }

  // ---------------------------------------------------------------- sorting

  lemma SegmentOf<T>(s: seq<T>, t: seq<T>, from: nat, end: nat, a: nat, b: nat)
    requires PartPermuted(s, t, from, end) && a <= b <= |s| && (b <= from || end <= a)
    ensures t[a..b] == s[a..b]
  {
    forall k | a <= k < b ensures t[k] == s[k] {
      if b <= from {
        assert t[k] == t[..from][k] && s[k] == s[..from][k];
      } else {
        assert t[k] == t[end..][k - end] && s[k] == s[end..][k - end];
      }
    }
  }

  lemma BoundsKept<T(!new)>(less: Less<T>, s: seq<T>, t: seq<T>, key: T)
    requires multiset(s) == multiset(t)
    ensures NoneAbove(less, s, key) ==> NoneAbove(less, t, key)
    ensures NoneBelow(less, s, key) ==> NoneBelow(less, t, key)
  {
    SameElements(s, t);
  }

  /** A split range whose two parts have been sorted is sorted. */
  lemma Assemble<T(!new)>(less: Less<T>, s1: seq<T>, s2: seq<T>, s3: seq<T>, begin: nat, size: nat, j: nat)
    requires StrictWeak(less) && begin + size <= |s1| && KeyPlaced(s1, less, begin, size, j)
    requires PartPermuted(s1, s2, begin, begin + j) && Sorted(less, s2[begin..begin + j])
    requires PartPermuted(s2, s3, begin + j + 1, begin + size) && Sorted(less, s3[begin + j + 1..begin + size])
    ensures Sorted(less, s3[begin..begin + size]) && PartPermuted(s1, s3, begin, begin + size)
  {
    hide Sorted, NoneAbove, NoneBelow, StrictWeak, PartPermuted;
    PermutedPart(s1, s2, begin, begin + j);
    PermutedPart(s2, s3, begin + j + 1, begin + size);
    var m, end := begin + j, begin + size;
    var left, right, key := s3[begin..m], s3[m + 1..end], s1[m];
    SegmentOf(s2, s3, m + 1, end, begin, m);
    SegmentOf(s2, s3, m + 1, end, m, m + 1);
    SegmentOf(s1, s2, begin, m, m, m + 1);
    SegmentOf(s1, s2, begin, m, m + 1, end);
    assert s3[m..m + 1] == s1[m..m + 1] == [key];
    BoundsKept(less, s1[begin..m], left, key);
    BoundsKept(less, s1[m + 1..end], right, key);
    JoinSorted(less, left, key, right);
    assert s3[begin..end] == left + [key] + right;
    PermutedWithin(s1, s2, begin, m, begin, end);
    PermutedWithin(s2, s3, m + 1, end, begin, end);
    PermutedTwice(s1, s2, s3, begin, end);
  }

  const GRAINSIZE: nat := 500

  function Total(leaves: seq<(nat, nat)>): nat {
    if leaves == [] then 0 else Total(leaves[..|leaves| - 1]) + leaves[|leaves| - 1].1
  }

  /** The pieces (begin, size) of a range of `size` elements, with one key between each two of them: none of them has
      been left to the serial sort that the partitioner wanted split and that is divisible. */
  ghost predicate Leaves(leaves: seq<(nat, nat)>, size: nat, wants: (nat, nat) -> bool) {
    && Total(leaves) + |leaves| == size + 1
    && forall i :: 0 <= i < |leaves| ==> leaves[i].1 < GRAINSIZE || !wants(leaves[i].0, leaves[i].1)
  }

  lemma {:induction false} TotalOfBoth(left: seq<(nat, nat)>, right: seq<(nat, nat)>)
    ensures Total(left + right) == Total(left) + Total(right)
    decreases |right|
  {
    if right == [] {
      assert left + right == left;
    } else {
      var n := |right| - 1;
      TotalOfBoth(left, right[..n]);
      assert (left + right)[..|left + right| - 1] == left + right[..n];
    }
  }

  lemma BothLeaves(left: seq<(nat, nat)>, l: nat, right: seq<(nat, nat)>, r: nat, wants: (nat, nat) -> bool)
    requires Leaves(left, l, wants) && Leaves(right, r, wants)
    ensures Leaves(left + right, l + 1 + r, wants)
  {
    TotalOfBoth(left, right);
  }

  /** Sorts a range: a divisible range is split if the partitioner wants it, and the others are sorted serially. */
  method QuickSort<T(!new)>(a: array<T>, less: Less<T>, begin: nat, size: nat, wants: (nat, nat) -> bool)
    returns (ghost leaves: seq<(nat, nat)>)
    requires StrictWeak(less) && begin + size <= a.Length
    modifies a
    ensures Sorted(less, a[begin..begin + size]) && PartPermuted(old(a[..]), a[..], begin, begin + size)
    ensures Leaves(leaves, size, wants)
    decreases size
  {
    hide StrictWeak, Sorted;
    if size >= GRAINSIZE && wants(begin, size) {
      leaves := SplitAndSort(a, less, begin, size, wants);
    } else {
      leaves := [(begin, size)];
      assert Total(leaves[..0]) == 0;
      SerialSorts(less, a[begin..begin + size]);
      WriteBack(a, begin, size, SerialSort(less, a[begin..begin + size]));
    }
  }

  method SplitAndSort<T(!new)>(a: array<T>, less: Less<T>, begin: nat, size: nat, wants: (nat, nat) -> bool)
    returns (ghost leaves: seq<(nat, nat)>)
    requires StrictWeak(less) && size >= GRAINSIZE && begin + size <= a.Length
    modifies a
    ensures Sorted(less, a[begin..begin + size]) && PartPermuted(old(a[..]), a[..], begin, begin + size)
    ensures Leaves(leaves, size, wants)
    decreases size, 0
  {
    hide StrictWeak, Sorted, KeyPlaced, PartPermuted, Leaves, PseudoMedianOfNine;
    ghost var s0 := a[..];
    var j := Split(a, less, begin, size);
    ghost var s1 := a[..];
    ghost var left := QuickSort(a, less, begin, j, wants);
    ghost var s2 := a[..];
    assert s2[begin..begin + j] == a[begin..begin + j];
    ghost var right := QuickSort(a, less, begin + j + 1, size - j - 1, wants);
    leaves := left + right;
    BothLeaves(left, j, right, size - j - 1, wants);
    ghost var s3 := a[..];
    assert s3[begin + j + 1..begin + size] == a[begin + j + 1..begin + j + 1 + (size - j - 1)];
    Assemble(less, s1, s2, s3, begin, size, j);
    assert s3[begin..begin + size] == a[begin..begin + size];
    PermutedTwice(s0, s1, s3, begin, begin + size);
  }

  method WriteBack<T>(a: array<T>, begin: nat, size: nat, s: seq<T>)
    requires begin + size <= a.Length && |s| == size && multiset(s) == multiset(a[begin..begin + size])
    modifies a
    ensures a[begin..begin + size] == s && PartPermuted(old(a[..]), a[..], begin, begin + size)
  {
    var i := 0;
    while i < size
      invariant i <= size
      invariant forall k :: 0 <= k < i ==> a[begin + k] == s[k]
      invariant forall k :: 0 <= k < a.Length && (k < begin || begin + size <= k) ==> a[k] == old(a[k])
    {
      a[begin + i] := s[i];
      i := i + 1;
    }
    assert a[begin..begin + size] == s;
    assert a[..][begin..begin + size] == s && old(a[..])[begin..begin + size] == old(a[begin..begin + size]);
    assert a[..][..begin] == old(a[..])[..begin] && a[..][begin + size..] == old(a[..])[begin + size..];
  }

  // ---------------------------------------------------------------- the pretest

  const SERIAL_CUTOFF: nat := 9

  /** A task of the pretest, about to compare element k with its predecessor, or to stop because k is the end
      of its piece. */
  datatype Task = Task(from: nat, end: nat, k: nat, stopped: bool)

  predicate Running(t: Task) { !t.stopped && t.k != t.end }

  ghost predicate TaskOk<T(!new)>(less: Less<T>, s: seq<T>, t: Task, cancelled: bool) {
    && 1 <= t.from <= t.k <= t.end <= |s| && (t.stopped ==> cancelled)
    && forall x :: t.from <= x < t.k ==> InOrder(less, s, x)
  }

  ghost predicate Disordered<T(!new)>(less: Less<T>, s: seq<T>) { exists x :: 1 <= x < |s| && !InOrder(less, s, x) }

  /** One round of a task's loop: it stops at an element that is out of order, and, at every 64th element, if
      a task has found one. */
  method PretestBody<T(!new)>(less: Less<T>, s: seq<T>, t: Task, cancelled0: bool) returns (t': Task, cancelled: bool)
    requires TaskOk(less, s, t, cancelled0) && Running(t)
    ensures TaskOk(less, s, t', cancelled) && t'.from == t.from && t'.end == t.end
    ensures t'.stopped <==> (cancelled0 && (t.k - t.from) % 64 == 0) || !InOrder(less, s, t.k)
    ensures t'.k == if t'.stopped then t.k else t.k + 1
    ensures cancelled <==> cancelled0 || !InOrder(less, s, t.k)
  {
    t', cancelled := t, cancelled0;
    if (t.k - t.from) % 64 == 0 && cancelled {
      t' := t.(stopped := true);
    } else if less(s[t.k], s[t.k - 1]) {
      cancelled := true;
      t' := t.(stopped := true);
    } else {
      t' := t.(k := t.k + 1);
    }
  }

  /** The rounds that the tasks may still take. */
  function Rounds(tasks: seq<Task>): nat
    requires forall p :: 0 <= p < |tasks| ==> tasks[p].k <= tasks[p].end
  {
    if tasks == [] then 0
    else (if Running(tasks[0]) then tasks[0].end - tasks[0].k else 0) + Rounds(tasks[1..])
  }

  lemma {:induction false} RoundTaken(tasks: seq<Task>, p: nat, t: Task)
    requires forall q :: 0 <= q < |tasks| ==> tasks[q].k <= tasks[q].end
    requires p < |tasks| && Running(tasks[p]) && t.k <= t.end == tasks[p].end && (t.stopped || t.k == tasks[p].k + 1)
    ensures Rounds(tasks[p := t]) < Rounds(tasks)
    decreases |tasks|
  {
    if p > 0 {
      RoundTaken(tasks[1..], p - 1, t);
      assert tasks[p := t][1..] == tasks[1..][p - 1 := t];
    }
  }

  /** The pieces into which parallel_for has cut the rest of the range. */
  ghost predicate Covers(pieces: seq<(nat, nat)>, from: nat, end: nat) {
    && (forall p :: 0 <= p < |pieces| ==> from <= pieces[p].0 <= pieces[p].1 <= end)
    && (forall k :: from <= k < end ==> InPiece(pieces, k))
  }

  predicate InPiece(pieces: seq<(nat, nat)>, k: int) {
    exists p :: 0 <= p < |pieces| && pieces[p].0 <= k < pieces[p].1
  }

  /** The pretest: true if and only if the whole sequence is sorted, neighbours at the serial cutoff and
      at the borders of the pieces included. */
  method Pretest<T(!new)>(less: Less<T>, s: seq<T>, pieces: seq<(nat, nat)>) returns (presorted: bool)
    requires StrictWeak(less) && |s| > SERIAL_CUTOFF && Covers(pieces, SERIAL_CUTOFF + 1, |s|)
    ensures presorted <==> Sorted(less, s)
  {
    var k := 0;
    while k != SERIAL_CUTOFF
      invariant k <= SERIAL_CUTOFF && forall x :: 1 <= x <= k ==> InOrder(less, s, x)
      decreases SERIAL_CUTOFF - k
    {
      if less(s[k + 1], s[k]) { return false; }
      assert InOrder(less, s, k + 1);
      k := k + 1;
    }
    presorted := PretestPieces(less, s, pieces);
    if presorted {
      forall x | 1 <= x < |s| ensures InOrder(less, s, x) {
        assert x > SERIAL_CUTOFF ==> InPiece(pieces, x);
      }
      NeighboursSorted(less, s);
    }
  }

  /** The tasks run at the same time: their rounds are taken in any order, and a task may find another's
      element, or not, at any of its rounds. */
  method PretestPieces<T(!new)>(less: Less<T>, s: seq<T>, pieces: seq<(nat, nat)>) returns (presorted: bool)
    requires forall p :: 0 <= p < |pieces| ==> 1 <= pieces[p].0 <= pieces[p].1 <= |s|
    ensures !presorted ==> Disordered(less, s)
    ensures presorted ==> forall x :: 1 <= x < |s| && InPiece(pieces, x) ==> InOrder(less, s, x)
  {
    var tasks := seq(|pieces|, p requires 0 <= p < |pieces| => Task(pieces[p].0, pieces[p].1, pieces[p].0, false));
    var cancelled := false;
    while exists p :: 0 <= p < |tasks| && Running(tasks[p])
      invariant |tasks| == |pieces|
      invariant forall p :: 0 <= p < |tasks| ==>
                  TaskOk(less, s, tasks[p], cancelled) && (tasks[p].from, tasks[p].end) == pieces[p]
      invariant cancelled ==> Disordered(less, s)
      decreases Rounds(tasks)
    {
      var p :| 0 <= p < |tasks| && Running(tasks[p]);
      var t;
      t, cancelled := PretestBody(less, s, tasks[p], cancelled);
      RoundTaken(tasks, p, t);
      tasks := tasks[p := t];
    }
    presorted := !cancelled;
    if presorted {
      forall x | 1 <= x < |s| && InPiece(pieces, x) ensures InOrder(less, s, x) {
        var p :| 0 <= p < |pieces| && pieces[p].0 <= x < pieces[p].1;
        assert !Running(tasks[p]) && TaskOk(less, s, tasks[p], false);
      }
    }
  }

  const MIN_PARALLEL_SIZE: nat := 500

  /** parallel_sort */
  method Sort<T(!new)>(a: array<T>, less: Less<T>, pieces: seq<(nat, nat)>, wants: (nat, nat) -> bool)
    requires StrictWeak(less) && (a.Length >= MIN_PARALLEL_SIZE ==> Covers(pieces, SERIAL_CUTOFF + 1, a.Length))
    modifies a
    ensures Sorted(less, a[..]) && multiset(a[..]) == multiset(old(a[..]))
    ensures a.Length >= MIN_PARALLEL_SIZE && old(Sorted(less, a[..])) ==> a[..] == old(a[..])
  {
    var n := a.Length;
    assert a[0..0 + n] == a[..];
    if n > 0 {
      var presorted := false;
      if n >= MIN_PARALLEL_SIZE { presorted := Pretest(less, a[..], pieces); }
      if !presorted { var _ := QuickSort(a, less, 0, n, wants); }
      assert a[0..0 + n] == a[..] && a[..][0..0 + n] == a[..] && old(a[..])[0..0 + n] == old(a[..]);
    }
  }
}
