/** A plain priority queue, and what heap order means, for any strict weak order. */
module QueueSpec {
  type Less<!T> = (T, T) -> bool

  /** A strict weak order: asymmetric, and "does not come before" is transitive. */
  ghost predicate StrictWeak<T(!new)>(less: Less<T>) {
    && (forall x, y :: less(x, y) ==> !less(y, x))
    && (forall x, y, z :: !less(x, y) && !less(y, z) ==> !less(x, z))
  }

  // ---------------------------------------------------------------- the serial queue

  /** One call on a plain priority queue together with what it returned. */
  datatype Call<T> = Push(elem: T) | PushFailed(elem: T) | Popped(elem: T) | PopFailed

  /** The contents after a sequence of calls. */
  function After<T>(bag: multiset<T>, calls: seq<Call<T>>): multiset<T> {
    if calls == [] then bag else Apply(After(bag, calls[..|calls| - 1]), calls[|calls| - 1])
  }

  function Apply<T>(bag: multiset<T>, c: Call<T>): multiset<T> {
    if c.Push? then bag + multiset{c.elem} else if c.Popped? then bag - multiset{c.elem} else bag
  }

  /** A pop returns an element that none exceeds, and fails just when the queue is empty. */
  ghost predicate Allowed<T(!new)>(less: Less<T>, bag: multiset<T>, call: Call<T>) {
    match call
    case Popped(x) => x in bag && forall y | y in bag :: !less(x, y)
    case PopFailed => bag == multiset{}
    case _ => true
  }

  ghost predicate Legal<T(!new)>(less: Less<T>, bag: multiset<T>, calls: seq<Call<T>>) {
    calls == [] ||
    (Legal(less, bag, calls[..|calls| - 1])
     && Allowed(less, After(bag, calls[..|calls| - 1]), calls[|calls| - 1]))
  }

  lemma Extend<T(!new)>(less: Less<T>, bag: multiset<T>, calls: seq<Call<T>>, c: Call<T>)
    requires Legal(less, bag, calls) && Allowed(less, After(bag, calls), c)
    ensures Legal(less, bag, calls + [c])
    ensures After(bag, calls + [c]) == Apply(After(bag, calls), c)
  {
    assert (calls + [c])[..|calls|] == calls;
  }

  lemma SplitLast<A>(h: seq<A>, s: seq<A>, n: nat)
    requires |s| == n + 1
    ensures h + s == (h + s[..n]) + [s[n]]
  {
  }

  /** Two legal histories, one after the other, are one. */
  lemma {:induction false} Concat<T(!new)>(less: Less<T>, bag: multiset<T>, h: seq<Call<T>>, calls: seq<Call<T>>)
    requires Legal(less, bag, h) && Legal(less, After(bag, h), calls)
    ensures Legal(less, bag, h + calls) && After(bag, h + calls) == After(After(bag, h), calls)
    decreases |calls|
  {
    if calls == [] {
      assert h + calls == h;
    } else {
      var n := |calls| - 1;
      var c, front := calls[n], h + calls[..n];
      Concat(less, bag, h, calls[..n]);
      Extend(less, bag, front, c);
      SplitLast(h, calls, n);
    }
  }

  // ---------------------------------------------------------------- heaps

  function ParentOf(i: int): (p: int)
    requires i >= 1
    ensures 0 <= p < i
  {
    (i - 1) / 2
  }

  /** The element at i does not exceed its parent. */
  ghost predicate Fits<T(!new)>(less: Less<T>, s: seq<T>, i: int)
    requires 1 <= i < |s|
  {
    !less(s[ParentOf(i)], s[i])
  }

  /** The element at i does not exceed the parent of its parent `hole`. */
  ghost predicate FitsAcross<T(!new)>(less: Less<T>, s: seq<T>, i: int)
    requires 1 <= i < |s|
  {
    ParentOf(i) > 0 ==> !less(s[ParentOf(ParentOf(i))], s[i])
  }

  /** The first n elements of s are a heap: no child exceeds its parent. */
  ghost predicate Heap<T(!new)>(less: Less<T>, s: seq<T>, n: nat)
    requires n <= |s|
  {
    forall i :: 1 <= i < n ==> Fits(less, s, i)
  }

  lemma {:induction false} RootIsMax<T(!new)>(less: Less<T>, s: seq<T>, n: nat, i: nat)
    requires StrictWeak(less) && i < n <= |s| && Heap(less, s, n)
    ensures !less(s[0], s[i])
    decreases i
  {
    if i > 0 {
      RootIsMax(less, s, n, ParentOf(i));
      assert Fits(less, s, i);
    }
  }

  /** No element of a heap exceeds its root. */
  lemma NoneAboveRoot<T(!new)>(less: Less<T>, s: seq<T>, n: nat)
    requires StrictWeak(less) && 0 < n <= |s| && Heap(less, s, n)
    ensures forall y | y in multiset(s[..n]) :: !less(s[0], y)
  {
    forall y | y in multiset(s[..n]) ensures !less(s[0], y) {
      var i :| 0 <= i < n && s[..n][i] == y;
      RootIsMax(less, s, n, i);
    }
  }

  /** A heap except that the element at `hole` may be smaller than its children, which still fit
      below the hole's parent. */
  ghost predicate HeapBelow<T(!new)>(less: Less<T>, s: seq<T>, n: nat, hole: nat)
    requires n <= |s|
  {
    forall i :: 1 <= i < n ==> FitsBelow(less, s, i, hole)
  }

  ghost predicate FitsBelow<T(!new)>(less: Less<T>, s: seq<T>, i: int, hole: nat)
    requires 1 <= i < |s|
  {
    if ParentOf(i) == hole then FitsAcross(less, s, i) else Fits(less, s, i)
  }

  /** A heap except that the element at `hole` may exceed its parent, whose other descendants fit. */
  ghost predicate HeapAbove<T(!new)>(less: Less<T>, s: seq<T>, n: nat, hole: nat)
    requires n <= |s|
  {
    forall i :: 1 <= i < n ==> FitsAbove(less, s, i, hole)
  }

  ghost predicate FitsAbove<T(!new)>(less: Less<T>, s: seq<T>, i: int, hole: nat)
    requires 1 <= i < |s|
  {
    (i != hole ==> Fits(less, s, i)) && (ParentOf(i) == hole ==> FitsAcross(less, s, i))
  }

  function Swap<T>(s: seq<T>, i: nat, j: nat): seq<T>
    requires i < |s| && j < |s|
  {
    s[i := s[j]][j := s[i]]
  }

  lemma SwapKeeps<T>(s: seq<T>, i: nat, j: nat, n: nat)
    requires i < n <= |s| && j < n
    ensures multiset(Swap(s, i, j)[..n]) == multiset(s[..n])
    ensures Swap(s, i, j)[n..] == s[n..]
  {
    assert Swap(s, i, j)[..n] == Swap(s[..n], i, j);
    SwapPermutes(s[..n], i, j);
  }

  lemma SwapPermutes<T>(p: seq<T>, i: nat, j: nat)
    requires i < |p| && j < |p|
    ensures multiset(Swap(p, i, j)) == multiset(p)
  {
    if i != j {
      var q := p[i := p[j]];
      assert multiset(q) == multiset(p) - multiset{p[i]} + multiset{p[j]};
      assert multiset(q[j := p[i]]) == multiset(q) - multiset{p[j]} + multiset{p[i]};
    } else {
      assert Swap(p, i, j) == p;
    }
  }

  /** Sifting down: the hole trades places with its higher child. */
  lemma SiftDown<T(!new)>(less: Less<T>, s: seq<T>, n: nat, hole: nat, target: nat)
    requires StrictWeak(less) && n <= |s| && HeapBelow(less, s, n, hole)
    requires 1 <= target < n && ParentOf(target) == hole && !less(s[target], s[hole])
    requires forall i :: 1 <= i < n && ParentOf(i) == hole ==> !less(s[target], s[i])
    ensures HeapBelow(less, Swap(s, hole, target), n, target)
  {
    var s' := Swap(s, hole, target);
    forall i | 1 <= i < n ensures FitsBelow(less, s', i, target) {
      assert FitsBelow(less, s, i, hole) && FitsBelow(less, s, target, hole);
    }
  }

  /** Sifting up: the hole trades places with its smaller parent. */
  lemma SiftUp<T(!new)>(less: Less<T>, s: seq<T>, n: nat, hole: nat)
    requires StrictWeak(less) && 0 < hole < n <= |s| && HeapAbove(less, s, n, hole)
    requires less(s[ParentOf(hole)], s[hole])
    ensures HeapAbove(less, Swap(s, hole, ParentOf(hole)), n, ParentOf(hole))
  {
    var p := ParentOf(hole);
    var s' := Swap(s, hole, p);
    forall i | 1 <= i < n ensures FitsAbove(less, s', i, p) {
      assert FitsAbove(less, s, i, hole);
      if p > 0 { assert FitsAbove(less, s, p, hole); }
    }
  }
}
