/** The serial operations of the incremental hash table: reserve, rehash and a lookup that does not
    rehash.  They run while no concurrent operation is under way. */
module HashMapSerial {
  import opened HashPaths
  import opened HashMapProtocol
  import opened HashMapInvariant
  import opened HashMapProof

  // ---------------------------------------------------------------- how rehashing spreads

  /** Rehashed buckets stay so, and a bucket is rehashed only if its parent is. */
  ghost predicate Spreads(b: seq<Bucket>, b': seq<Bucket>) {
    && (forall j: nat :: IsChain(b, j) ==> IsChain(b', j))
    && (forall j: nat :: IsChain(b', j) && !IsChain(b, j) ==> j >= 2 && IsChain(b', Parent(j)))
  }

  lemma SpreadsOn(b: seq<Bucket>, b': seq<Bucket>, b'': seq<Bucket>)
    requires Spreads(b, b') && Spreads(b', b'')
    ensures Spreads(b, b'')
  {
  }

  /** What spreads keeps the closure under parent and the shape of the last segment. */
  lemma SpreadsKeeps(b: seq<Bucket>, b': seq<Bucket>, k: nat)
    requires Spreads(b, b')
    ensures ClosedUp(b) ==> ClosedUp(b')
    ensures LastRehashed(b, k) ==> LastRehashed(b', k)
    ensures LastParented(b, k) ==> LastParented(b', k)
  {
  }

  /** Where rehashing has not come on a key's own path, it has not come beside it. */
  lemma {:induction false} ClearKept(b: seq<Bucket>, b': seq<Bucket>, h: nat, loc: nat, loc': nat, p: nat, x: nat)
    requires Spreads(b, b') && ClearBelow(b, h, loc) && loc <= loc' && DeepestFor(b', h, loc')
    requires OnPath(p, h) && loc' < p && OnPath(p, x)
    ensures !IsChain(b', x)
    decreases x
  {
    PathIsBelow(p, x);
    if IsChain(b', x) && p < x {
      SmallMod(x, Level(x));
      PathBetween(p, x, x);
      PathParent(x, x);
      PathOfPath(p, Parent(x), x);
      ClearKept(b, b', h, loc, loc', p, Parent(x));
    }
  }

  lemma KeysStayClear(hash: Key -> nat, b: seq<Bucket>, a: Abs, b': seq<Bucket>, a': Abs)
    requires Spreads(b, b') && KeysClear(hash, b, a) && Stored(b, a) && InPlace(hash, b, a) && InPlace(hash, b', a')
    requires a'.loc.Keys == a.loc.Keys
    ensures KeysClear(hash, b', a')
  {
    forall key | key in a'.loc ensures ClearBelow(b', hash(key), a'.loc[key]) {
      var h, loc, loc' := hash(key), a.loc[key], a'.loc[key];
      assert key in a.loc && OnPath(loc, h) && DeepestFor(b', h, loc') && ClearBelow(b, h, loc);
      StoredIsChain(b, a, key);
      forall p: nat, x: nat | OnPath(p, h) && loc' < p && OnPath(p, x) ensures !IsChain(b', x) {
        ClearKept(b, b', h, loc, loc', p, x);
      }
    }
  }

  /** In a table closed under parent there is nothing below a key anyway. */
  lemma {:induction false} ClosedIsClear(buckets: seq<Bucket>, h: nat, loc: nat, p: nat, x: nat)
    requires ClosedUp(buckets) && DeepestFor(buckets, h, loc) && OnPath(p, h) && loc < p && OnPath(p, x)
    ensures !IsChain(buckets, x)
    decreases x
  {
    PathIsBelow(p, x);
    if IsChain(buckets, x) && p < x {
      SmallMod(x, Level(x));
      PathBetween(p, x, x);
      PathParent(x, x);
      PathOfPath(p, Parent(x), x);
      ClosedIsClear(buckets, h, loc, p, Parent(x));
    }
  }

  /** No bucket is marked "rehash required". */
  ghost predicate AllRehashed(buckets: seq<Bucket>) {
    forall j: nat :: j < |buckets| ==> IsChain(buckets, j)
  }

  lemma ClosedKeysClear(hash: Key -> nat, buckets: seq<Bucket>, a: Abs)
    requires ClosedUp(buckets) && InPlace(hash, buckets, a)
    ensures KeysClear(hash, buckets, a)
  {
    forall key | key in a.loc ensures ClearBelow(buckets, hash(key), a.loc[key]) {
      forall p: nat, x: nat | OnPath(p, hash(key)) && a.loc[key] < p && OnPath(p, x) ensures !IsChain(buckets, x) {
        assert DeepestFor(buckets, hash(key), a.loc[key]);
        ClosedIsClear(buckets, hash(key), a.loc[key], p, x);
      }
    }
  }

  // ---------------------------------------------------------------- marking a subtree

  /** On j's path no bucket above h is rehashed, up to and including j. */
  ghost predicate Gap(buckets: seq<Bucket>, h: nat, j: nat) {
    OnPath(h, j) && h < j < |buckets| && forall i: nat :: h < i <= j && OnPath(i, j) ==> !IsChain(buckets, i)
  }

  /** The buckets under h that have no other rehashed ancestor, and differ from h in the low n bits,
      have become empty rehashed buckets; nothing else has changed. */
  ghost predicate MarkedUnder(old_: seq<Bucket>, buckets: seq<Bucket>, h: nat, n: nat) {
    && |buckets| == |old_|
    && forall j: nat :: j < |old_| ==> MarkAt(old_, buckets, h, n, j)
  }

  ghost predicate MarkAt(old_: seq<Bucket>, buckets: seq<Bucket>, h: nat, n: nat, j: nat)
    requires j < |old_| == |buckets|
  {
    buckets[j] == if Gap(old_, h, j) && j % Pow2(n) != h then Chain([]) else old_[j]
  }

  /** The child of h on the next level. */
  lemma ChildOf(h: nat, n: nat)
    requires Level(h) <= n
    ensures var c := h + Pow2(n); h < Pow2(n) && Level(c) == n + 1 && Parent(c) == h && c < Pow2(n + 1)
  {
    Pow2Monotone(Level(h), n);
    var p := Pow2(n);
    assert h < p && Pow2(n + 1) == p + p;
    hide Level, Pow2, Parent;
    LevelExact(h + p, n);
    ParentOf(h, n);
  }

  lemma ParentOf(h: nat, n: nat)
    requires h < Pow2(n) && h + Pow2(n) >= 2 && Level(h + Pow2(n)) == n + 1
    ensures Parent(h + Pow2(n)) == h
  {
    hide Level, Pow2;
  }

  lemma LevelExact(j: nat, n: nat)
    requires n >= 1 && Pow2(n) <= j < Pow2(n + 1)
    ensures j >= 2 && Level(j) == n + 1
  {
    Pow2Monotone(1, n);
    assert Pow2(1) == 2;
    LevelBound(j, n + 1);
    hide Pow2;
    if Level(j) < n + 1 { Pow2Monotone(Level(j), n); }
  }

  /** One more bit of j either agrees with h or leads to the child of h on that level. */
  lemma NextBit(h: nat, n: nat, j: nat)
    requires Level(h) <= n && j % Pow2(n) == h
    ensures j % Pow2(n + 1) == h || j % Pow2(n + 1) == h + Pow2(n)
    ensures j % Pow2(n + 1) == h + Pow2(n) <==> OnPath(h + Pow2(n), j)
  {
    ChildOf(h, n);
    ModMod(j, n, n + 1);
    var x := j % Pow2(n + 1);
    assert x < 2 * Pow2(n);
    if x >= Pow2(n) { DivModUnique(x, Pow2(n), 1, x - Pow2(n)); } else { DivModUnique(x, Pow2(n), 0, x); }
  }

  lemma CutsAgree(h: nat, n: nat, j: nat)
    requires j % Pow2(n + 1) == h && h < Pow2(n)
    ensures j % Pow2(n) == h
  {
    ModMod(j, n, n + 1);
    SmallMod(h, n);
  }

  /** The bucket of j's path after h. */
  lemma ChildIsNext(h: nat, n: nat, j: nat, i: nat)
    requires Level(h) <= n && OnPath(h + Pow2(n), j) && OnPath(i, j) && h < i
    ensures h + Pow2(n) <= i
  {
    hide Level, Pow2, Parent;
    ChildOf(h, n);
    if i < h + Pow2(n) { PathBetween(i, h + Pow2(n), j); }
  }

  lemma GapOfChild(buckets: seq<Bucket>, h: nat, n: nat, j: nat)
    requires Level(h) <= n && OnPath(h + Pow2(n), j) && OnPath(h, j) && h + Pow2(n) <= j < |buckets|
    requires h + Pow2(n) < |buckets| && buckets[h + Pow2(n)].RehashReq?
    ensures var c := h + Pow2(n);
            Gap(buckets, h, j) <==> j == c || Gap(buckets[c := Chain([])], c, j)
  {
    var c := h + Pow2(n);
    forall i: nat | h < i <= j && OnPath(i, j) ensures c <= i { ChildIsNext(h, n, j, i); }
    if Gap(buckets, h, j) && j != c {
      forall i: nat | c < i <= j && OnPath(i, j) ensures !IsChain(buckets[c := Chain([])], i) { }
    }
    if j == c || Gap(buckets[c := Chain([])], c, j) {
      forall i: nat | h < i <= j && OnPath(i, j) ensures !IsChain(buckets, i) {
        if i != c { assert !IsChain(buckets[c := Chain([])], i); }
      }
    }
  }

  /** A rehashed child ends every gap that leads through it. */
  lemma SkipChild(old_: seq<Bucket>, buckets: seq<Bucket>, h: nat, n: nat)
    requires Level(h) <= n && MarkedUnder(old_, buckets, h, n) && IsChain(old_, h + Pow2(n))
    ensures MarkedUnder(old_, buckets, h, n + 1)
  {
    var m := n + 1;
    forall j: nat | j < |old_| ensures MarkAt(old_, buckets, h, m, j) {
      assert MarkAt(old_, buckets, h, n, j);
      if j % Pow2(n) == h {
        NextBit(h, n, j);
        if OnPath(h + Pow2(n), j) { PathIsBelow(h + Pow2(n), j); }
      }
      ChildOf(h, n);
      if j % Pow2(n + 1) == h { CutsAgree(h, n, j); }
    }
  }

  /** Every bucket under h without another rehashed ancestor has become an empty rehashed one. */
  ghost predicate SubtreeMarked(old_: seq<Bucket>, buckets: seq<Bucket>, h: nat) {
    && |buckets| == |old_|
    && forall j: nat :: j < |old_| ==> buckets[j] == if Gap(old_, h, j) then Chain([]) else old_[j]
  }

  lemma SameCut(i: nat, j: nat, n: nat)
    requires OnPath(i, j) && n <= Level(i)
    ensures i % Pow2(n) == j % Pow2(n)
  {
    ModMod(j, n, Level(i));
  }

  /** Marking a child and the buckets under it. */
  lemma TakeChild(old_: seq<Bucket>, b0: seq<Bucket>, b1: seq<Bucket>, h: nat, n: nat)
    requires Level(h) <= n && h + Pow2(n) < |old_| && MarkedUnder(old_, b0, h, n)
    requires b0[h + Pow2(n)].RehashReq? && SubtreeMarked(b0[h + Pow2(n) := Chain([])], b1, h + Pow2(n))
    ensures MarkedUnder(old_, b1, h, n + 1)
  {
    hide OnPath, MarkAt;
    var m := n + 1;
    forall j: nat | j < |old_| ensures MarkAt(old_, b1, h, m, j) {
      if OnPath(h + Pow2(n), j) { TakeUnderChild(old_, b0, b1, h, n, j); } else { TakeBeside(old_, b0, b1, h, n, j); }
    }
  }

  /** A bucket that is not under the child differs from h in n bits if it does in n + 1. */
  lemma BesideChild(h: nat, n: nat, j: nat)
    requires Level(h) <= n && !OnPath(h + Pow2(n), j)
    ensures j % Pow2(n) == h <==> j % Pow2(n + 1) == h
    ensures j != h + Pow2(n)
  {
    ChildOf(h, n);
    SmallMod(h + Pow2(n), n + 1);
    if j % Pow2(n) == h { NextBit(h, n, j); }
    if j % Pow2(n + 1) == h { CutsAgree(h, n, j); }
  }

  lemma TakeBeside(old_: seq<Bucket>, b0: seq<Bucket>, b1: seq<Bucket>, h: nat, n: nat, j: nat)
    requires Level(h) <= n && h + Pow2(n) < |old_| && MarkedUnder(old_, b0, h, n)
    requires b0[h + Pow2(n)].RehashReq? && SubtreeMarked(b0[h + Pow2(n) := Chain([])], b1, h + Pow2(n))
    requires j < |old_| && !OnPath(h + Pow2(n), j)
    ensures |b1| == |old_| && MarkAt(old_, b1, h, n + 1, j)
  {
    assert MarkAt(old_, b0, h, n, j);
    BesideChild(h, n, j);
    hide OnPath, Level, Pow2;
    assert b1[j] == b0[j];
  }

  lemma TakeUnderChild(old_: seq<Bucket>, b0: seq<Bucket>, b1: seq<Bucket>, h: nat, n: nat, j: nat)
    requires Level(h) <= n && h + Pow2(n) < |old_| && MarkedUnder(old_, b0, h, n)
    requires b0[h + Pow2(n)].RehashReq? && SubtreeMarked(b0[h + Pow2(n) := Chain([])], b1, h + Pow2(n))
    requires j < |old_| && OnPath(h + Pow2(n), j)
    ensures |b1| == |old_| && MarkAt(old_, b1, h, n + 1, j)
  {
    hide Level, Pow2, Parent;
    assert MarkAt(old_, b0, h, n, j);
    var c := h + Pow2(n);
    ChildOf(h, n);
    PathIsBelow(c, j);
    CutOfChild(h, n);
    SameCut(c, j, n);
    SameCut(c, j, Level(h));
    CutOfRoot(h, n, c);
    assert OnPath(h, j);
    forall i: nat | c <= i <= j && OnPath(i, j) ensures b0[i] == old_[i] {
      assert MarkAt(old_, b0, h, n, i);
      LevelMonotone(c, i);
      SameCut(i, j, n);
    }
    GapOfChild(old_, h, n, j);
    GapSame(old_[c := Chain([])], b0[c := Chain([])], c, j);
    NextBit(h, n, j);
    assert b0[j] == old_[j] && b1[j] == if Gap(b0[c := Chain([])], c, j) then Chain([]) else b0[c := Chain([])][j];
    hide Gap, SubtreeMarked, MarkedUnder, OnPath;
  }

  lemma GapSame(a: seq<Bucket>, b: seq<Bucket>, c: nat, j: nat)
    requires |a| == |b| && j < |a| && forall i: nat | c < i <= j && OnPath(i, j) :: a[i] == b[i]
    ensures Gap(a, c, j) <==> Gap(b, c, j)
  {
  }

  lemma CutOfChild(h: nat, n: nat)
    requires h < Pow2(n)
    ensures (h + Pow2(n)) % Pow2(n) == h
  {
    DivModUnique(h + Pow2(n), Pow2(n), 1, h);
  }

  lemma CutOfRoot(h: nat, n: nat, c: nat)
    requires Level(h) <= n && c % Pow2(n) == h
    ensures c % Pow2(Level(h)) == h
  {
    ModMod(c, Level(h), n);
    SmallMod(h, Level(h));
  }

  // ---------------------------------------------------------------- splitting the chain of the root

  /** Each key outside bucket h is in place, the bucket that a key of h belongs to is rehashed, and the
      first p nodes of h belong there. */
  ghost predicate Splitting(hash: Key -> nat, k: nat, buckets: seq<Bucket>, a: Abs, h: nat, p: nat) {
    && k >= 1 && |buckets| == Pow2(k) && IsChain(buckets, h) && p <= |buckets[h].nodes| && Stored(buckets, a)
    && (forall key | key in a.loc :: SplitAt(hash, k, buckets, a.loc[key], h, key))
    && (forall i :: 0 <= i < p ==> hash(buckets[h].nodes[i].key) % Pow2(k) == h)
  }

  ghost predicate SplitAt(hash: Key -> nat, k: nat, buckets: seq<Bucket>, loc: nat, h: nat, key: Key) {
    && OnPath(loc, hash(key))
    && if loc == h then IsChain(buckets, hash(key) % Pow2(k)) else DeepestFor(buckets, hash(key), loc)
  }

  lemma StoredKeys(buckets: seq<Bucket>, a: Abs)
    requires Stored(buckets, a)
    ensures a.loc.Keys == a.contents.Keys
  {
  }

  lemma StoredIsChain(buckets: seq<Bucket>, a: Abs, key: Key)
    requires Stored(buckets, a) && key in a.loc
    ensures IsChain(buckets, a.loc[key]) && HasKey(buckets[a.loc[key]].nodes, key)
  {
  }

  lemma GapIsUnmarked(buckets: seq<Bucket>, h: nat, j: nat)
    requires Gap(buckets, h, j)
    ensures !IsChain(buckets, j)
  {
    SmallMod(j, Level(j));
  }

  ghost predicate SameOrEmptied(old_: seq<Bucket>, buckets: seq<Bucket>, j: nat)
    requires j < |old_| == |buckets|
  {
    buckets[j] == old_[j] || (old_[j].RehashReq? && buckets[j] == Chain([]))
  }

  lemma MarksStored(old_: seq<Bucket>, buckets: seq<Bucket>, a: Abs, h: nat)
    requires Stored(old_, a) && SubtreeMarked(old_, buckets, h)
    ensures Stored(buckets, a)
    ensures forall j: nat :: IsChain(old_, j) ==> IsChain(buckets, j) && buckets[j] == old_[j]
  {
    forall j: nat | j < |old_| ensures SameOrEmptied(old_, buckets, j) {
      if Gap(old_, h, j) { GapIsUnmarked(old_, h, j); }
    }
    hide SubtreeMarked, Gap;
    EmptiedStored(old_, buckets, a);
    forall j: nat | IsChain(old_, j) ensures IsChain(buckets, j) && buckets[j] == old_[j] {
      assert SameOrEmptied(old_, buckets, j);
    }
  }

  lemma EmptiedStored(old_: seq<Bucket>, buckets: seq<Bucket>, a: Abs)
    requires Stored(old_, a) && |buckets| == |old_| && forall j: nat :: j < |old_| ==> SameOrEmptied(old_, buckets, j)
    ensures Stored(buckets, a)
  {
    forall j: nat | IsChain(buckets, j) && buckets[j].nodes != [] ensures IsChain(old_, j) && buckets[j] == old_[j] {
      assert SameOrEmptied(old_, buckets, j);
    }
    forall key | key in a.loc ensures IsChain(buckets, a.loc[key]) && HasKey(buckets[a.loc[key]].nodes, key) {
      assert SameOrEmptied(old_, buckets, a.loc[key]);
    }
  }

  /** Marking the subtree of h leaves every key in place, except that those of h may have to move. */
  lemma SplittingStarts(hash: Key -> nat, k: nat, old_: seq<Bucket>, buckets: seq<Bucket>, a: Abs, h: nat)
    requires k >= 1 && |old_| == Pow2(k) && IsChain(old_, h) && Stored(old_, a) && InPlace(hash, old_, a)
    requires SubtreeMarked(old_, buckets, h)
    ensures Splitting(hash, k, buckets, a, h, 0)
  {
    MarksStored(old_, buckets, a, h);
    forall key | key in a.loc ensures SplitAt(hash, k, buckets, a.loc[key], h, key) {
      StoredIsChain(old_, a, key);
      if a.loc[key] == h { MarkedTarget(k, old_, buckets, h, hash(key)); } else {
        StillDeepest(old_, buckets, h, a.loc[key], hash(key));
      }
    }
  }

  lemma MarkedTarget(k: nat, old_: seq<Bucket>, buckets: seq<Bucket>, h: nat, c: nat)
    requires k >= 1 && |old_| == Pow2(k) && h < Pow2(k) && IsChain(old_, h) && SubtreeMarked(old_, buckets, h)
    requires OnPath(h, c) && DeepestFor(old_, c, h)
    ensures IsChain(buckets, c % Pow2(k))
  {
    var d := c % Pow2(k);
    MaskOnPath(c, k);
    LevelBound(h, k);
    PathCut(h, c, k);
    if d != h {
      forall i: nat | h < i <= d && OnPath(i, d) ensures !IsChain(old_, i) { PathTransitive(i, d, c); }
      assert Gap(old_, h, d);
    }
  }

  lemma StillDeepest(old_: seq<Bucket>, buckets: seq<Bucket>, h: nat, loc: nat, c: nat)
    requires SubtreeMarked(old_, buckets, h) && IsChain(old_, h) && IsChain(old_, loc) && loc != h
    requires OnPath(loc, c) && DeepestFor(old_, c, loc)
    ensures DeepestFor(buckets, c, loc)
  {
    forall j: nat | IsChain(buckets, j) && OnPath(j, c) ensures j <= loc {
      if Gap(old_, h, j) {
        PathTransitive(h, j, c);
        if loc < j { PathOfPath(loc, j, c); }
      }
    }
  }

  lemma MarksClosed(old_: seq<Bucket>, buckets: seq<Bucket>, h: nat)
    requires ClosedUp(old_) && SubtreeMarked(old_, buckets, h) && IsChain(old_, h)
    ensures ClosedUp(buckets)
  {
    forall j: nat | IsChain(buckets, j) && j >= 2 ensures IsChain(buckets, Parent(j)) {
      if Gap(old_, h, j) { ParentInGap(old_, h, j); }
    }
  }

  /** Marking the subtree of a rehashed bucket spreads from it. */
  lemma MarksSpread(old_: seq<Bucket>, buckets: seq<Bucket>, h: nat)
    requires SubtreeMarked(old_, buckets, h) && IsChain(old_, h)
    ensures Spreads(old_, buckets)
  {
    forall j: nat | IsChain(buckets, j) && !IsChain(old_, j) ensures j >= 2 && IsChain(buckets, Parent(j)) {
      assert Gap(old_, h, j);
      SmallMod(j, Level(j));
      PathBetween(h, j, j);
      ParentInGap(old_, h, j);
    }
    forall j: nat | IsChain(old_, j) ensures IsChain(buckets, j) {
      if Gap(old_, h, j) { GapIsUnmarked(old_, h, j); }
    }
  }

  lemma ParentInGap(buckets: seq<Bucket>, h: nat, j: nat)
    requires Gap(buckets, h, j) && j >= 2
    ensures Parent(j) == h || Gap(buckets, h, Parent(j))
  {
    SmallMod(j, Level(j));
    PathBetween(h, j, j);
    PathParent(j, j);
    if Parent(j) != h {
      PathOfPath(h, Parent(j), j);
      forall i: nat | h < i <= Parent(j) && OnPath(i, Parent(j)) ensures !IsChain(buckets, i) {
        PathTransitive(i, Parent(j), j);
      }
    }
  }

  /** The node at p belongs to h and stays. */
  lemma SplitStays(hash: Key -> nat, k: nat, buckets: seq<Bucket>, a: Abs, h: nat, p: nat)
    requires Splitting(hash, k, buckets, a, h, p) && p < |buckets[h].nodes|
    requires hash(buckets[h].nodes[p].key) % Pow2(k) == h
    ensures Splitting(hash, k, buckets, a, h, p + 1)
  {
  }

  function MovedTo(buckets: seq<Bucket>, h: nat, p: nat, d: nat): seq<Bucket>
    requires IsChain(buckets, h) && IsChain(buckets, d) && p < |buckets[h].nodes|
  {
    buckets[h := Chain(Without(buckets[h].nodes, p))][d := Chain([buckets[h].nodes[p]] + buckets[d].nodes)]
  }

  lemma TargetIsChain(hash: Key -> nat, k: nat, buckets: seq<Bucket>, a: Abs, h: nat, p: nat)
    requires Splitting(hash, k, buckets, a, h, p) && p < |buckets[h].nodes|
    ensures IsChain(buckets, hash(buckets[h].nodes[p].key) % Pow2(k))
  {
    var n := buckets[h].nodes[p];
    assert NodeAt(n, h, a);
    assert SplitAt(hash, k, buckets, a.loc[n.key], h, n.key);
  }

  /** The node at p belongs to another bucket and moves there. */
  lemma SplitMoves(hash: Key -> nat, k: nat, buckets: seq<Bucket>, a: Abs, h: nat, p: nat)
    requires Splitting(hash, k, buckets, a, h, p) && p < |buckets[h].nodes|
    requires hash(buckets[h].nodes[p].key) % Pow2(k) != h
    ensures IsChain(buckets, hash(buckets[h].nodes[p].key) % Pow2(k))
    ensures var n := buckets[h].nodes[p]; var d := hash(n.key) % Pow2(k);
            Splitting(hash, k, MovedTo(buckets, h, p, d), MovedAbs(a, n.key, d), h, p)
    ensures var b := MovedTo(buckets, h, p, hash(buckets[h].nodes[p].key) % Pow2(k));
            |b| == |buckets| && IsChain(b, h) && |b[h].nodes| == |buckets[h].nodes| - 1
            && forall j: nat :: IsChain(b, j) <==> IsChain(buckets, j)
  {
    hide Stored;
    var n := buckets[h].nodes[p];
    var d := hash(n.key) % Pow2(k);
    TargetIsChain(hash, k, buckets, a, h, p);
    MoveToStored(buckets, a, h, p, d);
    var buckets', a' := MovedTo(buckets, h, p, d), MovedAbs(a, n.key, d);
    forall key | key in a'.loc ensures SplitAt(hash, k, buckets', a'.loc[key], h, key) {
      if key == n.key {
        MaskOnPath(hash(key), k);
        forall j: nat | IsChain(buckets', j) && OnPath(j, hash(key)) ensures j <= d { MaskIsLast(j, hash(key), k); }
      } else {
        assert key in a.loc;
        assert SplitAt(hash, k, buckets, a.loc[key], h, key);
        assert forall j: nat :: IsChain(buckets', j) <==> IsChain(buckets, j);
      }
    }
  }

  lemma MoveToStored(buckets: seq<Bucket>, a: Abs, h: nat, p: nat, d: nat)
    requires Stored(buckets, a) && IsChain(buckets, h) && IsChain(buckets, d) && h != d && p < |buckets[h].nodes|
    ensures Stored(MovedTo(buckets, h, p, d), MovedAbs(a, buckets[h].nodes[p].key, d))
  {
    var n := buckets[h].nodes[p];
    assert NodeAt(n, h, a);
    var a1 := Abs(a.contents - {n.key}, a.loc - {n.key});
    var b1 := buckets[h := Chain(Without(buckets[h].nodes, p))];
    StoredRemoved(buckets, a, h, p, a1);
    MoveIsRemoveAndAdd(a, n, d);
    StoredAdded(b1, a1, d, n, Abs(a1.contents[n.key := n.val], a1.loc[n.key := d]));
  }

  lemma SplittingEnds(hash: Key -> nat, k: nat, buckets: seq<Bucket>, a: Abs, h: nat)
    requires IsChain(buckets, h) && Splitting(hash, k, buckets, a, h, |buckets[h].nodes|)
    ensures InPlace(hash, buckets, a)
  {
    forall key | key in a.loc ensures OnPath(a.loc[key], hash(key)) && DeepestFor(buckets, hash(key), a.loc[key]) {
      assert SplitAt(hash, k, buckets, a.loc[key], h, key);
      if a.loc[key] == h {
        assert HasKey(buckets[h].nodes, key);
        forall j: nat | IsChain(buckets, j) && OnPath(j, hash(key)) ensures j <= h { MaskIsLast(j, hash(key), k); }
      }
    }
  }

  // ---------------------------------------------------------------- when all buckets are rehashed

  /** If the last segment is rehashed, and the parents of its buckets are, then so is every bucket. */
  lemma LastSegmentIsAll(buckets: seq<Bucket>, k: nat)
    requires k >= 1 && |buckets| == Pow2(k) && IsChain(buckets, 0) && IsChain(buckets, 1)
    requires LastRehashed(buckets, k) && LastParented(buckets, k)
    ensures AllRehashed(buckets)
  {
    forall j: nat | j < |buckets| ensures IsChain(buckets, j) {
      if 2 <= j < Pow2(k - 1) {
        LevelBound(j, k - 1);
        ChildOf(j, k - 1);
        assert InLast(k, j + Pow2(k - 1));
      } else if j >= 2 {
        assert InLast(k, j);
      }
    }
  }

  /** Once the last segment is rehashed every key is in the bucket that the mask selects for it, even if buckets of
      earlier segments are not. */
  lemma KeyInSelected(hash: Key -> nat, buckets: seq<Bucket>, k: nat, a: Abs, key: Key)
    requires k >= 1 && |buckets| == Pow2(k) && Stored(buckets, a) && InPlace(hash, buckets, a) && KeysClear(hash, buckets, a)
    requires LastRehashed(buckets, k) && key in a.contents
    ensures IsChain(buckets, hash(key) % Pow2(k)) && HasKey(buckets[hash(key) % Pow2(k)].nodes, key)
  {
    hide Stored, Pow2, OnPath, LastRehashed, HasKey;
    StoredKeys(buckets, a);
    var h, loc := hash(key), a.loc[key];
    MaskOnPath(h, k);
    StoredIsChain(buckets, a, key);
    MaskIsLast(loc, h, k);
    if loc < h % Pow2(k) {
      RehashedUnder(buckets, k, h % Pow2(k));
    }
  }

  /** Under every bucket there is one of the last segment. */
  lemma RehashedUnder(buckets: seq<Bucket>, k: nat, d: nat)
    requires k >= 1 && 1 <= d < Pow2(k) && LastRehashed(buckets, k)
    ensures exists x: nat :: OnPath(d, x) && IsChain(buckets, x)
  {
    SmallMod(d, Level(d));
    if InLast(k, d) {
      assert OnPath(d, d) && IsChain(buckets, d);
    } else {
      LevelBound(d, k - 1);
      ChildOf(d, k - 1);
      CutOfChild(d, k - 1);
      CutOfRoot(d, k - 1, d + Pow2(k - 1));
      assert InLast(k, d + Pow2(k - 1)) && OnPath(d, d + Pow2(k - 1));
    }
  }
}
