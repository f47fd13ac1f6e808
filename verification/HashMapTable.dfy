/** The hash table as a serial object. */
module HashMapTable {
  import opened Options
  import opened HashPaths
  import opened HashMapProtocol
  import opened HashMapInvariant
  import opened HashMapProof
  import opened HashMapSerial
  import opened HashMapLazy
  import HashMapTheorems

  function Repeat(b: Bucket, n: nat): seq<Bucket> {
    seq(n, _ => b)
  }

  /** Of the powers of two from 256 on, x is the least that is not below n. */
  ghost predicate LeastPower(x: nat, n: nat) {
    && (exists m: nat :: x == Pow2(m)) && x >= n
    && forall m: nat :: n <= Pow2(m) && 256 <= Pow2(m) ==> x <= Pow2(m)
  }

  lemma BelowTwice(k: nat, n: nat)
    requires Pow2(k) >= n && (Pow2(k) == 256 || Pow2(k) < 2 * n)
    ensures LeastPower(Pow2(k), n)
  {
    hide Pow2;
    forall m: nat | n <= Pow2(m) && 256 <= Pow2(m) ensures Pow2(k) <= Pow2(m) {
      if m < k {
        Pow2Monotone(m + 1, k);
        DoubledPow2(m);
      } else {
        Pow2Monotone(k, m);
      }
    }
  }

  lemma DoubledPow2(m: nat)
    ensures Pow2(m + 1) == 2 * Pow2(m)
  {
  }

  /** Every key is in the bucket that the mask selects for it. */
  ghost predicate AllSelected(hash: Key -> nat, buckets: seq<Bucket>, k: nat, contents: map<Key, Val>) {
    forall key | key in contents ::
      IsChain(buckets, hash(key) % Pow2(k)) && HasKey(buckets[hash(key) % Pow2(k)].nodes, key)
  }

  // ---------------------------------------------------------------- growing

  lemma NoKeys(buckets: seq<Bucket>, a: Abs)
    requires |a.contents| == 0 && Stored(buckets, a)
    ensures a.contents == map[] && a.loc == map[]
  {
    assert a.loc.Keys == {};
  }

  lemma NodesHaveKeys(buckets: seq<Bucket>, a: Abs, j: nat)
    requires Stored(buckets, a)
    ensures IsChain(buckets, j) && buckets[j].nodes != [] ==> a.loc != map[]
  {
    if IsChain(buckets, j) && buckets[j].nodes != [] { assert NodeAt(buckets[j].nodes[0], j, a); }
  }

  lemma AllAreSelected(hash: Key -> nat, buckets: seq<Bucket>, k: nat, a: Abs)
    requires k >= 1 && |buckets| == Pow2(k) && Stored(buckets, a) && InPlace(hash, buckets, a)
    requires KeysClear(hash, buckets, a) && LastRehashed(buckets, k)
    ensures AllSelected(hash, buckets, k, a.contents)
  {
    forall key | key in a.contents
      ensures IsChain(buckets, hash(key) % Pow2(k)) && HasKey(buckets[hash(key) % Pow2(k)].nodes, key)
    {
      KeyInSelected(hash, buckets, k, a, key);
    }
  }

  /** New buckets that have to be rehashed, or new empty buckets of an empty table, move no key. */
  lemma ExtendedOk(hash: Key -> nat, buckets: seq<Bucket>, a: Abs, more: seq<Bucket>, isInitial: bool)
    requires Stored(buckets, a) && InPlace(hash, buckets, a) && (isInitial ==> a.loc == map[])
    requires forall i :: 0 <= i < |more| ==> more[i] == if isInitial then Chain([]) else RehashReq
    ensures Stored(buckets + more, a) && InPlace(hash, buckets + more, a)
  {
    if isInitial {
      forall j: nat | IsChain(buckets + more, j) ensures (buckets + more)[j].nodes == [] {
        NodesHaveKeys(buckets, a, j);
      }
    } else {
      assert buckets + more == Extended(buckets, |buckets + more|);
      PublishStored(buckets, |buckets + more|, a);
      forall j: nat | IsChain(buckets + more, j) ensures IsChain(buckets, j) { }
    }
  }

  /** A last segment of buckets that are all to be rehashed, or all of an empty table, is settled; and below
      the keys there is nothing new. */
  lemma ExtendedSettled(hash: Key -> nat, buckets: seq<Bucket>, a: Abs, more: seq<Bucket>, isInitial: bool, k0: nat, k: nat)
    requires KeysClear(hash, buckets, a) && (isInitial ==> a.loc == map[])
    requires |buckets| == Pow2(k0) && |buckets + more| == Pow2(k) && k0 < k
    requires forall i :: 0 <= i < |more| ==> more[i] == if isInitial then Chain([]) else RehashReq
    ensures KeysClear(hash, buckets + more, a) && LastSettled(buckets + more, k)
    ensures ClosedUp(buckets) && !isInitial ==> ClosedUp(buckets + more)
    ensures isInitial ==> LastRehashed(buckets + more, k)
    ensures !isInitial ==> !LastRehashed(buckets + more, k)
  {
    Pow2Monotone(k0, k - 1);
    if !isInitial {
      assert InLast(k, Pow2(k) - 1) && !IsChain(buckets + more, Pow2(k) - 1);
      forall j: nat ensures IsChain(buckets + more, j) <==> IsChain(buckets, j) { }
      forall key | key in a.loc ensures ClearBelow(buckets + more, hash(key), a.loc[key]) {
        assert ClearBelow(buckets, hash(key), a.loc[key]);
      }
    }
  }

  lemma ExtendedRehashed(old_: seq<Bucket>, buckets: seq<Bucket>)
    requires |buckets| >= |old_| && buckets == old_ + Repeat(Chain([]), |buckets| - |old_|)
    ensures AllRehashed(buckets) <==> AllRehashed(old_)
  {
    if AllRehashed(buckets) {
      forall j: nat | j < |old_| ensures IsChain(old_, j) { assert IsChain(buckets, j); }
    }
    if AllRehashed(old_) {
      forall j: nat | j < |buckets| ensures IsChain(buckets, j) { if j < |old_| { assert IsChain(old_, j); } }
    }
  }

  // ---------------------------------------------------------------- the loops

  lemma StartMarking(buckets: seq<Bucket>, h: nat)
    ensures MarkedUnder(buckets, buckets, h, Level(h))
  {
    forall j: nat | j < |buckets| ensures MarkAt(buckets, buckets, h, Level(h), j) { }
  }

  lemma EndMarking(old_: seq<Bucket>, buckets: seq<Bucket>, h: nat, k: nat)
    requires MarkedUnder(old_, buckets, h, k) && |old_| == Pow2(k)
    ensures SubtreeMarked(old_, buckets, h)
  {
    forall j: nat | j < |old_| ensures buckets[j] == if Gap(old_, h, j) then Chain([]) else old_[j] {
      assert MarkAt(old_, buckets, h, k, j);
      SmallMod(j, k);
    }
  }

  lemma ChildUntouched(old_: seq<Bucket>, buckets: seq<Bucket>, h: nat, n: nat)
    requires Level(h) <= n && MarkedUnder(old_, buckets, h, n) && h + Pow2(n) < |old_|
    ensures buckets[h + Pow2(n)] == old_[h + Pow2(n)]
  {
    ChildOf(h, n);
    CutOfChild(h, n);
    assert MarkAt(old_, buckets, h, n, h + Pow2(n));
  }

  lemma RootGap(buckets: seq<Bucket>, b: nat)
    requires 2 <= b < |buckets| && !IsChain(buckets, b)
    ensures Gap(buckets, Parent(b), b)
  {
    SmallMod(b, Level(b));
    PathParent(b, b);
    forall i: nat | Parent(b) < i <= b && OnPath(i, b) ensures i == b {
      if i < b { PathBetween(i, b, b); }
    }
  }

  lemma WiderGap(buckets: seq<Bucket>, h: nat, b: nat)
    requires Gap(buckets, h, b) && h >= 2 && !IsChain(buckets, h)
    ensures Gap(buckets, Parent(h), b)
  {
    PathParent(h, b);
    forall i: nat | Parent(h) < i <= b && OnPath(i, b) ensures !IsChain(buckets, i) {
      if i < h { PathBetween(i, h, b); }
    }
  }

  lemma SelectedIsLast(buckets: seq<Bucket>, h: nat, k: nat)
    requires k >= 1 && |buckets| == Pow2(k)
    ensures DeepestFor(buckets, h, h % Pow2(k))
  {
    forall j: nat | IsChain(buckets, j) && OnPath(j, h) ensures j <= h % Pow2(k) { MaskIsLast(j, h, k); }
  }

  lemma UpOne(buckets: seq<Bucket>, c: nat, h: nat)
    requires h >= 2 && h < |buckets| && buckets[h].RehashReq? && OnPath(h, c) && DeepestFor(buckets, c, h)
    ensures OnPath(Parent(h), c) && DeepestFor(buckets, c, Parent(h))
  {
    PathParent(h, c);
    forall j: nat | IsChain(buckets, j) && OnPath(j, c) ensures j <= Parent(h) {
      PathBetween(j, h, c);
    }
  }

  /** The nearest rehashed bucket of the path is where the key is if it is anywhere. */
  lemma KeyIsHere(hash: Key -> nat, buckets: seq<Bucket>, a: Abs, key: Key, h: nat)
    requires Stored(buckets, a) && InPlace(hash, buckets, a) && IsChain(buckets, h)
    requires OnPath(h, hash(key)) && DeepestFor(buckets, hash(key), h)
    ensures key in a.contents <==> HasKey(buckets[h].nodes, key)
  {
    if key in a.loc {
      StoredIsChain(buckets, a, key);
      assert DeepestFor(buckets, hash(key), a.loc[key]);
    }
    if HasKey(buckets[h].nodes, key) {
      var i :| 0 <= i < |buckets[h].nodes| && buckets[h].nodes[i].key == key;
      assert NodeAt(buckets[h].nodes[i], h, a);
    }
  }

  /** While the same buckets are rehashed. */
  ghost predicate SameMarks(b: seq<Bucket>, b': seq<Bucket>) {
    |b'| == |b| && forall j: nat :: IsChain(b', j) <==> IsChain(b, j)
  }

  /** What one operation rehashes is on its key's path. */
  ghost predicate SpreadsOnPath(b: seq<Bucket>, b': seq<Bucket>, h: nat) {
    Spreads(b, b') && forall j: nat :: IsChain(b', j) && !IsChain(b, j) ==> OnPath(j, h)
  }

  lemma OneOnPath(b: seq<Bucket>, b': seq<Bucket>, h: nat)
    requires 2 <= h < |b| && b' == b[h := Chain([])] && IsChain(b', Parent(h))
    ensures SpreadsOnPath(b, b', h)
  {
    SmallMod(h, Level(h));
  }

  lemma OneMoreOnPath(b: seq<Bucket>, marked: seq<Bucket>, b': seq<Bucket>, h: nat)
    requires 2 <= h < |b| && marked == b[h := Chain([])] && IsChain(b', Parent(h))
    requires SpreadsOnPath(marked, b', Parent(h))
    ensures SpreadsOnPath(b, b', h)
  {
    SmallMod(h, Level(h));
    PathParent(h, h);
    hide OnPath, Level, Pow2, Parent;
    forall j: nat | IsChain(b', j) && !IsChain(b, j) ensures OnPath(j, h) && j >= 2 && IsChain(b', Parent(j)) {
      if j != h {
        assert !IsChain(marked, j);
        PathIsBelow(j, Parent(h));
        PathTransitive(j, Parent(h), h);
      }
    }
    assert forall j: nat :: IsChain(b, j) ==> IsChain(marked, j);
  }

  lemma SameMarksOnPath(b: seq<Bucket>, b': seq<Bucket>, b'': seq<Bucket>, h: nat)
    requires SpreadsOnPath(b, b', h) && SameMarks(b', b'')
    ensures SpreadsOnPath(b, b'', h)
  {
  }

  lemma CutOnPath(b: seq<Bucket>, b': seq<Bucket>, c: nat, k: nat)
    requires k >= 1 && SpreadsOnPath(b, b', c % Pow2(k))
    ensures SpreadsOnPath(b, b', c)
  {
    MaskOnPath(c, k);
    hide OnPath, Level, Pow2, Parent;
    forall j: nat | IsChain(b', j) && !IsChain(b, j) ensures OnPath(j, c) {
      PathIsBelow(j, c % Pow2(k));
      PathTransitive(j, c % Pow2(k), c);
    }
  }

  lemma OnPathSpreads(b: seq<Bucket>, b': seq<Bucket>, h: nat)
    requires SpreadsOnPath(b, b', h)
    ensures Spreads(b, b')
  {
  }

  lemma MarkedOnPath(b: seq<Bucket>, b': seq<Bucket>, b'': seq<Bucket>, h: nat)
    requires SpreadsOnPath(b, b', h) && |b''| >= |b'| && b'' == b' + Repeat(RehashReq, |b''| - |b'|)
    ensures SpreadsOnPath(b, b'', h)
  {
    forall j: nat ensures IsChain(b'', j) <==> IsChain(b', j) { }
  }

  lemma NothingSpreads(b: seq<Bucket>, h: nat)
    ensures SpreadsOnPath(b, b, h)
  {
  }

  lemma SameMarksSpread(b: seq<Bucket>, b': seq<Bucket>, b'': seq<Bucket>)
    requires Spreads(b, b') && SameMarks(b', b'')
    ensures Spreads(b, b'')
  {
  }

  lemma SameMarksSettled(b: seq<Bucket>, b': seq<Bucket>, k: nat)
    requires SameMarks(b, b') && LastSettled(b, k)
    ensures LastSettled(b', k)
    ensures ClosedUp(b) ==> ClosedUp(b')
  {
  }

  /** Keys that were clear, and a new one in the last bucket of its path, are clear. */
  lemma KeptClear(hash: Key -> nat, b: seq<Bucket>, b': seq<Bucket>, a: Abs, a': Abs, k: nat)
    requires KeysClear(hash, b, a) && SameMarks(b, b') && k >= 1 && |b| == Pow2(k)
    requires forall key | key in a'.loc :: (key in a.loc && a'.loc[key] == a.loc[key]) || a'.loc[key] == hash(key) % Pow2(k)
    ensures KeysClear(hash, b', a')
  {
    forall key | key in a'.loc ensures ClearBelow(b', hash(key), a'.loc[key]) {
      var h, loc := hash(key), a'.loc[key];
      if key in a.loc && loc == a.loc[key] {
        assert ClearBelow(b, h, loc);
      } else {
        forall p: nat, x: nat | OnPath(p, h) && loc < p && OnPath(p, x) ensures !IsChain(b', x) {
          PathIsBelow(p, x);
          if x < Pow2(k) { MaskIsLast(p, h, k); }
        }
      }
    }
  }

  /** Whether the scan of the last segment leaves a bucket to be rehashed. */
  lemma ScanIsAll(b: seq<Bucket>, b': seq<Bucket>, k: nat)
    requires k >= 1 && |b| == |b'| == Pow2(k) && IsChain(b, 0) && IsChain(b, 1) && LastSettled(b, k)
    requires Spreads(b, b') && LastRehashed(b', k) && (LastRehashed(b, k) ==> b' == b)
    ensures AllRehashed(b') <==> AllRehashed(b) || !LastRehashed(b, k)
  {
    if !LastRehashed(b, k) {
      SpreadsKeeps(b, b', k);
      LastSegmentIsAll(b', k);
    }
  }

  /** Rehashing keeps the keys clear and the last segment settled. */
  lemma Rehashed(hash: Key -> nat, b: seq<Bucket>, a: Abs, b': seq<Bucket>, a': Abs, k: nat)
    requires Stored(b, a) && InPlace(hash, b, a) && KeysClear(hash, b, a) && LastSettled(b, k)
    requires Stored(b', a') && InPlace(hash, b', a') && a'.contents == a.contents && Spreads(b, b')
    ensures KeysClear(hash, b', a') && LastSettled(b', k)
  {
    KeysStayClear(hash, b, a, b', a');
    SpreadsKeeps(b, b', k);
  }

  lemma SpreadsSelf(b: seq<Bucket>)
    ensures Spreads(b, b)
  {
  }

  lemma StaysRehashed(b: seq<Bucket>, b': seq<Bucket>)
    requires Spreads(b, b')
    ensures forall j: nat :: IsChain(b, j) ==> IsChain(b', j)
  {
  }

  lemma GrownRehashed(b: seq<Bucket>, b': seq<Bucket>, size: nat, k0: nat, k: nat)
    requires k0 <= k && |b| == Pow2(k0) && |b'| == Pow2(k) >= Pow2(k0)
    requires b' == b + Repeat(if size == 0 then Chain([]) else RehashReq, Pow2(k) - Pow2(k0))
    requires k > k0 ==> (LastRehashed(b', k) <==> size == 0)
    ensures k == k0 ==> b' == b
    ensures size == 0 ==> (AllRehashed(b') <==> AllRehashed(b))
    ensures AllRehashed(b') ==> LastRehashed(b', k)
    ensures forall j: nat :: IsChain(b, j) ==> IsChain(b', j)
  {
    if size == 0 { ExtendedRehashed(b, b'); }
  }

  /** A last-segment bucket under j that is to be rehashed, with nothing rehashed from j on to it. */
  ghost predicate LeadsToLast(b: seq<Bucket>, k: nat, j: nat) {
    exists x: nat :: InLast(k, x) && OnPath(j, x) && j <= x && forall i: nat :: j <= i <= x && OnPath(i, x) ==> !IsChain(b, i)
  }

  /** In a table whose last segment is settled, saying that not all of it is rehashed is the same as saying that
      every bucket to be rehashed leads to one there. */
  lemma AllLeadToLast(b: seq<Bucket>, k: nat)
    requires k >= 1 && |b| == Pow2(k) && IsChain(b, 0) && IsChain(b, 1) && LastSettled(b, k)
    ensures AllRehashed(b) || !LastRehashed(b, k) <==> forall j: nat :: j < |b| && !IsChain(b, j) ==> LeadsToLast(b, k, j)
  {
    if !LastRehashed(b, k) {
      forall j: nat | j < |b| && !IsChain(b, j) ensures LeadsToLast(b, k, j) { MarkLeads(b, k, j); }
    }
    if LastRehashed(b, k) && !AllRehashed(b) {
      var j: nat :| j < |b| && !IsChain(b, j);
      forall x: nat | InLast(k, x) && OnPath(j, x) ensures exists i: nat :: j <= i <= x && OnPath(i, x) && IsChain(b, i) {
        OwnPath(x);
        PathIsBelow(j, x);
      }
      assert !LeadsToLast(b, k, j);
    }
  }

  lemma MarkLeads(b: seq<Bucket>, k: nat, j: nat)
    requires k >= 1 && |b| == Pow2(k) && IsChain(b, 0) && IsChain(b, 1) && LastParented(b, k)
    requires j < |b| && !IsChain(b, j)
    ensures LeadsToLast(b, k, j)
  {
    hide OnPath, Level, Pow2, Parent, InLast, LastParented, LeadsToLast;
    if InLast(k, j) {
      OwnPath(j);
      LeadsAlong(b, k, j, j);
    } else {
      BeforeLast(k, j);
      LastChild(k, j);
      var x := j + Pow2(k - 1);
      ChildMarked(b, k, x);
      forall i: nat | j <= i <= x && OnPath(i, x) ensures !IsChain(b, i) {
        if i < x { PathBetween(i, x, x); }
      }
      LeadsAlong(b, k, j, x);
    }
  }

  lemma LeadsAlong(b: seq<Bucket>, k: nat, j: nat, x: nat)
    requires InLast(k, x) && OnPath(j, x) && j <= x && forall i: nat :: j <= i <= x && OnPath(i, x) ==> !IsChain(b, i)
    ensures LeadsToLast(b, k, j)
  {
  }

  lemma BeforeLast(k: nat, j: nat)
    requires k >= 1 && 1 <= j < Pow2(k) && !InLast(k, j)
    ensures k >= 2 && j < Pow2(k - 1)
  {
  }

  lemma ChildMarked(b: seq<Bucket>, k: nat, x: nat)
    requires LastParented(b, k) && x >= 2 && InLast(k, x) && !IsChain(b, Parent(x))
    ensures !IsChain(b, x)
  {
  }

  /** The child of bucket j in the last segment. */
  lemma LastChild(k: nat, j: nat)
    requires k >= 2 && 1 <= j < Pow2(k - 1)
    ensures var x := j + Pow2(k - 1); x >= 2 && InLast(k, x) && OnPath(x, x) && OnPath(j, x) && Parent(x) == j
  {
    var x := j + Pow2(k - 1);
    assert Pow2(k) == 2 * Pow2(k - 1);
    hide Level, Pow2;
    LevelBound(j, k - 1);
    ChildOf(j, k - 1);
    CutOfChild(j, k - 1);
    CutOfRoot(j, k - 1, x);
    OwnPath(x);
  }

  // ---------------------------------------------------------------- one thread's operations

  lemma NotOnPath(h: nat, c: nat)
    requires c % Pow2(Level(h)) != h
    ensures !OnPath(h, c)
  {
  }

  lemma FillingStored(hash: Key -> nat, buckets: seq<Bucket>, a: Abs, open: set<nat>, h: nat, p: nat)
    requires Filling(hash, buckets, a, open, h, p)
    ensures Stored(buckets, a)
  {
  }

  /** A new key goes to the last bucket of its path. */
  lemma AddedIsStored(hash: Key -> nat, buckets: seq<Bucket>, a: Abs, h: nat, n: Node)
    requires Stored(buckets, a) && InPlace(hash, buckets, a) && IsChain(buckets, h) && n.key !in a.contents
    requires OnPath(h, hash(n.key)) && DeepestFor(buckets, hash(n.key), h)
    ensures var b := buckets[h := Chain([n] + buckets[h].nodes)];
            var a' := Abs(a.contents[n.key := n.val], a.loc[n.key := h]);
            Stored(b, a') && InPlace(hash, b, a') && |a'.contents| == |a.contents| + 1
            && forall j: nat :: IsChain(b, j) <==> IsChain(buckets, j)
  {
    var b, a' := buckets[h := Chain([n] + buckets[h].nodes)], Abs(a.contents[n.key := n.val], a.loc[n.key := h]);
    StoredAdded(buckets, a, h, n, a');
    KeptInPlace(hash, buckets, b, a, a');
  }

  lemma RemovedIsStored(hash: Key -> nat, buckets: seq<Bucket>, a: Abs, h: nat, i: nat)
    requires Stored(buckets, a) && InPlace(hash, buckets, a) && IsChain(buckets, h) && i < |buckets[h].nodes|
    ensures var key := buckets[h].nodes[i].key; var b := buckets[h := Chain(Without(buckets[h].nodes, i))];
            Stored(b, UnlinkedAbs(a, key)) && InPlace(hash, b, UnlinkedAbs(a, key))
            && |a.contents| > 0 && |UnlinkedAbs(a, key).contents| == |a.contents| - 1
            && forall j: nat :: IsChain(b, j) <==> IsChain(buckets, j)
  {
    var key, b := buckets[h].nodes[i].key, buckets[h := Chain(Without(buckets[h].nodes, i))];
    StoredRemoved(buckets, a, h, i, UnlinkedAbs(a, key));
    NodeIsEntry(buckets, a, h, i);
    FewerKeys(a.contents, key);
    KeptInPlace(hash, buckets, b, a, UnlinkedAbs(a, key));
  }

  lemma FewerKeys(c: map<Key, Val>, key: Key)
    requires key in c
    ensures |c| > 0 && |c - {key}| == |c| - 1
  {
    assert (c - {key}).Keys == c.Keys - {key};
  }

  /** As long as the same buckets are rehashed, keys that have not moved are still in place. */
  lemma KeptInPlace(hash: Key -> nat, b: seq<Bucket>, b': seq<Bucket>, a: Abs, a': Abs)
    requires InPlace(hash, b, a) && |b'| == |b| && forall j: nat :: IsChain(b', j) <==> IsChain(b, j)
    requires forall key | key in a'.loc :: (key in a.loc && a'.loc[key] == a.loc[key])
               || (OnPath(a'.loc[key], hash(key)) && DeepestFor(b, hash(key), a'.loc[key]))
    ensures InPlace(hash, b', a')
  {
    forall key | key in a'.loc ensures OnPath(a'.loc[key], hash(key)) && DeepestFor(b', hash(key), a'.loc[key]) {
      assert DeepestFor(b, hash(key), a'.loc[key]);
    }
  }

  lemma NodeIsEntry(buckets: seq<Bucket>, a: Abs, h: nat, i: nat)
    requires Stored(buckets, a) && IsChain(buckets, h) && i < |buckets[h].nodes|
    ensures var n := buckets[h].nodes[i]; n.key in a.contents && a.contents[n.key] == n.val
  {
    assert NodeAt(buckets[h].nodes[i], h, a);
  }

  class HashMap {
    const hash: Key -> nat
    /** my_mask is 2^k - 1. */
    var k: nat
    var buckets: seq<Bucket>
    var size: nat
    /** The map the table stands for, and where its keys are. */
    ghost var abs: Abs

    ghost predicate Valid()
      reads this
    {
      && (k == 1 || k >= 8) && |buckets| == Pow2(k) && IsChain(buckets, 0) && IsChain(buckets, 1)
      && Stored(buckets, abs) && InPlace(hash, buckets, abs) && size == |abs.contents|
      && KeysClear(hash, buckets, abs) && LastSettled(buckets, k)
    }

    /** A new table has two buckets, and as many more as are asked for. */
    constructor (hash: Key -> nat, n: nat)
      ensures Valid() && this.hash == hash && abs.contents == map[] && |buckets| >= n && AllRehashed(buckets)
      ensures if n <= 2 then k == 1 else |buckets| >= 256 && LeastPower(|buckets|, n)
    {
      this.hash := hash;
      k, buckets, size, abs := 1, [Chain([]), Chain([])], 0, Abs(map[], map[]);
      new;
      assert Pow2(1) == 2 && AllRehashed(buckets);
      hide Stored, InPlace, KeysClear, LastSettled, AllRehashed, Pow2;
      ghost var embedded := buckets;
      Reserve(n);
      ExtendedRehashed(embedded, buckets);
    }

    /** The table is the one of a protocol state in which nobody is at work. */
    ghost predicate IsTableOf(s: State)
      reads this
    {
      && s.hash == hash && s.k == k && s.buckets == buckets && s.size == size && s.claimed == Below(k)
      && forall t | t in s.threads :: Idles(s.threads[t])
    }

    /** Concurrent operations, from when nobody is at work until that is so again: they may begin on the table
        whatever serial or concurrent operations came before, and leave it to whichever come next. */
    method RunConcurrently(states: seq<State>, moves: seq<HashMapTheorems.Move>)
      returns (ghost maps: seq<map<Key, Val>>)
      requires Valid() && HashMapTheorems.Follows(states, moves) && IsTableOf(states[0])
      requires forall t | t in states[|moves|].threads :: states[|moves|].threads[t].pc == Idle
      modifies this
      ensures Valid() && IsTableOf(states[|moves|])
      ensures HashMapTheorems.IsMapHistory(moves, maps) && maps[0] == old(abs.contents) && maps[|moves|] == abs.contents
      ensures old(ClosedUp(buckets)) ==> ClosedUp(buckets)
    {
      hide Stored, InPlace, KeysClear, LastSettled, ClosedUp, Next, HashMapTheorems.Represents, SpecStep;
      assert StartsWith(states[0], abs);
      ghost var a;
      maps, a := HashMapTheorems.RestStarts(states, moves, abs);
      var last := states[|moves|];
      k, buckets, size, abs := last.k, last.buckets, last.size, a;
    }

    /** Prepares enough segments for n buckets.  New buckets have to be rehashed, unless the table is
        empty. */
    method Reserve(n: nat)
      requires Valid()
      modifies this`k, this`buckets
      ensures Valid() && |buckets| >= n && k >= old(k) && (n <= old(|buckets|) ==> k == old(k))
      ensures n > old(|buckets|) ==> |buckets| >= 256 && LeastPower(|buckets|, n)
      ensures buckets == old(buckets) + Repeat(if size == 0 then Chain([]) else RehashReq, Pow2(k) - Pow2(old(k)))
      ensures k > old(k) ==> (LastRehashed(buckets, k) <==> size == 0)
    {
      hide Stored, InPlace, IsChain, Pow2, KeysClear, LastSettled, LastRehashed, ClosedUp;
      if n == 0 { return; }
      var isInitial := size == 0;
      while n - 1 > Pow2(k) - 1
        invariant Valid() && k >= old(k) && |buckets| >= |old(buckets)| && (n <= old(|buckets|) ==> k == old(k))
        invariant isInitial == (size == 0)
        invariant |buckets| > |old(buckets)| ==> |buckets| >= 256 && (|buckets| == 256 || |buckets| < 2 * n)
        invariant k > old(k) ==> (LastRehashed(buckets, k) <==> size == 0)
        invariant buckets == old(buckets) + Repeat(if size == 0 then Chain([]) else RehashReq, Pow2(k) - Pow2(old(k)))
        decreases n - Pow2(k)
      {
        EnableSegment(k, isInitial);
      }
      if n > |old(buckets)| { BelowTwice(k, n); }
    }

    /** Allocates a segment, or the rest of the first block, and publishes the longer mask. */
    method EnableSegment(segment: nat, isInitial: bool)
      requires Valid() && segment == k && isInitial == (size == 0)
      modifies this`k, this`buckets
      ensures Valid() && k == NextMask(segment) && Pow2(k) > Pow2(segment)
      ensures |buckets| == if |old(buckets)| < 256 then 256 else 2 * |old(buckets)|
      ensures buckets == old(buckets) + Repeat(if isInitial then Chain([]) else RehashReq, Pow2(k) - Pow2(segment))
      ensures isInitial ==> LastRehashed(buckets, k)
      ensures !isInitial ==> !LastRehashed(buckets, k) && (old(ClosedUp(buckets)) ==> ClosedUp(buckets))
    {
      hide Stored, InPlace, KeysClear, ClosedUp, LastSettled, Pow2, LastRehashed, InLast;
      Pow2Monotone(k, NextMask(k));
      BucketsAfter(k);
      var more := Repeat(if isInitial then Chain([]) else RehashReq, Pow2(NextMask(k)) - Pow2(k));
      if isInitial { NoKeys(buckets, abs); }
      ExtendedOk(hash, buckets, abs, more, isInitial);
      ExtendedSettled(hash, buckets, abs, more, isInitial, k, NextMask(k));
      k := NextMask(segment);
      buckets := buckets + more;
    }

    /** Marks the buckets under h that have no other rehashed ancestor. */
    method MarkRehashedLevels(h: nat)
      requires k >= 1 && |buckets| == Pow2(k) && IsChain(buckets, h)
      modifies this`buckets
      ensures SubtreeMarked(old(buckets), buckets, h)
      decreases |buckets| - h
    {
      hide Level, Pow2, MarkedUnder;
      var s := Level(h);
      LevelBound(h, k);
      StartMarking(buckets, h);
      while s < k
        invariant |buckets| == Pow2(k) == |old(buckets)| && Level(h) <= s <= k
        invariant MarkedUnder(old(buckets), buckets, h, s)
        decreases k - s
      {
        ChildOf(h, s);
        Pow2Monotone(s + 1, k);
        var child := h + Pow2(s);
        ghost var b0 := buckets;
        if buckets[child].RehashReq? {
          buckets := buckets[child := Chain([])];
          MarkRehashedLevels(child);
          TakeChild(old(buckets), b0, buckets, h, s);
        } else {
          ChildUntouched(old(buckets), buckets, h, s);
          SkipChild(old(buckets), buckets, h, s);
        }
        s := s + 1;
      }
      EndMarking(old(buckets), buckets, h, k);
    }

    /** Moves the nodes of h that belong to other buckets. */
    method SplitBucket(h: nat)
      requires Splitting(hash, k, buckets, abs, h, 0)
      modifies this`buckets, this`abs
      ensures |buckets| == old(|buckets|) && forall j: nat :: IsChain(buckets, j) <==> old(IsChain(buckets, j))
      ensures Stored(buckets, abs) && InPlace(hash, buckets, abs) && abs.contents == old(abs.contents)
    {
      hide Stored, InPlace, OnPath, DeepestFor, SplitAt, MovedTo, Without;
      var p := 0;
      while p < |buckets[h].nodes|
        invariant Splitting(hash, k, buckets, abs, h, p) && abs.contents == old(abs.contents)
        invariant |buckets| == old(|buckets|) && forall j: nat :: IsChain(buckets, j) <==> old(IsChain(buckets, j))
        decreases |buckets[h].nodes| - p
      {
        var q := buckets[h].nodes[p];
        var d := hash(q.key) % Pow2(k);
        if d != h {
          SplitMoves(hash, k, buckets, abs, h, p);
          abs := MovedAbs(abs, q.key, d);
          buckets := MovedTo(buckets, h, p, d);
        } else {
          SplitStays(hash, k, buckets, abs, h, p);
          p := p + 1;
        }
      }
      SplittingEnds(hash, k, buckets, abs, h);
    }

    /** Rehashes the root of an unmarked bucket with the whole subtree that depends on it. */
    method RehashRootOf(b: nat)
      requires Valid() && b < |buckets| && buckets[b].RehashReq?
      modifies this`buckets, this`abs
      ensures Valid() && abs.contents == old(abs.contents)
      ensures IsChain(buckets, b) && Spreads(old(buckets), buckets)
    {
      hide Stored, InPlace, OnPath, KeysClear, LastSettled, Splitting, Level;
      var h: nat := Parent(b);
      RootGap(buckets, b);
      while buckets[h].RehashReq?
        invariant Valid() && buckets == old(buckets) && abs == old(abs)
        invariant h < b && Gap(buckets, h, b) && (buckets[h].RehashReq? ==> h >= 2)
        decreases h
      {
        WiderGap(buckets, h, b);
        h := Parent(h);
      }
      MarkRehashedLevels(h);
      SplittingStarts(hash, k, old(buckets), buckets, abs, h);
      MarksStored(old(buckets), buckets, abs, h);
      MarksSpread(old(buckets), buckets, h);
      ghost var marked := buckets;
      SplitBucket(h);
      SameMarksSpread(old(buckets), marked, buckets);
      Rehashed(hash, old(buckets), old(abs), buckets, abs, k);
    }

    /** Rehashes the whole table.  Only the last segment is scanned.  Nothing is lost, and every key ends
        in the bucket the mask selects for it.  If the table grows, no bucket is left to be rehashed unless it is
        empty and has such buckets; if it does not, none is left unless there are some, but none in the last
        segment. */
    method Rehash(sz: nat)
      requires Valid()
      modifies this
      ensures Valid() && |buckets| >= sz && abs.contents == old(abs.contents) && size == old(size)
      ensures sz <= old(|buckets|) ==> k == old(k)
      ensures sz > old(|buckets|) ==> |buckets| >= 256 && LeastPower(|buckets|, sz)
      ensures AllSelected(hash, buckets, k, abs.contents)
      ensures AllRehashed(buckets) <==>
              old(AllRehashed(buckets)) || if sz > old(|buckets|) then old(size) > 0 else !old(LastRehashed(buckets, k))
      ensures forall j: nat :: old(IsChain(buckets, j)) ==> IsChain(buckets, j)
      ensures old(size) == 0 && sz > old(|buckets|) ==>
                LastRehashed(buckets, k) && forall j: nat :: j < old(|buckets|) ==> buckets[j] == old(buckets[j])
    {
      hide Stored, InPlace, OnPath, KeysClear, LastSettled, AllSelected;
      Reserve(sz);
      ghost var reserved := buckets;
      GrownRehashed(old(buckets), reserved, size, old(k), k);
      ScanLastSegment();
      ScanIsAll(reserved, buckets, k);
      AllAreSelected(hash, buckets, k, abs);
    }

    /** Rehashes the roots of the unmarked buckets of the last segment. */
    method ScanLastSegment()
      requires Valid()
      modifies this`buckets, this`abs
      ensures Valid() && abs.contents == old(abs.contents)
      ensures LastRehashed(buckets, k) && Spreads(old(buckets), buckets)
      ensures old(LastRehashed(buckets, k)) ==> buckets == old(buckets)
    {
      hide Stored, InPlace, OnPath, KeysClear, LastSettled, Spreads;
      SpreadsSelf(buckets);
      ghost var nothingToDo := LastRehashed(buckets, k);
      var b := Pow2(k) / 2;
      while b < Pow2(k)
        invariant Pow2(k) / 2 <= b <= Pow2(k) && Valid() && abs.contents == old(abs.contents)
        invariant nothingToDo ==> buckets == old(buckets)
        invariant Spreads(old(buckets), buckets)
        invariant forall j: nat :: Pow2(k) / 2 <= j < b ==> IsChain(buckets, j)
      {
        assert nothingToDo ==> IsChain(old(buckets), b);
        ghost var before := buckets;
        if buckets[b].RehashReq? {
          RehashRootOf(b);
          StaysRehashed(before, buckets);
          SpreadsOn(old(buckets), before, buckets);
        }
        b := b + 1;
      }
    }

    /** Looks a key up without rehashing: from the bucket the mask selects, up to the nearest rehashed
        parent. */
    method EqualRange(key: Key) returns (found: Option<Node>)
      requires Valid()
      ensures found == if key in abs.contents then Some(Node(key, abs.contents[key])) else None
    {
      hide Stored, InPlace, OnPath, DeepestFor, Level, Pow2;
      var h: nat := hash(key) % Pow2(k);
      MaskOnPath(hash(key), k);
      SelectedIsLast(buckets, hash(key), k);
      while buckets[h].RehashReq?
        invariant h < |buckets| && OnPath(h, hash(key)) && DeepestFor(buckets, hash(key), h)
        decreases h
      {
        UpOne(buckets, hash(key), h);
        h := Parent(h);
      }
      KeyIsHere(hash, buckets, abs, key, h);
      var i := SearchBucket(key, h);
      if i == |buckets[h].nodes| { return None; }
      NodeIsEntry(buckets, abs, h, i);
      found := Some(buckets[h].nodes[i]);
    }

    // ---------------------------------------------------------------- one thread's find, insert and erase

    ghost predicate Shaped()
      reads this
    {
      (k == 1 || k >= 8) && |buckets| == Pow2(k) && IsChain(buckets, 0) && IsChain(buckets, 1)
    }

    /** Lazy rehashing: marks the bucket, rehashes the parent first if it has to be, and takes the nodes
        that belong here from it.  `open` are the buckets that wait for this one. */
    method RehashBucket(h: nat, ghost open: set<nat>)
      requires Shaped() && h < |buckets| && buckets[h].RehashReq?
      requires forall x | x in open :: h < x && EmptyAt(buckets, x)
      requires Stored(buckets, abs) && InPlaceBut(hash, buckets, abs, open)
      modifies this`buckets, this`abs
      ensures Shaped() && Stored(buckets, abs) && InPlaceBut(hash, buckets, abs, open)
      ensures abs.contents == old(abs.contents) && IsChain(buckets, h)
      ensures forall x | x in open :: EmptyAt(buckets, x)
      ensures forall j: nat :: old(IsChain(buckets, j)) ==> IsChain(buckets, j)
      ensures SpreadsOnPath(old(buckets), buckets, h)
      decreases h
    {
      hide Stored, InPlaceBut, Level, Filling, SpreadsOnPath;
      MarkOpens(hash, buckets, abs, open, h);
      buckets := buckets[h := Chain([])];
      if buckets[Parent(h)].RehashReq? {
        ghost var marked := buckets;
        RehashBucket(Parent(h), open + {h});
        OneMoreOnPath(old(buckets), marked, buckets, h);
      } else {
        OneOnPath(old(buckets), buckets, h);
      }
      ghost var before := buckets;
      FillFromParent(h, open);
      SameMarksOnPath(old(buckets), before, buckets, h);
    }

    method FillFromParent(h: nat, ghost open: set<nat>)
      requires Shaped() && h >= 2 && EmptyAt(buckets, h) && IsChain(buckets, Parent(h))
      requires forall x | x in open :: h < x && EmptyAt(buckets, x)
      requires Stored(buckets, abs) && InPlaceBut(hash, buckets, abs, open + {h})
      modifies this`buckets, this`abs
      ensures Shaped() && Stored(buckets, abs) && InPlaceBut(hash, buckets, abs, open)
      ensures abs.contents == old(abs.contents)
      ensures forall x | x in open :: EmptyAt(buckets, x)
      ensures |buckets| == old(|buckets|) && forall j: nat :: IsChain(buckets, j) <==> old(IsChain(buckets, j))
    {
      hide Stored, InPlaceBut, Level, OnPath, MovedTo;
      var p := 0;
      assert Filling(hash, buckets, abs, open + {h}, h, 0);
      hide Filling;
      while p < |buckets[Parent(h)].nodes|
        invariant Shaped() && IsChain(buckets, Parent(h)) && p <= |buckets[Parent(h)].nodes|
        invariant Filling(hash, buckets, abs, open + {h}, h, p) && abs.contents == old(abs.contents)
        invariant forall x | x in open :: EmptyAt(buckets, x)
        invariant forall j: nat :: IsChain(buckets, j) <==> old(IsChain(buckets, j))
        decreases |buckets[Parent(h)].nodes| - p
      {
        var n := buckets[Parent(h)].nodes[p];
        if hash(n.key) % Pow2(Level(h)) == h {
          TakeFromParent(h, p, open);
        } else {
          NotOnPath(h, hash(n.key));
          FillStays(hash, buckets, abs, open + {h}, h, p);
          p := p + 1;
        }
      }
      FillEnds(hash, buckets, abs, open, h);
      FillingStored(hash, buckets, abs, open + {h}, h, p);
    }

    /** Moves a node of the parent that belongs to h. */
    method TakeFromParent(h: nat, p: nat, ghost open: set<nat>)
      requires Shaped() && h >= 2 && IsChain(buckets, Parent(h)) && p < |buckets[Parent(h)].nodes|
      requires hash(buckets[Parent(h)].nodes[p].key) % Pow2(Level(h)) == h
      requires Filling(hash, buckets, abs, open + {h}, h, p)
      requires forall x | x in open :: h < x && EmptyAt(buckets, x)
      modifies this`buckets, this`abs
      ensures Shaped() && IsChain(buckets, Parent(h)) && |buckets[Parent(h)].nodes| == old(|buckets[Parent(h)].nodes|) - 1
      ensures Filling(hash, buckets, abs, open + {h}, h, p) && abs.contents == old(abs.contents)
      ensures forall x | x in open :: EmptyAt(buckets, x)
      ensures forall j: nat :: IsChain(buckets, j) <==> old(IsChain(buckets, j))
    {
      FillMoves(hash, buckets, abs, open + {h}, h, p);
      hide InPlaceBut, Stored, MovedTo;
      ghost var before := buckets;
      var n := buckets[Parent(h)].nodes[p];
      buckets := MovedTo(buckets, Parent(h), p, h);
      abs := MovedAbs(abs, n.key, h);
      forall x | x in open ensures EmptyAt(buckets, x) {
        assert EmptyAt(before, x);
      }
    }

    /** The accessor: makes sure that the bucket the mask selects is rehashed. */
    method Acquire(key: Key) returns (h: nat)
      requires Valid()
      modifies this`buckets, this`abs
      ensures Valid() && h == hash(key) % Pow2(k) && IsChain(buckets, h) && OnPath(h, hash(key))
      ensures DeepestFor(buckets, hash(key), h) && abs.contents == old(abs.contents)
      ensures key in abs.contents <==> HasKey(buckets[h].nodes, key)
      ensures SpreadsOnPath(old(buckets), buckets, hash(key))
    {
      hide Stored, InPlace, InPlaceBut, OnPath, DeepestFor, Level, KeysClear, LastSettled, SpreadsOnPath;
      h := hash(key) % Pow2(k);
      MaskOnPath(hash(key), k);
      NothingSpreads(buckets, hash(key));
      if buckets[h].RehashReq? {
        NothingOpen(hash, buckets, abs);
        RehashBucket(h, {});
        NothingOpen(hash, buckets, abs);
        CutOnPath(old(buckets), buckets, hash(key), k);
        assert Spreads(old(buckets), buckets) by { OnPathSpreads(old(buckets), buckets, hash(key)); }
        Rehashed(hash, old(buckets), old(abs), buckets, abs, k);
      }
      SelectedIsLast(buckets, hash(key), k);
      KeyIsHere(hash, buckets, abs, key, h);
    }

    /** Searches a rehashed bucket. */
    method SearchBucket(key: Key, h: nat) returns (i: nat)
      requires Valid() && IsChain(buckets, h)
      ensures i <= |buckets[h].nodes| && (i < |buckets[h].nodes| <==> HasKey(buckets[h].nodes, key))
      ensures i < |buckets[h].nodes| ==> buckets[h].nodes[i].key == key
    {
      i := 0;
      while i < |buckets[h].nodes| && buckets[h].nodes[i].key != key
        invariant i <= |buckets[h].nodes| && forall p :: 0 <= p < i ==> buckets[h].nodes[p].key != key
      {
        i := i + 1;
      }
    }

    method Find(key: Key) returns (found: Option<Val>)
      requires Valid()
      modifies this`buckets, this`abs
      ensures Valid() && abs.contents == old(abs.contents)
      ensures found == if key in abs.contents then Some(abs.contents[key]) else None
      ensures SpreadsOnPath(old(buckets), buckets, hash(key))
    {
      hide Stored, InPlace, OnPath, DeepestFor, KeysClear, LastSettled;
      var h := Acquire(key);
      var i := SearchBucket(key, h);
      if i == |buckets[h].nodes| { return None; }
      NodeIsEntry(buckets, abs, h, i);
      found := Some(buckets[h].nodes[i].val);
    }

    /** Inserts a new entry, and enables the next segment when there are as many entries as buckets. */
    method Insert(key: Key, val: Val) returns (inserted: bool)
      requires Valid()
      modifies this
      ensures Valid() && (inserted <==> key !in old(abs.contents))
      ensures abs.contents == if inserted then old(abs.contents)[key := val] else old(abs.contents)
      ensures |buckets| == if !inserted || size < |old(buckets)| - 1 then |old(buckets)|
                           else if |old(buckets)| < 256 then 256 else 2 * |old(buckets)|
      ensures SpreadsOnPath(old(buckets), buckets, hash(key))
    {
      hide Stored, InPlace, OnPath, DeepestFor, Level, HasKey, Pow2, KeysClear, LastSettled, SpreadsOnPath, LastRehashed,
           ClosedUp, Repeat;
      var h := Acquire(key);
      var i := SearchBucket(key, h);
      if i < |buckets[h].nodes| { return false; }
      ghost var before := buckets;
      AddNode(key, val, h);
      SameMarksOnPath(old(buckets), before, buckets, hash(key));
      if size >= Pow2(k) - 1 {
        ghost var full := buckets;
        EnableSegment(k, false);
        MarkedOnPath(old(buckets), full, buckets, hash(key));
      }
      inserted := true;
    }

    method AddNode(key: Key, val: Val, h: nat)
      requires Valid() && h == hash(key) % Pow2(k) && IsChain(buckets, h) && OnPath(h, hash(key))
      requires DeepestFor(buckets, hash(key), h) && key !in abs.contents
      modifies this`size, this`buckets, this`abs
      ensures Valid() && abs.contents == old(abs.contents)[key := val] && SameMarks(old(buckets), buckets)
      ensures size == old(size) + 1
    {
      hide Stored, InPlace, OnPath, DeepestFor, Level, HasKey, Pow2, KeysClear, LastSettled;
      size := size + 1;
      AddedIsStored(hash, buckets, abs, h, Node(key, val));
      buckets := buckets[h := Chain([Node(key, val)] + buckets[h].nodes)];
      abs := Abs(abs.contents[key := val], abs.loc[key := h]);
      KeptClear(hash, old(buckets), buckets, old(abs), abs, k);
      SameMarksSettled(old(buckets), buckets, k);
    }

    method Erase(key: Key) returns (erased: bool)
      requires Valid()
      modifies this
      ensures Valid() && (erased <==> key in old(abs.contents))
      ensures abs.contents == old(abs.contents) - {key} && k == old(k)
      ensures SpreadsOnPath(old(buckets), buckets, hash(key))
    {
      hide Stored, InPlace, OnPath, DeepestFor, Level, Pow2, KeysClear, LastSettled, SpreadsOnPath, HasKey;
      var h := Acquire(key);
      var i := SearchBucket(key, h);
      if i == |buckets[h].nodes| { return false; }
      ghost var before := buckets;
      RemoveNode(h, i);
      SameMarksOnPath(old(buckets), before, buckets, hash(key));
      erased := true;
    }

    method RemoveNode(h: nat, i: nat)
      requires Valid() && IsChain(buckets, h) && i < |buckets[h].nodes|
      modifies this`size, this`buckets, this`abs
      ensures Valid() && abs.contents == old(abs.contents) - {old(buckets)[h].nodes[i].key}
      ensures SameMarks(old(buckets), buckets)
    {
      hide Stored, InPlace, OnPath, DeepestFor, Level, Pow2, Without, KeysClear, LastSettled;
      RemovedIsStored(hash, buckets, abs, h, i);
      var key := buckets[h].nodes[i].key;
      buckets := buckets[h := Chain(Without(buckets[h].nodes, i))];
      abs := UnlinkedAbs(abs, key);
      size := size - 1;
      KeptClear(hash, old(buckets), buckets, old(abs), abs, k);
      SameMarksSettled(old(buckets), buckets, k);
    }
  }

  // ---------------------------------------------------------------- two tables that rehash does not finish

  /** Bucket 2 is on the path of no hash code that is a multiple of 4. */
  lemma TwoStaysMarked(b: seq<Bucket>, b': seq<Bucket>, h: nat)
    requires SpreadsOnPath(b, b', h) && h % 4 == 0 && !IsChain(b, 2)
    ensures !IsChain(b', 2)
  {
    assert Level(2) == 2 && Pow2(2) == 4;
  }

  lemma EightBits()
    ensures Pow2(1) == 2 && Pow2(8) == 256
  {
  }

  /** Inserting one key and erasing it leaves an empty table with buckets to be rehashed.  Rehash makes
      it larger, but leaves these buckets as they are. */
  method GrowingEmptyKeepsMarks(val: Val) returns (t: HashMap)
    ensures fresh(t) && t.Valid() && t.abs.contents == map[] && t.k >= 9 && (forall c: nat :: t.hash(c) == c)
    ensures LastRehashed(t.buckets, t.k) && !IsChain(t.buckets, 2) && !AllRehashed(t.buckets)
  {
    hide Stored, InPlace, KeysClear, LastSettled, SpreadsOnPath, OnPath, AllSelected, Level, Pow2, LeastPower;
    EightBits();
    t := new HashMap(key => if key < 0 then 0 else key, 0);
    ghost var b := t.buckets;
    var _ := t.Insert(0, val);
    TwoStaysMarked(b, t.buckets, 0);
    b := t.buckets;
    var _ := t.Erase(0);
    TwoStaysMarked(b, t.buckets, 0);
    assert |t.buckets| == 256 && t.abs.contents == map[];
    b := t.buckets;
    t.Rehash(257);
    assert t.buckets[2] == b[2];
    if t.k <= 8 { Pow2Monotone(t.k, 8); }
  }

  /** With a key inserted after that the table is not empty any more.  Rehash, which does not need to make
      it larger, finds nothing to do in the last segment and again leaves the buckets as they are. */
  method ScanningLastKeepsMarks(val: Val) returns (t: HashMap)
    ensures fresh(t) && t.Valid() && t.abs.contents == map[300 := val] && t.size == 1
    ensures !AllRehashed(t.buckets)
  {
    hide Stored, InPlace, KeysClear, LastSettled, SpreadsOnPath, OnPath, AllSelected, Level, HasKey;
    t := GrowingEmptyKeepsMarks(val);
    assert Pow2(9) == 512;
    Pow2Monotone(9, t.k);
    hide Pow2;
    ghost var b := t.buckets;
    var _ := t.Insert(300, val);
    TwoStaysMarked(b, t.buckets, 300);
    assert Spreads(b, t.buckets) by { OnPathSpreads(b, t.buckets, 300); }
    SpreadsKeeps(b, t.buckets, t.k);
    assert !AllRehashed(t.buckets) by { assert 2 < |t.buckets|; }
    t.Rehash(0);
  }
}
