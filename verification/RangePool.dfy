/** The range pool of the partitioners: a circular buffer of ranges of which the leftmost is at the
    back, and the loop that splits, offers and runs a range.  The partitioner's decisions, which
    depend on stealing and on time, are arbitrary. */
module RangePool {
  import opened HashPaths

  // ---------------------------------------------------------------- ranges

  /** blocked_range */
  datatype Range = Range(lo: int, hi: int, grain: nat)

  predicate Proper(r: Range) { r.lo < r.hi && r.grain >= 1 }

  predicate Divisible(r: Range) { r.grain < r.hi - r.lo }

  function Middle(r: Range): (m: int)
    requires r.lo <= r.hi
    ensures Proper(r) && Divisible(r) ==> r.lo < m < r.hi
  {
    r.lo + (r.hi - r.lo) / 2
  }

  /** A stored range and its relative depth. */
  datatype Entry = Entry(range: Range, depth: nat)

  // ---------------------------------------------------------------- what splitting does to the pool

  predicate CanSplit(pool: seq<Entry>, maxDepth: nat) {
    pool != [] && var back := pool[|pool| - 1]; back.depth < maxDepth && Divisible(back.range)
  }

  /** The leftmost range is split; its left half becomes the new back. */
  function SplitBack(pool: seq<Entry>): seq<Entry>
    requires pool != [] && pool[|pool| - 1].range.lo <= pool[|pool| - 1].range.hi
  {
    var n := |pool| - 1;
    var Entry(r, d) := pool[n];
    pool[..n] + [Entry(r.(lo := Middle(r)), d + 1), Entry(r.(hi := Middle(r)), d + 1)]
  }

  /** The pool holds the interval [lo, hi) cut into pieces, from right to left. */
  ghost predicate Tiles(pool: seq<Entry>, lo: int, hi: int) {
    && (forall i :: 0 <= i < |pool| ==> Proper(pool[i].range))
    && (forall i :: 0 <= i < |pool| - 1 ==> pool[i].range.lo == pool[i + 1].range.hi)
    && if pool == [] then lo == hi else pool[0].range.hi == hi && pool[|pool| - 1].range.lo == lo
  }

  /** A length that comes of halving n so many times: the nearest integer below n / 2^depth, or above it. */
  ghost predicate Halved(length: int, depth: nat, n: int) {
    Pow2(depth) * (length - 1) < n < Pow2(depth) * (length + 1)
  }

  /** An entry's depth tells how often the range of n elements has been halved for it; the grain size stays. */
  ghost predicate DepthsBelow(pool: seq<Entry>, maxDepth: nat, n: int, grain: nat) {
    forall i :: 0 <= i < |pool| ==> 
      && pool[i].depth <= maxDepth && pool[i].range.grain == grain
      && Halved(pool[i].range.hi - pool[i].range.lo, pool[i].depth, n)
  }

  lemma HalvedAgain(length: int, depth: nat, n: int, half: int)
    requires Halved(length, depth, n) && length <= 2 * half + 1 && 2 * half <= length + 1
    ensures Halved(half, depth + 1, n)
  {
    var p := Pow2(depth);
    assert Pow2(depth + 1) == 2 * p;
    hide Pow2;
    MulMonotone(length + 1, 2 * half + 2, p);
    MulMonotone(2 * half - 2, length - 1, p);
    assert 2 * p * (half + 1) == p * (2 * half + 2) && 2 * p * (half - 1) == p * (2 * half - 2);
  }

  function Length(r: Range): int { r.hi - r.lo }

  /** The back has been cut in two pieces one level deeper, the right one in its place and the left one, which is not
      the longer one, behind it as the new back. */
  ghost predicate HalvesBack(before: seq<Entry>, after: seq<Entry>) {
    && before != [] && |after| == |before| + 1
    && var n := |before| - 1;
       && after[..n] == before[..n]
       && after[n + 1].range.lo == before[n].range.lo && after[n].range.hi == before[n].range.hi
       && after[n + 1].range.hi == after[n].range.lo
       && after[n].range.grain == after[n + 1].range.grain == before[n].range.grain
       && Length(after[n + 1].range) <= Length(after[n].range) <= Length(after[n + 1].range) + 1
       && after[n].depth == after[n + 1].depth == before[n].depth + 1
  }

  lemma SplitBackHalves(pool: seq<Entry>)
    requires pool != [] && pool[|pool| - 1].range.lo <= pool[|pool| - 1].range.hi
    ensures HalvesBack(pool, SplitBack(pool))
  {
  }

  lemma SplitBackKeeps(pool: seq<Entry>, m: nat)
    requires m < |pool| && pool[|pool| - 1].range.lo <= pool[|pool| - 1].range.hi
    ensures SplitBack(pool)[..m] == pool[..m]
  {
  }

  lemma SplitBackTiles(pool: seq<Entry>, lo: int, hi: int, maxDepth: nat, n: int, grain: nat)
    requires Tiles(pool, lo, hi) && CanSplit(pool, maxDepth) && DepthsBelow(pool, maxDepth, n, grain)
    ensures Tiles(SplitBack(pool), lo, hi) && DepthsBelow(SplitBack(pool), maxDepth, n, grain)
    ensures |SplitBack(pool)| == |pool| + 1
  {
    var p', last := SplitBack(pool), |pool| - 1;
    forall i | 0 <= i < |p'| - 1 ensures p'[i].range.lo == p'[i + 1].range.hi {
      if i < last { assert p'[i] == pool[i]; }
    }
    forall i | 0 <= i < |p'|
      ensures p'[i].depth <= maxDepth && p'[i].range.grain == grain && Halved(p'[i].range.hi - p'[i].range.lo, p'[i].depth, n)
    {
      if i < last {
        assert p'[i] == pool[i];
      } else {
        var r := pool[last].range;
        HalvedAgain(r.hi - r.lo, pool[last].depth, n, p'[i].range.hi - p'[i].range.lo);
      }
    }
  }

  /** The front is the rightmost piece; without it the pool holds what is left of it. */
  lemma WithoutFront(pool: seq<Entry>, lo: int, hi: int, maxDepth: nat, n: int, grain: nat)
    requires Tiles(pool, lo, hi) && DepthsBelow(pool, maxDepth, n, grain) && |pool| > 1
    ensures pool[0].range.hi == hi && lo < pool[0].range.lo < hi && pool[0].depth <= maxDepth
    ensures Halved(hi - pool[0].range.lo, pool[0].depth, n)
    ensures Tiles(pool[1..], lo, pool[0].range.lo) && DepthsBelow(pool[1..], maxDepth, n, grain)
  {
    TilesSpan(pool[1..], lo, pool[0].range.lo);
  }

  lemma {:induction false} TilesSpan(pool: seq<Entry>, lo: int, hi: int)
    requires Tiles(pool, lo, hi)
    ensures lo <= hi && (pool != [] ==> lo < hi)
    decreases |pool|
  {
    if pool != [] { TilesSpan(pool[1..], lo, pool[0].range.lo); }
  }

  /** The back is the leftmost piece. */
  lemma WithoutBack(pool: seq<Entry>, lo: int, hi: int, maxDepth: nat, n: int, grain: nat)
    requires Tiles(pool, lo, hi) && DepthsBelow(pool, maxDepth, n, grain) && pool != []
    ensures pool[|pool| - 1].range.lo == lo < pool[|pool| - 1].range.hi
    ensures Halved(pool[|pool| - 1].range.hi - lo, pool[|pool| - 1].depth, n)
    ensures Tiles(pool[..|pool| - 1], pool[|pool| - 1].range.hi, hi) && DepthsBelow(pool[..|pool| - 1], maxDepth, n, grain)
  {
  }

  lemma BackStays(pool: seq<Entry>, maxDepth: nat, n: int, grain: nat)
    requires DepthsBelow(pool, maxDepth, n, grain) && pool != []
    ensures var back := pool[|pool| - 1];
            !CanSplit(pool, maxDepth) ==> back.depth >= maxDepth || back.range.hi - back.range.lo <= grain
  {
  }

  lemma DeeperBelow(pool: seq<Entry>, maxDepth: nat, maxDepth': nat, n: int, grain: nat)
    requires DepthsBelow(pool, maxDepth, n, grain) && maxDepth <= maxDepth'
    ensures DepthsBelow(pool, maxDepth', n, grain)
  {
  }

  // ---------------------------------------------------------------- what a task does with its range

  /** `depth` is that of the piece in the pool, `maxDepth` how deep the partitioner allows splitting, and `stored` how
      many pieces the pool holds.  What is run or offered without a pool has depth 0. */
  datatype Action = Ran(lo: int, hi: int, depth: nat, maxDepth: nat, stored: nat) | Offered(lo: int, hi: int, depth: nat, maxDepth: nat)

  /** Running takes a piece from the left of what is left of [lo, hi), offering one from the right. */
  ghost predicate Follows(actions: seq<Action>, lo: int, hi: int, lo': int, hi': int)
    decreases |actions|
  {
    if actions == [] then lo == lo' && hi == hi' else
      var n := |actions| - 1;
      var a := actions[n];
      match a
      case Ran(from, to, _, _, _) => from < to && lo' == to && Follows(actions[..n], lo, hi, from, hi')
      case Offered(from, to, depth, maxDepth) =>
        depth <= maxDepth && lo' < from < to && hi' == from && Follows(actions[..n], lo, hi, lo', to)
  }

  /** From the k-th on the actions are on pieces of a pool that has begun with a range of n elements: each piece is
      as long as halving that range as often as its depth says makes it, and it is run only if it cannot be split
      any more or the pool is full. */
  ghost predicate Pieces(actions: seq<Action>, k: nat, n: int, grain: nat, cap: nat) {
    && k <= |actions|
    && forall i :: k <= i < |actions| ==>
         && Halved(actions[i].hi - actions[i].lo, actions[i].depth, n)
         && (actions[i].Ran? ==> Unsplittable(actions[i], grain, cap))
  }

  predicate Unsplittable(a: Action, grain: nat, cap: nat)
    requires a.Ran?
  {
    a.hi - a.lo <= grain || a.depth >= a.maxDepth || a.stored == cap
  }

  lemma FollowsRun(actions: seq<Action>, lo: int, hi: int, lo': int, hi': int, a: Action)
    requires Follows(actions, lo, hi, lo', hi') && a.Ran? && a.lo == lo' < a.hi
    ensures Follows(actions + [a], lo, hi, a.hi, hi')
  {
    assert (actions + [a])[..|actions|] == actions;
  }

  lemma FollowsOffer(actions: seq<Action>, lo: int, hi: int, lo': int, hi': int, from: int, depth: nat, maxDepth: nat)
    requires Follows(actions, lo, hi, lo', hi') && lo' < from < hi' && depth <= maxDepth
    ensures Follows(actions + [Offered(from, hi', depth, maxDepth)], lo, hi, lo', from)
  {
    assert (actions + [Offered(from, hi', depth, maxDepth)])[..|actions|] == actions;
  }

  /** The actions tell what is left. */
  lemma {:induction false} FollowsUnique(actions: seq<Action>, lo: int, hi: int, a: int, b: int, a': int, b': int)
    requires Follows(actions, lo, hi, a, b) && Follows(actions, lo, hi, a', b')
    ensures a == a' && b == b'
    decreases |actions|
  {
    if actions != [] {
      var n := |actions| - 1;
      match actions[n]
      case Ran(from, _, _, _, _) => FollowsUnique(actions[..n], lo, hi, from, b, from, b');
      case Offered(_, to, _, _) => FollowsUnique(actions[..n], lo, hi, a, to, a', to);
    }
  }

  predicate Covers(a: Action, x: int) { a.lo <= x < a.hi }

  /** So each position of the range is run or offered exactly once. */
  lemma {:induction false} EachOnce(actions: seq<Action>, lo: int, hi: int, lo': int, hi': int, x: int)
    requires Follows(actions, lo, hi, lo', hi') && lo' <= hi'
    ensures lo <= lo' <= hi' <= hi
    ensures lo <= x < lo' || hi' <= x < hi <==> exists i :: 0 <= i < |actions| && Covers(actions[i], x)
    ensures forall i, j :: 0 <= i < j < |actions| && Covers(actions[i], x) ==> !Covers(actions[j], x)
    decreases |actions|
  {
    if actions != [] {
      var n := |actions| - 1;
      var a := actions[n];
      if a.Ran? { EachOnce(actions[..n], lo, hi, a.lo, hi', x); } else { EachOnce(actions[..n], lo, hi, lo', a.hi, x); }
      assert forall i :: 0 <= i < n ==> actions[..n][i] == actions[i];
      if i :| 0 <= i < |actions| && Covers(actions[i], x) {
        if i < n { assert Covers(actions[..n][i], x); }
      }
      if lo <= x < lo' || hi' <= x < hi {
        if !Covers(a, x) {
          var i :| 0 <= i < n && Covers(actions[..n][i], x);
          assert Covers(actions[i], x);
        }
      }
    }
  }

  // ---------------------------------------------------------------- the circular buffer

  /** Where the j-th range from the front is. */
  function Place(tail: nat, j: nat, cap: nat): (i: nat)
    requires tail < cap && j <= cap
    ensures i < cap && i == if tail + j < cap then tail + j else tail + j - cap
  {
    DivModUnique(tail + j, cap, if tail + j < cap then 0 else 1, if tail + j < cap then tail + j else tail + j - cap);
    (tail + j) % cap
  }

  class RangeVector {
    const cap: nat
    const pool: array<Range>
    const depths: array<nat>
    var head: nat
    var tail: nat
    var size: nat

    ghost predicate Valid()
      reads this, pool, depths
    {
      && cap >= 2 && pool.Length == depths.Length == cap && head < cap && tail < cap && size <= cap
      && head == (if size == 0 then Place(tail, cap - 1, cap) else Place(tail, size - 1, cap))
      && forall j :: 0 <= j < size ==> pool[Place(tail, j, cap)].lo <= pool[Place(tail, j, cap)].hi
    }

    /** The stored ranges, front first. */
    ghost function Contents(): (s: seq<Entry>)
      requires Valid()
      reads this, pool, depths
      ensures |s| == size
    {
      seq(size, j requires 0 <= j < size reads this, pool, depths requires Valid() =>
        Entry(pool[Place(tail, j, cap)], depths[Place(tail, j, cap)]))
    }

    constructor (elem: Range, cap: nat)
      requires cap >= 2 && Proper(elem)
      ensures Valid() && fresh(pool) && fresh(depths) && this.cap == cap && Contents() == [Entry(elem, 0)]
    {
      this.cap := cap;
      pool := new Range[cap](_ => elem);
      depths := new nat[cap](_ => 0);
      head, tail, size := 0, 0, 1;
    }

    /** The leftmost range. */
    function Back(): (e: Range)
      requires Valid() && size > 0
      reads this, pool, depths
      ensures e == Contents()[size - 1].range
    {
      pool[head]
    }

    /** The rightmost range, and its depth. */
    function Front(): (e: Range)
      requires Valid() && size > 0
      reads this, pool, depths
      ensures e == Contents()[0].range
    {
      pool[tail]
    }

    function FrontDepth(): (d: nat)
      requires Valid() && size > 0
      reads this, pool, depths
      ensures d == Contents()[0].depth
    {
      depths[tail]
    }

    function BackDepth(): (d: nat)
      requires Valid() && size > 0
      reads this, pool, depths
      ensures d == Contents()[size - 1].depth
    {
      depths[head]
    }

    predicate IsDivisible(maxDepth: nat)
      requires Valid() && size > 0
      reads this, pool, depths
      ensures IsDivisible(maxDepth) <==> CanSplit(Contents(), maxDepth)
    {
      depths[head] < maxDepth && Divisible(pool[head])
    }

    /** Splits the back of the pool while it may be split and there is room. */
    method SplitToFill(maxDepth: nat, ghost lo: int, ghost hi: int, ghost n: int, ghost grain: nat)
      requires Valid() && size > 0 && Tiles(Contents(), lo, hi) && DepthsBelow(Contents(), maxDepth, n, grain)
      modifies this`head, this`size, pool, depths
      ensures Valid() && size >= old(size) && Tiles(Contents(), lo, hi) && DepthsBelow(Contents(), maxDepth, n, grain)
      ensures size == cap || !CanSplit(Contents(), maxDepth)
      ensures Contents()[..old(size) - 1] == old(Contents())[..old(size) - 1]
      ensures !old(CanSplit(Contents(), maxDepth)) ==> Contents() == old(Contents())
      ensures old(CanSplit(Contents(), maxDepth)) && old(size) < cap ==> size > old(size)
    {
      hide Tiles, DepthsBelow, SplitBack, HalvesBack, Place, Middle, Divisible;
      while size < cap && IsDivisible(maxDepth)
        invariant Valid() && size >= old(size) && size > 0
        invariant Contents()[..old(size) - 1] == old(Contents())[..old(size) - 1]
        invariant Tiles(Contents(), lo, hi) && DepthsBelow(Contents(), maxDepth, n, grain)
        invariant if size == old(size) then Contents() == old(Contents()) else old(CanSplit(Contents(), maxDepth))
        decreases cap - size
      {
        BackIsSplittable();
        SplitBackTiles(Contents(), lo, hi, maxDepth, n, grain);
        ghost var before := Contents();
        SplitOnce();
        SplitBackKeeps(before, old(size) - 1);
      }
    }

    lemma BackIsSplittable()
      requires Valid() && size > 0
      ensures Contents()[size - 1].range.lo <= Contents()[size - 1].range.hi
      ensures pool[head].lo <= Middle(pool[head]) <= pool[head].hi
    {
    }

    /** One round of split_to_fill halves the back. */
    method SplitOnce()
      requires Valid() && 0 < size < cap && pool[head].lo <= Middle(pool[head]) <= pool[head].hi
      modifies this`head, this`size, pool, depths
      ensures Valid() && size == old(size) + 1 && Contents() == SplitBack(old(Contents()))
      ensures HalvesBack(old(Contents()), Contents())
    {
      hide Middle, HalvesBack, Valid;
      BackIsSplittable();
      SplitBackHalves(Contents());
      InverseSplit();
    }

    /** The back moves to the next place, and an "inverse split" leaves its right half behind. */
    method InverseSplit()
      requires Valid() && 0 < size < cap && pool[head].lo <= Middle(pool[head]) <= pool[head].hi
      modifies this`head, this`size, pool, depths
      ensures Valid() && size == old(size) + 1 && Contents() == SplitBack(old(Contents()))
    {
      hide Middle, Divisible, Place;
      ghost var before := Contents();
      var prev := head;
      head := Place(head, 1, cap);
      pool[head] := pool[prev];
      var m := Middle(pool[head]);
      pool[prev] := pool[head].(lo := m);
      pool[head] := pool[head].(hi := m);
      depths[prev] := depths[prev] + 1;
      depths[head] := depths[prev];
      size := size + 1;
      assert forall j :: 0 <= j < size - 2 ==> Contents()[j] == before[j];
    }

    method PopBack()
      requires Valid() && size > 0
      modifies this`head, this`size
      ensures Valid() && size == old(size) - 1 && Contents() == old(Contents())[..size]
    {
      size := size - 1;
      head := Place(head, cap - 1, cap);
    }

    method PopFront()
      requires Valid() && size > 0
      modifies this`tail, this`size
      ensures Valid() && size == old(size) - 1 && Contents() == old(Contents())[1..]
    {
      ghost var was := tail;
      size := size - 1;
      tail := Place(tail, 1, cap);
      assert forall j :: 0 <= j < size ==> Place(tail, j, cap) == Place(was, j + 1, cap);
    }
  }

  // ---------------------------------------------------------------- executing a task

  /** Executes a task's range.  The partitioner wants it split so many times first; whenever it is asked after that, it
      decides freely whether there is demand, and how deep to split; only the depth does not shrink. */
  method Execute(range: Range, cap: nat, splits: nat) returns (actions: seq<Action>, ghost k: nat, ghost rest: Range)
    requires Proper(range) && cap >= 2
    ensures exists end :: Follows(actions, range.lo, range.hi, end, end)
    ensures k <= |actions| && Follows(actions[..k], range.lo, range.hi, rest.lo, rest.hi)
    ensures k <= splits && (k < splits ==> !Divisible(rest))
    ensures forall i :: 0 <= i < k ==> actions[i].Offered? && actions[i].depth == 0
    ensures Pieces(actions, k, Length(rest), range.grain, cap)
  {
    var r;
    actions, r := OfferWork(range, splits);
    k, rest := |actions|, r;
    ghost var offered := actions;
    assert actions[..k] == actions;
    hide Follows;
    var maxDepth: nat := *;
    if !Divisible(r) || maxDepth == 0 {
      var action := Ran(r.lo, r.hi, 0, maxDepth, 0);
      FollowsRun(actions, range.lo, range.hi, r.lo, r.hi, action);
      actions := actions + [action];
      WholePiece(r);
    } else {
      actions := RunPool(r, cap, maxDepth, actions, range);
    }
    assert actions[..k] == offered;
  }

  lemma WholePiece(r: Range)
    ensures Halved(r.hi - r.lo, 0, Length(r))
  {
    assert Pow2(0) == 1;
  }

  /** Splits the range and offers the right part, as often as the partitioner wants to. */
  method OfferWork(range: Range, splits: nat) returns (actions: seq<Action>, r: Range)
    requires Proper(range)
    ensures Proper(r) && r.grain == range.grain && Follows(actions, range.lo, range.hi, r.lo, r.hi)
    ensures |actions| <= splits && (|actions| < splits ==> !Divisible(r))
    ensures forall i :: 0 <= i < |actions| ==> actions[i].Offered? && actions[i].depth == 0
  {
    actions, r := [], range;
    while Divisible(r) && |actions| < splits
      invariant |actions| <= splits
      invariant Proper(r) && r.grain == range.grain && Follows(actions, range.lo, range.hi, r.lo, r.hi)
      invariant forall i :: 0 <= i < |actions| ==> actions[i].Offered? && actions[i].depth == 0
      decreases r.hi - r.lo
    {
      var cut :| r.lo < cut < r.hi;
      FollowsOffer(actions, range.lo, range.hi, r.lo, r.hi, cut, 0, 0);
      actions := actions + [Offered(cut, r.hi, 0, 0)];
      r := r.(hi := cut);
    }
  }

  /** The range pool part of the loop. */
  method RunPool(r: Range, cap: nat, maxDepth0: nat, before: seq<Action>, ghost range: Range) returns (actions: seq<Action>)
    requires Proper(r) && cap >= 2 && Follows(before, range.lo, range.hi, r.lo, r.hi)
    ensures exists end :: Follows(actions, range.lo, range.hi, end, end)
    ensures |before| <= |actions| && actions[..|before|] == before && Pieces(actions, |before|, Length(r), r.grain, cap)
  {
    var rangePool := new RangeVector(r, cap);
    var maxDepth := maxDepth0;
    ghost var lo, hi, n, grain := r.lo, r.hi, Length(r), r.grain;
    actions := before;
    hide Follows, Tiles, DepthsBelow, Halved;
    assert Tiles(rangePool.Contents(), lo, hi) && DepthsBelow(rangePool.Contents(), maxDepth, n, grain) by { OneTile(r); }
    while rangePool.size > 0
      invariant rangePool.Valid() && rangePool.cap == cap && fresh(rangePool) && fresh(rangePool.pool) && fresh(rangePool.depths)
      invariant Tiles(rangePool.Contents(), lo, hi) && DepthsBelow(rangePool.Contents(), maxDepth, n, grain)
      invariant Follows(actions, range.lo, range.hi, lo, hi)
      invariant |before| <= |actions| && actions[..|before|] == before && Pieces(actions, |before|, n, grain, cap)
      decreases hi - lo, if CanSplit(rangePool.Contents(), maxDepth) then 0 else 1
    {
      TilesSpan(rangePool.Contents(), lo, hi);
      maxDepth, actions, lo, hi := PoolRound(rangePool, maxDepth, actions, range, lo, hi, |before|, n, grain);
    }
    EmptySpan(lo, hi, rangePool.Contents());
    assert Follows(actions, range.lo, range.hi, lo, lo);
  }

  lemma OneTile(r: Range)
    requires Proper(r)
    ensures Tiles([Entry(r, 0)], r.lo, r.hi) && forall maxDepth: nat :: DepthsBelow([Entry(r, 0)], maxDepth, Length(r), r.grain)
  {
    assert Pow2(0) == 1;
  }

  /** One round of the loop: it fills the pool, and then offers the front, runs the back, or finds that
      it first has to split deeper.  In the last case the next round splits. */
  method PoolRound(rangePool: RangeVector, maxDepth0: nat, before: seq<Action>,
                   ghost range: Range, ghost lo0: int, ghost hi0: int, ghost k: nat, ghost n: int, ghost grain: nat)
    returns (maxDepth: nat, actions: seq<Action>, ghost lo: int, ghost hi: int)
    requires rangePool.Valid() && rangePool.size > 0
    requires Tiles(rangePool.Contents(), lo0, hi0) && DepthsBelow(rangePool.Contents(), maxDepth0, n, grain)
    requires Follows(before, range.lo, range.hi, lo0, hi0) && Pieces(before, k, n, grain, rangePool.cap)
    modifies rangePool, rangePool.pool, rangePool.depths
    ensures rangePool.Valid() && Tiles(rangePool.Contents(), lo, hi) && DepthsBelow(rangePool.Contents(), maxDepth, n, grain)
    ensures Follows(actions, range.lo, range.hi, lo, hi)
    ensures Pieces(actions, k, n, grain, rangePool.cap) && |before| <= |actions| && actions[..|before|] == before
    ensures hi - lo < hi0 - lo0
            || (lo == lo0 && hi == hi0
                && !old(CanSplit(rangePool.Contents(), maxDepth0)) && CanSplit(rangePool.Contents(), maxDepth))
  {
    hide Follows, Tiles, DepthsBelow, Halved, Place, Proper, Divisible, Middle;
    maxDepth, actions, lo, hi := maxDepth0, before, lo0, hi0;
    rangePool.SplitToFill(maxDepth, lo, hi, n, grain);
    var demand := *;
    if demand {
      var deeper: nat := *;
      if deeper > maxDepth {
        DeeperBelow(rangePool.Contents(), maxDepth, deeper, n, grain);
        maxDepth := deeper;
      }
    }
    if demand && rangePool.size > 1 {
      actions, hi := OfferFront(rangePool, maxDepth, actions, range, lo, hi, k, n, grain);
    } else if demand && rangePool.IsDivisible(maxDepth) {
      // not enough depth to offer a range: the next filling splits the only one
    } else {
      actions, lo := RunBack(rangePool, maxDepth, actions, range, lo, hi, k, n, grain);
    }
  }

  /** Offers the rightmost range. */
  method OfferFront(rangePool: RangeVector, maxDepth: nat, before: seq<Action>,
                    ghost range: Range, ghost lo: int, ghost hi: int, ghost k: nat, ghost n: int, ghost grain: nat)
    returns (actions: seq<Action>, ghost hi': int)
    requires rangePool.Valid() && rangePool.size > 1
    requires Tiles(rangePool.Contents(), lo, hi) && DepthsBelow(rangePool.Contents(), maxDepth, n, grain)
    requires Follows(before, range.lo, range.hi, lo, hi) && Pieces(before, k, n, grain, rangePool.cap)
    modifies rangePool, rangePool.pool, rangePool.depths
    ensures rangePool.Valid() && Tiles(rangePool.Contents(), lo, hi') && DepthsBelow(rangePool.Contents(), maxDepth, n, grain)
    ensures Follows(actions, range.lo, range.hi, lo, hi') && hi' < hi
    ensures Pieces(actions, k, n, grain, rangePool.cap) && |before| <= |actions| && actions[..|before|] == before
  {
    hide Follows, Tiles, DepthsBelow, Halved, Place, Proper, Divisible, Middle;
    var front, depth := rangePool.Front(), rangePool.FrontDepth();
    WithoutFront(rangePool.Contents(), lo, hi, maxDepth, n, grain);
    FollowsOffer(before, range.lo, range.hi, lo, hi, front.lo, depth, maxDepth);
    actions := before + [Offered(front.lo, front.hi, depth, maxDepth)];
    rangePool.PopFront();
    hi' := front.lo;
  }

  /** Runs the body on the leftmost range. */
  method RunBack(rangePool: RangeVector, maxDepth: nat, before: seq<Action>,
                 ghost range: Range, ghost lo: int, ghost hi: int, ghost k: nat, ghost n: int, ghost grain: nat)
    returns (actions: seq<Action>, ghost lo': int)
    requires rangePool.Valid() && rangePool.size > 0
    requires rangePool.size == rangePool.cap || !CanSplit(rangePool.Contents(), maxDepth)
    requires Tiles(rangePool.Contents(), lo, hi) && DepthsBelow(rangePool.Contents(), maxDepth, n, grain)
    requires Follows(before, range.lo, range.hi, lo, hi) && Pieces(before, k, n, grain, rangePool.cap)
    modifies rangePool, rangePool.pool, rangePool.depths
    ensures rangePool.Valid() && Tiles(rangePool.Contents(), lo', hi) && DepthsBelow(rangePool.Contents(), maxDepth, n, grain)
    ensures Follows(actions, range.lo, range.hi, lo', hi) && lo < lo'
    ensures Pieces(actions, k, n, grain, rangePool.cap) && |before| <= |actions| && actions[..|before|] == before
  {
    hide Follows, Tiles, DepthsBelow, Halved, Place, Proper, Divisible, Middle;
    var back, depth := rangePool.Back(), rangePool.BackDepth();
    WithoutBack(rangePool.Contents(), lo, hi, maxDepth, n, grain);
    var action := Ran(back.lo, back.hi, depth, maxDepth, rangePool.size);
    assert Unsplittable(action, grain, rangePool.cap) by { BackStays(rangePool.Contents(), maxDepth, n, grain); }
    FollowsRun(before, range.lo, range.hi, lo, hi, action);
    actions := before + [action];
    rangePool.PopBack();
    lo' := back.hi;
  }

  lemma EmptySpan(lo: int, hi: int, pool: seq<Entry>)
    requires Tiles(pool, lo, hi) && pool == []
    ensures lo == hi
  {
  }
}
