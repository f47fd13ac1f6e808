/** Bucket indices of the incremental hash table.
    A hash code `c` cut by the mask `2^k - 1` is `c % 2^k`.  As the mask grows, `c` runs through a
    path of bucket indices; a bucket's parent is its index without the topmost set bit.  Everything
    the table's algorithms need to know about these indices is stated here once. */
module HashPaths {

  function Pow2(n: nat): (p: nat)
    ensures p >= 1
  {
    if n == 0 then 1 else 2 * Pow2(n - 1)
  }

  /** The number of low hash bits that bucket j fixes: buckets 0 and 1 fix one bit, any other
      bucket fixes the bits up to its topmost set bit. */
  function Level(j: nat): (n: nat)
    ensures n >= 1
    ensures j < Pow2(n)
    ensures j >= 2 ==> n >= 2 && Pow2(n - 1) <= j
  {
    if j < 2 then 1 else Level(j / 2) + 1
  }

  /** The bucket a new bucket is split from. */
  function Parent(j: nat): (p: nat)
    requires j >= 2
    ensures p < j
  {
    j - Pow2(Level(j) - 1)
  }

  /** Bucket j is one of the buckets that hash code c selects under some mask. */
  predicate OnPath(j: nat, c: nat)
  {
    c % Pow2(Level(j)) == j
  }

  lemma {:induction false} Pow2Monotone(a: nat, b: nat)
    requires a <= b
    ensures Pow2(a) <= Pow2(b)
    ensures a < b ==> Pow2(a) < Pow2(b)
    decreases b
  {
    if a < b { Pow2Monotone(a, b - 1); }
  }

  lemma {:induction false} Pow2Sum(a: nat, b: nat)
    ensures Pow2(a + b) == Pow2(a) * Pow2(b)
  {
    if b != 0 {
      Pow2Sum(a, b - 1);
      assert Pow2(a) * (2 * Pow2(b - 1)) == 2 * (Pow2(a) * Pow2(b - 1));
    }
  }

  lemma OnlyZeroBelow(d: int, m: int)
    requires -m < d * m < m
    ensures d == 0
  {
    if d != 0 {
      if d > 0 { MulMonotone(1, d, m); } else { MulMonotone(d, -1, m); }
      assert false;
    }
  }

  lemma MulMonotone(a: int, b: int, m: int)
    requires a <= b && m > 0
    ensures a * m <= b * m
  {
  }

  lemma DivModUnique(x: nat, m: nat, q: nat, r: nat)
    requires m > 0 && r < m && x == q * m + r
    ensures x / m == q && x % m == r
  {
    var d := x / m - q;
    assert d * m == (x / m) * m - q * m;
    OnlyZeroBelow(d, m);
  }

  lemma Regroup(m: nat, r: nat, q: nat, q': nat, y: nat)
    ensures q * (m * r) + (q' * m + y) == (q * r + q') * m + y
  {
    assert q * (m * r) == (q * r) * m;
  }

  lemma MulModMod(c: nat, m: nat, r: nat, n: nat)
    requires m > 0 && n == m * r && n > 0
    ensures (c % n) % m == c % m
  {
    var q, x := c / n, c % n;
    var q', y := x / m, x % m;
    Regroup(m, r, q, q', y);
    DivModUnique(c, m, q * r + q', y);
  }

  /** Cutting by a wide mask and then by a narrow one is cutting by the narrow one. */
  lemma ModMod(c: nat, a: nat, b: nat)
    requires a <= b
    ensures (c % Pow2(b)) % Pow2(a) == c % Pow2(a)
  {
    Pow2Sum(a, b - a);
    MulModMod(c, Pow2(a), Pow2(b - a), Pow2(b));
  }

  lemma SmallMod(x: nat, n: nat)
    requires x < Pow2(n)
    ensures x % Pow2(n) == x
  {
    DivModUnique(x, Pow2(n), 0, x);
  }

  lemma LevelBound(j: nat, n: nat)
    requires n >= 1 && j < Pow2(n)
    ensures Level(j) <= n
  {
    if j >= 2 && n < Level(j) { Pow2Monotone(n, Level(j) - 1); }
  }

  lemma LevelMonotone(i: nat, j: nat)
    requires i <= j
    ensures Level(i) <= Level(j)
  {
    LevelBound(i, Level(j));
  }

  /** A hash code cut by any mask is on its own path. */
  lemma MaskOnPath(c: nat, k: nat)
    requires k >= 1
    ensures c % Pow2(k) < Pow2(k)
    ensures OnPath(c % Pow2(k), c)
  {
    var j := c % Pow2(k);
    LevelBound(j, k);
    ModMod(c, Level(j), k);
    SmallMod(j, Level(j));
  }

  lemma PathCut(j: nat, c: nat, k: nat)
    requires OnPath(j, c) && Level(j) <= k
    ensures OnPath(j, c % Pow2(k))
    ensures j <= c % Pow2(k)
  {
    ModMod(c, Level(j), k);
    ModIsBelow(c % Pow2(k), Pow2(Level(j)));
  }

  lemma ModIsBelow(x: nat, m: nat)
    requires m > 0
    ensures x % m <= x
  {
  }

  /** c cut by a mask is the largest bucket of its path below that mask. */
  lemma MaskIsLast(j: nat, c: nat, k: nat)
    requires k >= 1 && OnPath(j, c) && j < Pow2(k)
    ensures j <= c % Pow2(k)
  {
    LevelBound(j, k);
    PathCut(j, c, k);
  }

  lemma ParentIsCut(j: nat)
    requires j >= 2
    ensures Parent(j) == j % Pow2(Level(j) - 1)
    ensures Parent(j) < Pow2(Level(j) - 1)
  {
    var p := Pow2(Level(j) - 1);
    assert j < 2 * p;
    DivModUnique(j, p, 1, j - p);
  }

  /** Paths are closed under taking parents. */
  lemma PathParent(j: nat, c: nat)
    requires j >= 2 && OnPath(j, c)
    ensures OnPath(Parent(j), c)
  {
    ParentIsCut(j);
    ModMod(c, Level(j) - 1, Level(j));
    MaskOnPath(c, Level(j) - 1);
  }

  /** A path is a chain, and the parent of a bucket is the path's previous element. */
  lemma PathBetween(i: nat, j: nat, c: nat)
    requires OnPath(i, c) && OnPath(j, c) && i < j
    ensures j >= 2
    ensures i <= Parent(j)
  {
    LevelMonotone(i, j);
    ParentIsCut(j);
    ModMod(c, Level(j) - 1, Level(j));
    MaskIsLastAt(i, c, Level(j) - 1);
  }

  lemma PathIsBelow(i: nat, j: nat)
    requires OnPath(i, j)
    ensures i <= j
  {
    ModIsBelow(j, Pow2(Level(i)));
  }

  lemma PathOfPath(i: nat, j: nat, c: nat)
    requires OnPath(i, c) && OnPath(j, c) && i <= j
    ensures OnPath(i, j)
  {
    LevelMonotone(i, j);
    ModMod(c, Level(i), Level(j));
  }

  lemma OwnPath(x: nat)
    ensures OnPath(x, x)
  {
    SmallMod(x, Level(x));
  }

  lemma MaskIsLastAt(j: nat, c: nat, n: nat)
    requires OnPath(j, c) && Level(j) <= n
    ensures j <= c % Pow2(n)
  {
    PathCut(j, c, n);
  }

  /** Buckets on the path of a bucket on the path of c are on the path of c. */
  lemma PathTransitive(i: nat, j: nat, c: nat)
    requires OnPath(i, j) && OnPath(j, c) && i <= j
    ensures OnPath(i, c)
  {
    LevelMonotone(i, j);
    ModMod(c, Level(i), Level(j));
  }

  /** The next bucket of the path of h above a mask 2^lo - 1 that no longer selects h's bucket:
      cut h by the first longer mask whose top bit is set in h. */
  function NextOnPath(h: nat, lo: nat, hi: nat): (j: nat)
    requires 1 <= lo <= hi && h % Pow2(lo) != h % Pow2(hi)
    ensures j < Pow2(hi)
    decreases hi - lo
  {
    if h % Pow2(lo + 1) != h % Pow2(lo) then Pow2Monotone(lo + 1, hi); h % Pow2(lo + 1)
    else NextOnPath(h, lo + 1, hi)
  }

  lemma NothingBetween(h: nat, lo: nat, i: nat, j: nat)
    requires lo >= 1 && OnPath(i, h) && OnPath(j, h) && j < Pow2(lo + 1) && h % Pow2(lo) < i
    ensures j <= i
  {
    hide OnPath, Level, Pow2;
    if i < j {
      PathBetween(i, j, h);
      LevelBound(j, lo + 1);
      ParentIsCut(j);
      Pow2Monotone(Level(j) - 1, lo);
      MaskIsLast(i, h, lo);
    }
  }

  lemma {:induction false} NextOnPathIsNext(h: nat, lo: nat, hi: nat)
    requires 1 <= lo <= hi && h % Pow2(lo) != h % Pow2(hi)
    ensures var j := NextOnPath(h, lo, hi);
            OnPath(j, h) && h % Pow2(lo) < j
            && (forall i :: OnPath(i, h) && h % Pow2(lo) < i ==> j <= i)
    decreases hi - lo
  {
    var j := NextOnPath(h, lo, hi);
    if h % Pow2(lo + 1) != h % Pow2(lo) {
      MaskOnPath(h, lo);
      MaskOnPath(h, lo + 1);
      Pow2Monotone(lo, lo + 1);
      LevelBound(h % Pow2(lo), lo);
      MaskIsLastAt(h % Pow2(lo), h, lo + 1);
      assert OnPath(j, h) && j < Pow2(lo + 1);
      hide OnPath, Level, Pow2, Parent;
      forall i | OnPath(i, h) && h % Pow2(lo) < i ensures j <= i { NothingBetween(h, lo, i, j); }
    } else {
      NextOnPathIsNext(h, lo + 1, hi);
    }
  }

  /** If two masks cut h alike, no bucket of h's path lies between them. */
  lemma SameCutNoBetween(h: nat, lo: nat, hi: nat, j: nat)
    requires 1 <= lo && 1 <= hi && h % Pow2(lo) == h % Pow2(hi)
    requires OnPath(j, h) && h % Pow2(lo) < j
    ensures Pow2(hi) <= j
  {
    if j < Pow2(hi) { MaskIsLast(j, h, hi); }
  }
}
