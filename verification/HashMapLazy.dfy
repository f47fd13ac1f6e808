/** Lazy rehashing by one thread: while a bucket is being filled from its parent it is open, and a key
    that belongs to it may still be in the parent. */
module HashMapLazy {
  import opened HashPaths
  import opened HashMapProtocol
  import opened HashMapInvariant
  import opened HashMapProof
  import opened HashMapSerial

  /** Every key is in the deepest rehashed bucket of its path that is not open, or deeper. */
  ghost predicate InPlaceBut(hash: Key -> nat, buckets: seq<Bucket>, a: Abs, open: set<nat>) {
    forall key | key in a.loc :: OnPath(a.loc[key], hash(key)) && DeepestBut(buckets, open, hash(key), a.loc[key])
  }

  ghost predicate DeepestBut(buckets: seq<Bucket>, open: set<nat>, h: nat, loc: nat) {
    forall j: nat :: IsChain(buckets, j) && j !in open && OnPath(j, h) ==> j <= loc
  }

  lemma NothingOpen(hash: Key -> nat, buckets: seq<Bucket>, a: Abs)
    ensures InPlaceBut(hash, buckets, a, {}) <==> InPlace(hash, buckets, a)
  {
    forall key | key in a.loc
      ensures DeepestBut(buckets, {}, hash(key), a.loc[key]) <==> DeepestFor(buckets, hash(key), a.loc[key])
    {
    }
  }

  /** Marking a bucket opens it. */
  lemma MarkOpens(hash: Key -> nat, buckets: seq<Bucket>, a: Abs, open: set<nat>, h: nat)
    requires h < |buckets| && buckets[h].RehashReq? && Stored(buckets, a) && InPlaceBut(hash, buckets, a, open)
    ensures Stored(buckets[h := Chain([])], a) && InPlaceBut(hash, buckets[h := Chain([])], a, open + {h})
    ensures forall j: nat :: IsChain(buckets[h := Chain([])], j) <==> IsChain(buckets, j) || j == h
  {
    StoredWithEmpty(buckets, a, h);
    var b := buckets[h := Chain([])];
    forall j: nat ensures IsChain(b, j) <==> IsChain(buckets, j) || j == h { }
    forall key | key in a.loc ensures DeepestBut(b, open + {h}, hash(key), a.loc[key]) {
      assert DeepestBut(buckets, open, hash(key), a.loc[key]);
      forall j: nat | IsChain(b, j) && j !in open + {h} && OnPath(j, hash(key)) ensures j <= a.loc[key] {
        assert IsChain(buckets, j);
      }
    }
  }

  /** The first p nodes of the parent do not belong to the bucket h that is being filled. */
  ghost predicate Filling(hash: Key -> nat, buckets: seq<Bucket>, a: Abs, open: set<nat>, h: nat, p: nat) {
    && h >= 2 && h in open && IsChain(buckets, h) && IsChain(buckets, Parent(h)) && Parent(h) !in open
    && Stored(buckets, a) && InPlaceBut(hash, buckets, a, open)
    && p <= |buckets[Parent(h)].nodes|
    && forall i :: 0 <= i < p ==> !OnPath(h, hash(buckets[Parent(h)].nodes[i].key))
  }

  lemma FillStays(hash: Key -> nat, buckets: seq<Bucket>, a: Abs, open: set<nat>, h: nat, p: nat)
    requires Filling(hash, buckets, a, open, h, p) && p < |buckets[Parent(h)].nodes|
    requires !OnPath(h, hash(buckets[Parent(h)].nodes[p].key))
    ensures Filling(hash, buckets, a, open, h, p + 1)
  {
  }

  lemma FillMoves(hash: Key -> nat, buckets: seq<Bucket>, a: Abs, open: set<nat>, h: nat, p: nat)
    requires Filling(hash, buckets, a, open, h, p) && p < |buckets[Parent(h)].nodes|
    requires OnPath(h, hash(buckets[Parent(h)].nodes[p].key))
    ensures var b := MovedTo(buckets, Parent(h), p, h);
            && Filling(hash, b, MovedAbs(a, buckets[Parent(h)].nodes[p].key, h), open, h, p)
            && |b| == |buckets| && |b[Parent(h)].nodes| == |buckets[Parent(h)].nodes| - 1
            && (forall j: nat :: IsChain(b, j) <==> IsChain(buckets, j))
            && (forall j: nat :: j < |b| && j != h && j != Parent(h) ==> b[j] == buckets[j])
  {
    var f := Parent(h);
    var n := buckets[f].nodes[p];
    var b, a' := MovedTo(buckets, f, p, h), MovedAbs(a, n.key, h);
    MoveToStored(buckets, a, f, p, h);
    assert NodeAt(n, f, a);
    assert forall j: nat :: IsChain(b, j) <==> IsChain(buckets, j);
    forall key | key in a'.loc ensures OnPath(a'.loc[key], hash(key)) && DeepestBut(b, open, hash(key), a'.loc[key]) {
      assert OnPath(a.loc[key], hash(key)) && DeepestBut(buckets, open, hash(key), a.loc[key]);
      forall j: nat | IsChain(b, j) && j !in open && OnPath(j, hash(key)) ensures j <= a'.loc[key] {
        assert IsChain(buckets, j);
      }
    }
  }

  /** When the whole parent has been scanned the bucket is no longer open. */
  lemma FillEnds(hash: Key -> nat, buckets: seq<Bucket>, a: Abs, open: set<nat>, h: nat)
    requires h >= 2 && IsChain(buckets, Parent(h))
    requires Filling(hash, buckets, a, open + {h}, h, |buckets[Parent(h)].nodes|)
    ensures InPlaceBut(hash, buckets, a, open)
  {
    forall key | key in a.loc ensures OnPath(a.loc[key], hash(key)) && DeepestBut(buckets, open, hash(key), a.loc[key]) {
      var c, loc := hash(key), a.loc[key];
      assert OnPath(loc, c) && DeepestBut(buckets, open + {h}, c, loc);
      if OnPath(h, c) { FilledIsDeep(hash, buckets, a, open, h, key); }
      forall j: nat | IsChain(buckets, j) && j !in open && OnPath(j, c) ensures j <= loc {
        assert j != h ==> j !in open + {h};
      }
    }
  }

  lemma FilledIsDeep(hash: Key -> nat, buckets: seq<Bucket>, a: Abs, open: set<nat>, h: nat, key: Key)
    requires h >= 2 && IsChain(buckets, Parent(h))
    requires Filling(hash, buckets, a, open + {h}, h, |buckets[Parent(h)].nodes|)
    requires key in a.loc && OnPath(h, hash(key))
    ensures h <= a.loc[key]
  {
    var c, loc := hash(key), a.loc[key];
    assert OnPath(loc, c) && DeepestBut(buckets, open + {h}, c, loc);
    PathParent(h, c);
    assert Parent(h) <= loc;
    assert IsChain(buckets, loc) && HasKey(buckets[loc].nodes, key);
    NotInParent(hash, buckets, h, key);
    if loc < h { PathBetween(loc, h, c); }
  }

  lemma NotInParent(hash: Key -> nat, buckets: seq<Bucket>, h: nat, key: Key)
    requires h >= 2 && IsChain(buckets, Parent(h)) && OnPath(h, hash(key))
    requires forall i :: 0 <= i < |buckets[Parent(h)].nodes| ==> !OnPath(h, hash(buckets[Parent(h)].nodes[i].key))
    ensures !HasKey(buckets[Parent(h)].nodes, key)
  {
  }
}
