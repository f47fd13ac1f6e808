/** Iterators and ranges over the hash table, which nobody changes meanwhile.  Buckets that have not
    been rehashed are passed over like empty ones. */
module HashMapIteration {
  import opened Options
  import opened HashPaths
  import opened Segments
  import opened HashMapProtocol
  import opened HashMapInvariant

  // ---------------------------------------------------------------- items

  function NodesAt(buckets: seq<Bucket>, i: nat): seq<Node>
    requires i < |buckets|
  {
    NodesOf(buckets[i])
  }

  /** The items of the buckets from i up to j. */
  function Items(buckets: seq<Bucket>, i: nat, j: nat): seq<Node>
    requires i <= j <= |buckets|
    decreases j - i
  {
    if i == j then [] else NodesAt(buckets, i) + Items(buckets, i + 1, j)
  }

  lemma {:induction false} ItemsSplit(buckets: seq<Bucket>, i: nat, m: nat, j: nat)
    requires i <= m <= j <= |buckets|
    ensures Items(buckets, i, j) == Items(buckets, i, m) + Items(buckets, m, j)
    decreases m - i
  {
    if i < m { ItemsSplit(buckets, i + 1, m, j); }
  }

  lemma {:induction false} ItemIsNode(buckets: seq<Bucket>, i: nat, j: nat, n: Node)
    requires i <= j <= |buckets|
    ensures n in Items(buckets, i, j) <==> exists b: nat :: i <= b < j && n in NodesAt(buckets, b)
    decreases j - i
  {
    if i < j {
      ItemIsNode(buckets, i + 1, j, n);
      if n in NodesAt(buckets, i) { assert i <= i < j && n in NodesAt(buckets, i); }
    }
  }

  predicate Unique(items: seq<Node>) {
    forall p, q :: 0 <= p < q < |items| ==> items[p].key != items[q].key
  }

  lemma {:induction false} ItemsUnique(buckets: seq<Bucket>, a: Abs, i: nat, j: nat)
    requires Stored(buckets, a) && i <= j <= |buckets|
    ensures Unique(Items(buckets, i, j))
    decreases j - i
  {
    if i < j {
      ItemsUnique(buckets, a, i + 1, j);
      var here, rest := NodesAt(buckets, i), Items(buckets, i + 1, j);
      forall p, q | 0 <= p < |here| && 0 <= q < |rest| ensures here[p].key != rest[q].key {
        ItemIsNode(buckets, i + 1, j, rest[q]);
        var b: nat :| i + 1 <= b < j && rest[q] in NodesAt(buckets, b);
        var r :| 0 <= r < |NodesAt(buckets, b)| && NodesAt(buckets, b)[r] == rest[q];
        assert NodeAt(buckets[i].nodes[p], i, a) && NodeAt(buckets[b].nodes[r], b, a);
      }
    }
  }

  /** The traversal of the whole table comes by every stored item exactly once, wherever lazy rehashing
      has left it. */
  lemma VisitsEachOnce(buckets: seq<Bucket>, a: Abs)
    requires Stored(buckets, a)
    ensures Unique(Items(buckets, 0, |buckets|))
    ensures forall n: Node :: n in Items(buckets, 0, |buckets|) <==> n.key in a.contents && a.contents[n.key] == n.val
  {
    ItemsUnique(buckets, a, 0, |buckets|);
    forall n: Node
      ensures n in Items(buckets, 0, |buckets|) <==> n.key in a.contents && a.contents[n.key] == n.val
    {
      ItemIsNode(buckets, 0, |buckets|, n);
      if n.key in a.contents && a.contents[n.key] == n.val {
        var b := a.loc[n.key];
        var i :| 0 <= i < |buckets[b].nodes| && buckets[b].nodes[i].key == n.key;
        assert NodeAt(buckets[b].nodes[i], b, a);
        assert n in NodesAt(buckets, b);
      }
      forall b: nat | b < |buckets| && n in NodesAt(buckets, b) ensures n.key in a.contents && a.contents[n.key] == n.val {
        NodeIsEntry(buckets, a, b, n);
      }
    }
  }

  lemma NodeIsEntry(buckets: seq<Bucket>, a: Abs, b: nat, n: Node)
    requires Stored(buckets, a) && b < |buckets| && n in NodesAt(buckets, b)
    ensures n.key in a.contents && a.contents[n.key] == n.val
  {
    var i :| 0 <= i < |buckets[b].nodes| && buckets[b].nodes[i] == n;
    assert NodeAt(buckets[b].nodes[i], b, a);
  }

  lemma FirstOf(buckets: seq<Bucket>, i: nat)
    requires i < |buckets|
    ensures Items(buckets, i, |buckets|) == NodesAt(buckets, i)[0..] + Items(buckets, i + 1, |buckets|)
    ensures NodesAt(buckets, i) == [] ==> Items(buckets, i, |buckets|) == Items(buckets, i + 1, |buckets|)
  {
    assert NodesAt(buckets, i)[0..] == NodesAt(buckets, i);
  }

  lemma NoneOf(buckets: seq<Bucket>)
    ensures Items(buckets, |buckets|, |buckets|) == []
  {
  }

  lemma DropFirst(nodes: seq<Node>, node: nat, rest: seq<Node>)
    requires node < |nodes|
    ensures nodes[node..] + rest != [] && (nodes[node..] + rest)[1..] == nodes[node + 1..] + rest
    ensures nodes[|nodes|..] + rest == rest
  {
  }

  lemma OneMore(items: seq<Node>, rest: seq<Node>)
    requires rest != []
    ensures (items + [rest[0]]) + rest[1..] == items + rest
  {
  }

  // ---------------------------------------------------------------- the iterator

  class Iterator {
    const buckets: seq<Bucket>
    var index: nat
    var bucket: Option<Ptr>
    var node: nat

    ghost predicate Valid()
      reads this
    {
      if bucket == None then index == |buckets|
      else index < |buckets| && bucket == Some(Locate(index)) && node < |NodesAt(buckets, index)|
    }

    /** The items that the iterator has yet to come by. */
    ghost function Rest(): (rest: seq<Node>)
      requires Valid()
      reads this
      ensures bucket == None ==> rest == []
    {
      if bucket == None then [] else NodesAt(buckets, index)[node..] + Items(buckets, index + 1, |buckets|)
    }

    /** At the first item from a bucket on. */
    constructor (buckets: seq<Bucket>, index: nat)
      requires index < |buckets|
      ensures Valid() && this.buckets == buckets && Rest() == Items(buckets, index, |buckets|)
      ensures this.index >= index && forall i :: index <= i < this.index ==> NodesAt(buckets, i) == []
    {
      hide Items, Locate, Level;
      this.buckets := buckets;
      this.index := index;
      this.bucket := Some(Locate(index));
      this.node := 0;
      new;
      FirstOf(buckets, index);
      if NodesAt(buckets, index) == [] { AdvanceToNextBucket(); }
    }

    method AdvanceToNextBucket()
      requires index < |buckets| && bucket == Some(Locate(index))
      modifies this
      ensures Valid() && Rest() == Items(buckets, old(index) + 1, |buckets|) && (bucket.Some? ==> node == 0)
      ensures index > old(index) && forall i :: old(index) < i < index ==> NodesAt(buckets, i) == []
    {
      hide And, Items, Locate;
      var k, b := index + 1, bucket.value;
      while k < |buckets|
        invariant old(index) < k <= |buckets| && b == Locate(k - 1) && index == old(index)
        invariant forall i :: index < i < k ==> NodesAt(buckets, i) == []
        invariant Items(buckets, index + 1, |buckets|) == Items(buckets, k, |buckets|)
        decreases |buckets| - k
      {
        if k == 1 || And(k, k - 2) != 0 {
          NextInSegment(k);
          b := Ptr(b.segment, b.offset + 1);
        } else {
          b := Locate(k);
        }
        if NodesAt(buckets, SegmentBase(b.segment) + b.offset) != [] {
          index, bucket, node := k, Some(b), 0;
          FirstOf(buckets, k);
          return;
        }
        FirstOf(buckets, k);
        k := k + 1;
      }
      NoneOf(buckets);
      bucket, node, index := None, 0, k;
    }

    /** operator++ */
    method Increment()
      requires Valid() && bucket.Some?
      modifies this
      ensures Valid() && old(Rest()) != [] && Rest() == old(Rest())[1..]
    {
      hide Locate, Level, And, Items, NodesAt;
      DropFirst(NodesAt(buckets, index), node, Items(buckets, index + 1, |buckets|));
      node := node + 1;
      if node == |NodesAt(buckets, index)| { AdvanceToNextBucket(); }
    }

    function Current(): (n: Node)
      requires Valid() && bucket.Some?
      reads this
      ensures Rest() != [] && n == Rest()[0]
    {
      NodesAt(buckets, index)[node]
    }
  }

  /** The loop from begin() to end(). */
  method Traverse(buckets: seq<Bucket>) returns (items: seq<Node>)
    requires buckets != []
    ensures items == Items(buckets, 0, |buckets|)
  {
    hide Items, NodesAt;
    var it := new Iterator(buckets, 0);
    items := [];
    while it.bucket.Some?
      invariant fresh(it) && it.Valid() && it.buckets == buckets
      invariant items + it.Rest() == Items(buckets, 0, |buckets|)
      decreases |it.Rest()|
    {
      OneMore(items, it.Rest());
      items := items + [it.Current()];
      it.Increment();
    }
  }

  // ---------------------------------------------------------------- ranges

  /** hash_map_range: its iterators stand on first items of buckets, or at the end. */
  class Range {
    const buckets: seq<Bucket>
    const grainsize: nat
    var begin: nat
    var end: nat
    var midpoint: nat

    predicate OnItem(i: nat) { i == |buckets| || (i < |buckets| && NodesAt(buckets, i) != []) }

    /** The first item from bucket m on is in bucket i, or there is none. */
    ghost predicate IsFirstFrom(m: nat, i: nat) {
      m <= i && OnItem(i) && i <= |buckets| && forall b :: m <= b < i ==> NodesAt(buckets, b) == []
    }

    ghost predicate Valid()
      reads this
    {
      && grainsize >= 1 && begin <= midpoint <= end <= |buckets| && OnItem(begin) && OnItem(midpoint) && OnItem(end)
      && (if end - begin > grainsize then IsFirstFrom(begin + (end - begin) / 2, midpoint) else midpoint == end)
    }

    ghost function Contents(): seq<Node>
      requires Valid()
      reads this
    {
      Items(buckets, begin, end)
    }

    /** A range can be split if it has more buckets than the grain size, and items in the second half of them. */
    predicate IsDivisible()
      requires Valid()
      reads this
      ensures IsDivisible() <==> end - begin > grainsize
                                 && exists b :: begin + (end - begin) / 2 <= b < end && NodesAt(buckets, b) != []
    {
      midpoint != end
    }

    /** The whole table. */
    constructor (buckets: seq<Bucket>, grainsize: nat)
      requires buckets != [] && grainsize >= 1
      ensures Valid() && this.buckets == buckets && this.grainsize == grainsize && Contents() == Items(buckets, 0, |buckets|)
    {
      var first := new Iterator(buckets, 0);
      SkipsNothing(buckets, 0, first.index, |buckets|);
      this.buckets, this.grainsize := buckets, grainsize;
      begin, end, midpoint := first.index, |buckets|, |buckets|;
      new;
      SetMidpoint();
    }

    method SetMidpoint()
      requires grainsize >= 1 && begin <= end <= |buckets| && OnItem(begin) && OnItem(end)
      modifies this`midpoint
      ensures Valid()
      ensures if end - begin > grainsize then IsFirstFrom(begin + (end - begin) / 2, midpoint) else midpoint == end
    {
      var m := end - begin;
      if m > grainsize {
        m := begin + m / 2;
        var it := new Iterator(buckets, m);
        midpoint := it.index;
      } else {
        midpoint := end;
      }
    }

    /** The splitting constructor: the new range gets the part from the midpoint on.  Neither part is
        empty, and nothing is lost. */
    method Split() returns (r: Range)
      requires Valid() && IsDivisible()
      modifies this
      ensures fresh(r) && Valid() && r.Valid() && r.buckets == buckets && r.grainsize == grainsize
      ensures begin == old(begin) && end == r.begin && r.end == old(end)
      ensures Contents() != [] && r.Contents() != [] && old(Contents()) == Contents() + r.Contents()
    {
      ItemsSplit(buckets, begin, midpoint, end);
      r := new Range.Part(buckets, grainsize, midpoint, end);
      end := midpoint;
      SetMidpoint();
    }

    constructor Part(buckets: seq<Bucket>, grainsize: nat, begin: nat, end: nat)
      requires grainsize >= 1 && begin <= end <= |buckets|
      requires begin < |buckets| ==> NodesAt(buckets, begin) != []
      requires end < |buckets| ==> NodesAt(buckets, end) != []
      ensures Valid() && this.buckets == buckets && this.grainsize == grainsize && this.begin == begin && this.end == end
    {
      this.buckets, this.grainsize := buckets, grainsize;
      this.begin, this.end, midpoint := begin, end, end;
      new;
      SetMidpoint();
    }
  }

  lemma {:induction false} SkipsNothing(buckets: seq<Bucket>, i: nat, m: nat, j: nat)
    requires i <= m <= j <= |buckets| && forall b :: i <= b < m ==> NodesAt(buckets, b) == []
    ensures Items(buckets, i, j) == Items(buckets, m, j)
    decreases m - i
  {
    if i < m { SkipsNothing(buckets, i + 1, m, j); }
  }
}
