/** concurrent_vector in one thread: the segments, of which the first few share one block of memory, bulk
    assignment, resizing, compaction, release, and the iterator that caches a pointer. */
module ConcurrentVector {
  import opened HashPaths
  import opened Segments

  /** A slot of the segment table, or a pointer to an element. */
  datatype Segment<!T> = NotUsed | At(block: array<T>, offset: nat)

  // ---------------------------------------------------------------- layout

  /** The first `end` segments are allocated.  Those below `first` lie in one block, one behind the other;
      each of the others has a block of its own. */
  ghost predicate Layout<T>(table: seq<Segment<T>>, first: nat, end: nat) {
    && end <= |table|
    && (forall k :: 0 <= k < |table| ==> (table[k].At? <==> k < end))
    && (end > 0 ==> first > 0 && table[0].block.Length == Pow2(first))
    && (forall k :: 0 <= k < end ==> Placed(table, first, k))
    && (forall j, k :: 0 <= j < k < end && first <= k ==> table[j].block != table[k].block)
  }

  ghost predicate Placed<T>(table: seq<Segment<T>>, first: nat, k: nat)
    requires k < |table| && table[0].At? && table[k].At?
  {
    if k < first then table[k] == At(table[0].block, SegmentBase(k))
    else table[k].offset == 0 && table[k].block.Length == Pow2(k)
  }

  ghost function Blocks<T>(table: seq<Segment<T>>): set<array<T>> {
    set k | 0 <= k < |table| && table[k].At? :: table[k].block
  }

  /** internal_subscript */
  function Address<T>(table: seq<Segment<T>>, index: nat): (a: Segment<T>)
    requires SegmentOf(index) < |table| && table[SegmentOf(index)].At?
    ensures a.At?
  {
    var p := Locate(index);
    At(table[p.segment].block, table[p.segment].offset + p.offset)
  }

  lemma Allocated<T>(table: seq<Segment<T>>, first: nat, end: nat, index: nat)
    requires Layout(table, first, end) && index < SegmentBase(end)
    ensures SegmentOf(index) < end && table[SegmentOf(index)].At?
  {
    hide Level, Pow2, SegmentBase, Placed;
    SegmentBounds(index);
    if SegmentOf(index) >= end { BaseMonotone(end, SegmentOf(index)); }
  }

  /** A piece is what the loops over segments handle at a time: the shared block, or a later segment. */
  predicate IsPiece(k: nat, first: nat) { k == 0 || first <= k }

  /** Every element lies in a piece, and the pieces are laid out without gaps. */
  lemma PieceAddress<T>(table: seq<Segment<T>>, first: nat, end: nat, k: nat, index: nat)
    requires Layout(table, first, end) && IsPiece(k, first) && k < end
    requires SegmentBase(k) <= index < SegmentBase(end) && index - SegmentBase(k) < table[k].block.Length
    ensures SegmentOf(index) < end && table[SegmentOf(index)].At?
    ensures Address(table, index) == At(table[k].block, index - SegmentBase(k))
  {
    hide Level, Pow2;
    Allocated(table, first, end, index);
    SegmentBounds(index);
    var s := SegmentOf(index);
    assert Placed(table, first, s) && Placed(table, first, k) && Placed(table, first, 0);
    if k > 0 {
      LocateUnique(index, k);
    } else if s >= first {
      Pow2Monotone(first, s);
      assert false;
    }
  }

  function PieceLength(k: nat, first: nat): nat { Pow2(if k == 0 then first else k) }

  function NextPiece(k: nat, first: nat): nat { if k == 0 then first else k + 1 }

  lemma PieceShape<T>(table: seq<Segment<T>>, first: nat, end: nat, k: nat)
    requires Layout(table, first, end) && IsPiece(k, first) && SegmentBase(k) < SegmentBase(end)
    ensures k < end && first > 0 && IsPiece(NextPiece(k, first), first)
    ensures table[k].At? && table[k].offset == 0 && table[k].block.Length == PieceLength(k, first)
    ensures SegmentBase(k) + PieceLength(k, first) == SegmentBase(NextPiece(k, first))
    ensures PieceLength(NextPiece(k, first), first) == if k == 0 then PieceLength(k, first) else 2 * PieceLength(k, first)
  {
    if k >= end { BaseMonotone(end, k); }
    assert Placed(table, first, k) && Placed(table, first, 0);
    hide Level, Pow2, Placed;
  }

  /** The piece an element lies in. */
  function PieceOf(index: nat, first: nat): nat {
    if SegmentOf(index) < first then 0 else SegmentOf(index)
  }

  lemma InPiece<T>(table: seq<Segment<T>>, first: nat, end: nat, index: nat)
    requires Layout(table, first, end) && index < SegmentBase(end)
    ensures SegmentOf(index) < end && table[SegmentOf(index)].At?
    ensures var k := PieceOf(index, first);
            && IsPiece(k, first) && k < end
            && SegmentBase(k) <= index < SegmentBase(k) + table[k].block.Length
            && Address(table, index) == At(table[k].block, index - SegmentBase(k))
  {
    var s := SegmentOf(index);
    assert Pow2(s + 1) == 2 * Pow2(s);
    hide Level, Pow2;
    Allocated(table, first, end, index);
    SegmentBounds(index);
    assert Placed(table, first, s) && Placed(table, first, 0);
    if s < first { BaseMonotone(s + 1, first); }
    PieceAddress(table, first, end, PieceOf(index, first), index);
  }

  /** No two elements share a place. */
  lemma DistinctAddresses<T>(table: seq<Segment<T>>, first: nat, end: nat, i: nat, j: nat)
    requires Layout(table, first, end) && i < SegmentBase(end) && j < SegmentBase(end) && i != j
    ensures SegmentOf(i) < end && SegmentOf(j) < end && table[SegmentOf(i)].At? && table[SegmentOf(j)].At?
    ensures Address(table, i) != Address(table, j)
  {
    hide Level, Pow2, SegmentBase, Placed;
    InPiece(table, first, end, i);
    InPiece(table, first, end, j);
  }

  /** No place is wasted: with the shared block complete, each place of each block belongs to an element. */
  lemma EveryPlaceUsed<T>(table: seq<Segment<T>>, first: nat, end: nat, k: nat, offset: nat)
    requires Layout(table, first, end) && k < end && first <= end && offset < table[k].block.Length
    ensures exists i: nat :: i < SegmentBase(end) && SegmentOf(i) < end && table[SegmentOf(i)].At?
                             && Address(table, i) == At(table[k].block, offset)
  {
    hide Level, Pow2;
    assert Placed(table, first, k) && Placed(table, first, 0);
    var piece := if k < first then 0 else k;
    var i := SegmentBase(piece) + offset;
    if k >= first { BaseMonotone(k + 1, end); BaseMonotone(k, k + 1); } else { BaseMonotone(first, end); }
    PieceAddress(table, first, end, piece, i);
  }

  /** One more segment: within the shared block, or with a new block. */
  lemma ExtendLayout<T>(before: seq<Segment<T>>, after: seq<Segment<T>>, first: nat, k: nat)
    requires k < |after| && first > 0 && (Layout(before, first, k) || k == 0)
    requires k <= |before| && after[..k] == before[..k]
    requires after[k].At? && forall j :: 0 <= j < |after| ==> (after[j].At? <==> j <= k)
    requires if 0 < k < first then after[k] == At(before[0].block, SegmentBase(k))
             else after[k].offset == 0 && after[k].block.Length == Pow2(if k == 0 then first else k)
                  && forall j :: 0 <= j < k ==> before[j].block != after[k].block
    requires forall j :: 0 <= j < |before| && before[j].At? ==> j < k
    ensures Layout(after, first, k + 1)
    ensures Blocks(after) == Blocks(before) + {after[k].block}
    ensures 0 < k < first ==> after[k].block in Blocks(before)
  {
    forall j | 0 <= j < k ensures after[j] == before[j] && Placed(after, first, j) {
      assert after[j] == after[..k][j];
      assert Placed(before, first, j);
    }
    BlocksOf(before, k, after);
  }

  lemma BlocksOf<T>(before: seq<Segment<T>>, k: nat, after: seq<Segment<T>>)
    requires k <= |before| && k < |after| && after[k].At? && forall j :: 0 <= j < k ==> after[j] == before[j]
    requires forall j :: 0 <= j < |before| && before[j].At? ==> j < k
    requires forall j :: 0 <= j < |after| && after[j].At? ==> j <= k
    ensures Blocks(after) == Blocks(before) + {after[k].block}
  {
    forall b | b in Blocks(before) ensures b in Blocks(after) {
      var j :| 0 <= j < |before| && before[j].At? && before[j].block == b;
      assert after[j] == before[j];
    }
    forall b | b in Blocks(after) ensures b in Blocks(before) + {after[k].block} {
      var j :| 0 <= j < |after| && after[j].At? && after[j].block == b;
      assert j < k ==> before[j].block == b;
    }
  }

  // ---------------------------------------------------------------- contents

  ghost function ElementAt<T>(table: seq<Segment<T>>, first: nat, end: nat, index: nat): T
    requires Layout(table, first, end) && index < SegmentBase(end)
    reads Blocks(table)
  {
    InPiece(table, first, end, index);
    var a := Address(table, index);
    a.block[a.offset]
  }

  /** The elements from `from` up to `to` are those of s. */
  ghost predicate Holds<T>(table: seq<Segment<T>>, first: nat, end: nat, from: nat, s: seq<T>)
    requires Layout(table, first, end) && from + |s| <= SegmentBase(end)
    reads Blocks(table)
  {
    forall i :: from <= i < from + |s| ==> ElementAt(table, first, end, i) == s[i - from]
  }

  lemma ElementAddress<T>(table: seq<Segment<T>>, first: nat, end: nat, index: nat)
    requires Layout(table, first, end) && index < SegmentBase(end)
    ensures SegmentOf(index) < end && table[SegmentOf(index)].At?
    ensures var a := Address(table, index);
      a.offset < a.block.Length && ElementAt(table, first, end, index) == a.block[a.offset]
  {
    hide Layout, Level, Pow2, SegmentBase, Placed, Locate;
    InPiece(table, first, end, index);
  }

  lemma SameAddress<T>(before: seq<Segment<T>>, end: nat, after: seq<Segment<T>>, index: nat)
    requires SegmentOf(index) < end <= |before| && end <= |after| && after[..end] == before[..end]
    requires before[SegmentOf(index)].At?
    ensures after[SegmentOf(index)].At? && Address(after, index) == Address(before, index)
  {
    var s := SegmentOf(index);
    assert Locate(index).segment == s;
    hide Level, Pow2, SegmentBase, SegmentOf, Locate;
    assert after[s] == after[..end][s] == before[..end][s] == before[s];
  }

  /** What a table has in common with a longer one. */
  lemma SameElements<T>(before: seq<Segment<T>>, first: nat, end: nat, after: seq<Segment<T>>, first': nat, end': nat, index: nat)
    requires Layout(before, first, end) && Layout(after, first', end') && index < SegmentBase(end)
    requires end <= end' && after[..end] == before[..end]
    ensures index < SegmentBase(end') && ElementAt(before, first, end, index) == ElementAt(after, first', end', index)
  {
    assert end <= |before|;
    hide Level, Pow2, SegmentBase, SegmentOf, Placed, Layout, Locate, ElementAt, Address;
    BaseMonotone(end, end');
    ElementAddress(before, first, end, index);
    ElementAddress(after, first', end', index);
    SameAddress(before, end, after, index);
  }

  /** The number of segments that n elements need. */
  function SegmentsFor(n: nat): nat { if n == 0 then 0 else SegmentOf(n - 1) + 1 }

  lemma SegmentsForFits(n: nat, end: nat)
    ensures n <= SegmentBase(end) <==> SegmentsFor(n) <= end
  {
    hide Level, Pow2, SegmentBase;
    if n > 0 {
      SegmentBounds(n - 1);
      if SegmentsFor(n) <= end { BaseMonotone(SegmentsFor(n), end); } else { BaseMonotone(end, SegmentOf(n - 1)); }
    }
  }

  // ---------------------------------------------------------------- compaction

  /** The first k segments moved into the block seg, and those from stop on taken out. */
  ghost function Compacted<T>(table: seq<Segment<T>>, seg: array<T>, k: nat, stop: nat): seq<Segment<T>> {
    seq(|table|, i requires 0 <= i < |table| =>
      if i < k then At(seg, SegmentBase(i)) else if i < stop then table[i] else NotUsed)
  }

  lemma CompactedLayout<T>(table: seq<Segment<T>>, first: nat, end: nat, seg: array<T>, k: nat, stop: nat)
    requires Layout(table, first, end) && 0 < k <= stop <= end && (first < k || k == stop)
    requires seg.Length == Pow2(k) && seg !in Blocks(table)
    ensures Layout(Compacted(table, seg, k, stop), k, stop)
  {
    hide Level, Pow2, SegmentBase;
    var after := Compacted(table, seg, k, stop);
    forall i | 0 <= i < stop ensures Placed(after, k, i) {
      if i >= k { assert Placed(table, first, i); }
    }
    forall i | k <= i < stop ensures after[i].block in Blocks(table) { assert after[i] == table[i]; }
  }

  /** An element of a compacted vector is in the new block, or where it was. */
  lemma CompactedAddress<T>(table: seq<Segment<T>>, first: nat, end: nat, seg: array<T>, k: nat, stop: nat, index: nat)
    requires Layout(table, first, end) && 0 < k <= stop <= end && (first < k || k == stop)
    requires seg.Length == Pow2(k) && seg !in Blocks(table) && index < SegmentBase(stop)
    ensures var after := Compacted(table, seg, k, stop);
            && SegmentOf(index) < stop && after[SegmentOf(index)].At? && table[SegmentOf(index)].At?
            && Address(after, index) == if index < Pow2(k) then At(seg, index) else Address(table, index)
  {
    hide Level, Placed;
    CompactedLayout(table, first, end, seg, k, stop);
    Allocated(Compacted(table, seg, k, stop), k, stop, index);
    SegmentBounds(index);
    hide Pow2;
    if index < Pow2(k) {
      PieceAddress(Compacted(table, seg, k, stop), k, stop, 0, index);
    } else if SegmentOf(index) < k {
      BaseMonotone(SegmentOf(index) + 1, k);
    }
  }

  lemma MovedElements<T>(table: seq<Segment<T>>, first: nat, end: nat, seg: array<T>, k: nat, stop: nat, size: nat)
    requires Layout(table, first, end) && 0 < k <= stop <= end && (first < k || k == stop)
    requires seg.Length == Pow2(k) && seg !in Blocks(table) && size <= SegmentBase(stop) <= SegmentBase(end)
    requires forall p :: 0 <= p < size && p < seg.Length ==> seg[p] == ElementAt(table, first, end, p)
    ensures var after := Compacted(table, seg, k, stop);
            && Layout(after, k, stop)
            && forall p :: 0 <= p < size ==> ElementAt(after, k, stop, p) == ElementAt(table, first, end, p)
  {
    hide Level, Pow2, SegmentBase, Placed, Compacted, Layout;
    CompactedLayout(table, first, end, seg, k, stop);
    forall p | 0 <= p < size
      ensures ElementAt(Compacted(table, seg, k, stop), k, stop, p) == ElementAt(table, first, end, p)
    {
      CompactedAddress(table, first, end, seg, k, stop, p);
    }
  }

  // ---------------------------------------------------------------- release

  /** A block given back to the allocator, by its pointer and the size that the vector names. */
  datatype Freed<!T> = Freed(segment: Segment<T>, size: nat)

  /** Slot i stands for a block: the one that the segments below `first` share, or one of its own. */
  ghost predicate Owns<T>(table: seq<Segment<T>>, first: nat, i: nat)
    requires i < |table|
  {
    table[i].At? && IsPiece(i, first)
  }

  ghost function Owned<T>(table: seq<Segment<T>>, first: nat): set<array<T>> { OwnedFrom(table, first, 0) }

  ghost function OwnedFrom<T>(table: seq<Segment<T>>, first: nat, k: nat): set<array<T>> {
    set i | k <= i < |table| && Owns(table, first, i) :: table[i].block
  }

  /** The table's slots that stand for blocks stand for different ones, at their beginnings. */
  ghost predicate Freeable<T>(table: seq<Segment<T>>, first: nat) {
    && table != [] && (table[0].At? ==> first > 0)
    && (forall i :: 0 <= i < |table| && Owns(table, first, i) ==>
          table[i].offset == 0 && table[i].block.Length == PieceLength(i, first))
    && (forall i, j :: 0 <= i < j < |table| && Owns(table, first, i) && Owns(table, first, j) ==>
          table[i].block != table[j].block)
  }

  /** Each of the blocks is given back once, with its own size. */
  ghost predicate Releases<T>(freed: seq<Freed<T>>, blocks: set<array<T>>) {
    && (forall i :: 0 <= i < |freed| ==>
          && freed[i].segment.At? && freed[i].segment.block in blocks
          && freed[i].segment.offset == 0 && freed[i].size == freed[i].segment.block.Length)
    && (forall i, j :: 0 <= i < j < |freed| ==> freed[i].segment.block != freed[j].segment.block)
    && (forall b | b in blocks :: exists i :: 0 <= i < |freed| && freed[i].segment == At(b, 0))
  }

  /** What internal_compact hands over: the first k segments, if they have moved, and those from stop on. */
  ghost predicate HandedOver<T>(others: seq<Segment<T>>, table: seq<Segment<T>>, k: nat, stop: nat, end: nat)
    requires end <= |table|
  {
    && |others| == LONG_TABLE
    && forall i :: 0 <= i < |others| ==> others[i] == if i < end && (i < k || stop <= i) then table[i] else NotUsed
  }

  /** When the first segments have moved, all that the compacted vector does not use is handed over. */
  lemma MovedAway<T>(table: seq<Segment<T>>, first: nat, end: nat, seg: array<T>, k: nat, stop: nat, others: seq<Segment<T>>)
    requires Layout(table, first, end) && end <= LONG_TABLE && 0 < k <= stop <= end
    requires (first < k || k == stop) && k != first && seg !in Blocks(table)
    requires HandedOver(others, table, k, stop, end)
    ensures Freeable(others, first)
    ensures Owned(others, first) == Blocks(table) - Blocks(Compacted(table, seg, k, stop))
    ensures Blocks(Compacted(table, seg, k, stop)) <= Blocks(table) + {seg}
  {
    HandedOverFreeable(table, first, end, k, stop, others);
    var after := Compacted(table, seg, k, stop);
    forall b ensures b in Owned(others, first) <==> b in Blocks(table) && b !in Blocks(after) {
      if b in Owned(others, first) {
        var i :| 0 <= i < |others| && Owns(others, first, i) && others[i].block == b;
        assert table[i].block == b;
      }
      if b in Blocks(table) && b !in Blocks(after) {
        var i :| 0 <= i < |table| && table[i].At? && table[i].block == b;
        assert Placed(table, first, i);
        var piece := if i < first then 0 else i;
        assert after[i] == Compacted(table, seg, k, stop)[i] && Owns(others, first, piece);
      }
    }
  }

  lemma HandedOverFreeable<T>(table: seq<Segment<T>>, first: nat, end: nat, k: nat, stop: nat, others: seq<Segment<T>>)
    requires Layout(table, first, end) && end <= LONG_TABLE
    requires HandedOver(others, table, k, stop, end)
    ensures Freeable(others, first)
  {
    forall i | 0 <= i < |others| && Owns(others, first, i)
      ensures i < end && others[i] == table[i] && others[i].offset == 0 && others[i].block.Length == PieceLength(i, first)
    {
      assert Placed(table, first, i) && Placed(table, first, 0);
    }
  }

  ghost function Trimmed<T>(table: seq<Segment<T>>, stop: nat): seq<Segment<T>> {
    seq(|table|, i requires 0 <= i < |table| => if i < stop then table[i] else NotUsed)
  }

  /** When only segments at the end go, these are handed over. */
  lemma TrimmedAway<T>(table: seq<Segment<T>>, first: nat, end: nat, stop: nat, others: seq<Segment<T>>)
    requires Layout(table, first, end) && end <= LONG_TABLE && stop <= end && (first <= stop || stop == 0)
    requires HandedOver(others, table, 0, stop, end)
    ensures Freeable(others, first)
    ensures Owned(others, first) == Blocks(table) - Blocks(Trimmed(table, stop))
    ensures Blocks(Trimmed(table, stop)) <= Blocks(table)
    ensures Layout(Trimmed(table, stop), if stop == 0 then 0 else first, stop)
  {
    HandedOverFreeable(table, first, end, 0, stop, others);
    var after := Trimmed(table, stop);
    forall i | 0 <= i < stop ensures Placed(after, first, i) { assert Placed(table, first, i); }
    forall b ensures b in Owned(others, first) <==> b in Blocks(table) && b !in Blocks(after) {
      if b in Owned(others, first) {
        var i :| 0 <= i < |others| && Owns(others, first, i) && others[i].block == b;
        assert table[i].block == b;
      }
      if b in Blocks(table) && b !in Blocks(after) {
        var i :| 0 <= i < |table| && table[i].At? && table[i].block == b;
        assert Placed(table, first, i);
        assert after[i] == table[i] || i >= stop;
        var piece := if i < first then 0 else i;
        assert Owns(others, first, piece);
      }
    }
  }

  lemma TrimmedElements<T>(table: seq<Segment<T>>, first: nat, end: nat, first': nat, stop: nat, size: nat)
    requires Layout(table, first, end) && Layout(Trimmed(table, stop), first', stop)
    requires stop <= end && size <= SegmentBase(stop)
    ensures SegmentBase(stop) <= SegmentBase(end)
    ensures forall p :: 0 <= p < size ==> ElementAt(Trimmed(table, stop), first', stop, p) == ElementAt(table, first, end, p)
  {
    BaseMonotone(stop, end);
    forall p | 0 <= p < size ensures ElementAt(Trimmed(table, stop), first', stop, p) == ElementAt(table, first, end, p) {
      SameElements(Trimmed(table, stop), first', stop, table, first, end, p);
    }
  }

  /** A compacted table holds the same elements, in blocks that it had before or that are new, and what it does not
      use any more is handed over. */
  ghost predicate Compacts<T>(before: seq<Segment<T>>, first: nat, end: nat, after: seq<Segment<T>>, first': nat, stop: nat,
                              size: nat, others: seq<Segment<T>>, othersFirst: nat, moved: set<array<T>>)
    reads Blocks(before), Blocks(after)
  {
    && |after| == |before| && Layout(before, first, end) && Layout(after, first', stop)
    && size <= SegmentBase(stop) && size <= SegmentBase(end)
    && (forall p :: 0 <= p < size ==> ElementAt(after, first', stop, p) == ElementAt(before, first, end, p))
    && Freeable(others, othersFirst) && Owned(others, othersFirst) == Blocks(before) - Blocks(after)
    && Blocks(after) <= Blocks(before) + moved
  }

  lemma MergedOk<T>(before: seq<Segment<T>>, first: nat, end: nat, seg: array<T>, k: nat, stop: nat,
                    others: seq<Segment<T>>, size: nat)
    requires Layout(before, first, end) && 0 < k <= stop <= end <= LONG_TABLE && (first < k || k == stop) && k != first
    requires seg.Length == Pow2(k) && seg !in Blocks(before) && size <= SegmentBase(stop) <= SegmentBase(end)
    requires forall p :: 0 <= p < size && p < seg.Length ==> seg[p] == ElementAt(before, first, end, p)
    requires |others| == LONG_TABLE && forall i :: 0 <= i < |others| ==> others[i] == if i < k then before[i] else NotUsed
    ensures Compacts(before, first, end, Compacted(before, seg, k, stop), k, stop, size,
                     WithTail(others, before, stop, end), first, {seg})
    ensures stop == end ==> WithTail(others, before, stop, end) == others
  {
    assert end <= |before|;
    hide Level, Pow2, SegmentBase, Placed, ElementAt, Freeable, Owned, HandedOver, Layout;
    TailHandedOver(others, before, k, stop, end);
    MovedAway(before, first, end, seg, k, stop, WithTail(others, before, stop, end));
    MovedElements(before, first, end, seg, k, stop, size);
  }

  lemma TrimmedOk<T>(before: seq<Segment<T>>, first: nat, end: nat, stop: nat, others: seq<Segment<T>>, size: nat)
    requires Layout(before, first, end) && stop <= end <= LONG_TABLE && (first <= stop || stop == 0)
    requires others == seq(LONG_TABLE, _ => NotUsed) && size <= SegmentBase(stop) <= SegmentBase(end)
    ensures Compacts(before, first, end, Trimmed(before, stop), if stop == 0 then 0 else first, stop, size,
                     WithTail(others, before, stop, end), if end == 0 then 0 else first, {})
    ensures stop == end ==> WithTail(others, before, stop, end) == others
  {
    assert end == 0 ==> Layout(before, 0, 0);
    hide Level, Pow2, SegmentBase, Placed, ElementAt, Freeable, Owned, HandedOver, Layout;
    TailHandedOver(others, before, 0, stop, end);
    TrimmedAway(before, if end == 0 then 0 else first, end, stop, WithTail(others, before, stop, end));
    TrimmedElements(before, first, end, if stop == 0 then 0 else first, stop, size);
  }

  lemma ReleaseOne<T>(freed: seq<Freed<T>>, blocks: set<array<T>>, block: array<T>)
    requires Releases(freed, blocks) && block !in blocks
    ensures Releases(freed + [Freed(At(block, 0), block.Length)], blocks + {block})
  {
    var all := freed + [Freed(At(block, 0), block.Length)];
    forall b | b in blocks + {block} ensures exists i :: 0 <= i < |all| && all[i].segment == At(b, 0) {
      if b == block {
        assert all[|freed|].segment == At(b, 0);
      } else {
        var i :| 0 <= i < |freed| && freed[i].segment == At(b, 0);
        assert all[i].segment == At(b, 0);
      }
    }
  }

  /** The table `others` with the segments of `table` from stop up to end copied into it. */
  function WithTail<T>(others: seq<Segment<T>>, table: seq<Segment<T>>, stop: nat, end: nat): seq<Segment<T>>
    requires stop <= end <= |others| && end <= |table|
  {
    others[..stop] + table[stop..end] + others[end..]
  }

  /** A run of elements that destroy_array is called for. */
  datatype Chunk<!T> = Chunk(first: Segment<T>, count: nat)

  /** The elements of some chunks. */
  ghost function Cells<T>(chunks: seq<Chunk<T>>): seq<Segment<T>>
    requires forall c | c in chunks :: c.first.At?
  {
    if chunks == [] then [] else
      var c := chunks[|chunks| - 1];
      Cells(chunks[..|chunks| - 1]) + seq(c.count, i requires 0 <= i => At(c.first.block, c.first.offset + i))
  }

  /** Where the elements from `from` up to `to` are. */
  ghost function Places<T>(table: seq<Segment<T>>, first: nat, end: nat, from: nat, to: nat): (places: seq<Segment<T>>)
    requires Layout(table, first, end) && from <= to <= SegmentBase(end)
    ensures |places| == to - from && forall i :: 0 <= i < |places| ==> places[i] == PlaceOf(table, first, end, from + i)
  {
    seq(to - from, i requires 0 <= i < to - from => PlaceOf(table, first, end, from + i))
  }

  ghost function PlaceOf<T>(table: seq<Segment<T>>, first: nat, end: nat, index: nat): Segment<T>
    requires Layout(table, first, end) && index < SegmentBase(end)
  {
    Allocated(table, first, end, index);
    Address(table, index)
  }

  /** One more chunk: a part of a piece. */
  lemma MoreCells<T>(table: seq<Segment<T>>, first: nat, end: nat, chunks: seq<Chunk<T>>, from: nat, k: nat, st: nat, n: nat)
    requires Layout(table, first, end) && IsPiece(k, first) && k < end && SegmentBase(k) < SegmentBase(end)
    requires from <= SegmentBase(k) + st && SegmentBase(k) + st + n <= SegmentBase(end) && st + n <= table[k].block.Length
    requires (forall c | c in chunks :: c.first.At?) && Cells(chunks) == Places(table, first, end, from, SegmentBase(k) + st)
    ensures table[k].At? && table[k].offset == 0
    ensures var more := chunks + [Chunk(At(table[k].block, st), n)];
      (forall c | c in more :: c.first.At?) && Cells(more) == Places(table, first, end, from, SegmentBase(k) + st + n)
  {
    hide Level, Pow2, SegmentBase, Placed, PieceLength;
    PieceShape(table, first, end, k);
    var more := chunks + [Chunk(At(table[k].block, st), n)];
    assert more[..|more| - 1] == chunks;
    var base := SegmentBase(k);
    forall i: nat | base + st <= i < base + st + n ensures PlaceOf(table, first, end, i) == At(table[k].block, i - base) {
      PieceAddress(table, first, end, k, i);
    }
    var before, all := Places(table, first, end, from, base + st), Places(table, first, end, from, base + st + n);
    var part := seq(n, i requires 0 <= i => At(table[k].block, st + i));
    forall i | 0 <= i < |all| ensures all[i] == (before + part)[i] {
      assert all[i] == PlaceOf(table, first, end, from + i);
    }
    assert all == before + part;
  }

  lemma SlotSet<T>(table: seq<Segment<T>>, first: nat, end: nat, k: nat)
    requires Layout(table, first, end) && k < |table| && table[k].At? && IsPiece(k, first)
    ensures k < end <= |table| && SegmentBase(k) < SegmentBase(end) && table[k].block.Length == PieceLength(k, first)
  {
    BaseMonotone(k, end);
    hide SegmentBase;
    PieceShape(table, first, end, k);
  }

  lemma TailHandedOver<T>(others: seq<Segment<T>>, table: seq<Segment<T>>, k: nat, stop: nat, end: nat)
    requires |others| == LONG_TABLE && k <= stop <= end <= |others| && end <= |table|
    requires forall i :: 0 <= i < |others| ==> others[i] == if i < k then table[i] else NotUsed
    ensures HandedOver(WithTail(others, table, stop, end), table, k, stop, end)
    ensures stop == end ==> WithTail(others, table, stop, end) == others
  {
  }

  lemma BaseIsZero()
    ensures SegmentBase(0) == 0
  {
  }

  // ---------------------------------------------------------------- the vector

  /** helper::incompact_predicate */
  predicate Incompact(bytes: nat) {
    bytes < 4096 || ((bytes - 1) % 4096 < 2048 && bytes < 4096 * 128)
  }

  /** The number of pages that so many bytes need. */
  function Pages(bytes: int): int { (bytes + 4095) / 4096 }

  /** A block that is smaller than a page, or smaller than 128 pages and leaves half a page or more unused. */
  predicate Wasteful(bytes: int) {
    bytes < 4096 || (bytes < 128 * 4096 && Pages(bytes) * 4096 - bytes >= 2048)
  }

  lemma IncompactWastes(bytes: nat)
    ensures Incompact(bytes) <==> Wasteful(bytes)
  {
  }

  /** Up to which segment a vector's first block reaches after compaction: as far as its elements do, if that is less
      than before; otherwise over all the following segments whose blocks would be wasteful, up to one whose block is not. */
  ghost predicate MergedUpTo(first: nat, before: nat, size: nat, elementSize: nat) {
    if SegmentsFor(size) < before then first == SegmentsFor(size)
    else before <= first <= SegmentsFor(size)
         && (forall i :: before <= i < first ==> Wasteful(Pow2(i) * elementSize))
         && (first < SegmentsFor(size) ==> !Wasteful(Pow2(first) * elementSize))
  }

  /** The elements of the first segments lie in one block, in order. */
  ghost predicate FirstTogether<T>(table: seq<Segment<T>>, first: nat, size: nat) {
    && table != []
    && forall p: nat :: p < size && SegmentOf(p) < first ==>
         SegmentOf(p) < |table| && table[SegmentOf(p)].At? && table[0].At? && Address(table, p) == At(table[0].block, p)
  }

  /** internal_free_segments, for all slots of a table */
  method FreeSegments<T>(table: seq<Segment<T>>, first: nat) returns (cleared: seq<Segment<T>>, freed: seq<Freed<T>>)
    requires Freeable(table, first)
    ensures Releases(freed, Owned(table, first))
    ensures |cleared| == |table| && forall i :: 0 <= i < |table| ==>
              cleared[i] == if i < first && table[0].NotUsed? then table[i] else NotUsed
  {
    hide Level, Pow2;
    var k := |table|;
    cleared, freed := table, [];
    while k > first
      invariant (first <= k || k == |table|) && k <= |table| == |cleared|
      invariant forall i :: 0 <= i < |table| ==> cleared[i] == if i < k then table[i] else NotUsed
      invariant Releases(freed, OwnedFrom(table, first, k))
    {
      ghost var before := OwnedFrom(table, first, k);
      k := k - 1;
      var segment := cleared[k];
      cleared := cleared[k := NotUsed];
      if segment.At? {
        ReleaseOne(freed, before, segment.block);
        freed := freed + [Freed(segment, Pow2(k))];
        assert OwnedFrom(table, first, k) == before + {segment.block};
      } else {
        assert OwnedFrom(table, first, k) == before;
      }
    }
    var segment := cleared[0];
    assert Owned(table, first) == OwnedFrom(table, first, k) + (if segment.At? then {segment.block} else {});
    if segment.At? {
      ReleaseOne(freed, OwnedFrom(table, first, k), segment.block);
      while k > 0
        invariant k <= first && |cleared| == |table|
        invariant forall i :: 0 <= i < |table| ==> cleared[i] == if i < k then table[i] else NotUsed
      {
        k := k - 1;
        cleared := cleared[k := NotUsed];
      }
      freed := freed + [Freed(segment, Pow2(first))];
    }
  }

  /** A number of elements fits into size_type. */
  predicate FitsWord(n: nat) { n < Pow2(LONG_TABLE) }

  lemma FewerFit(n: nat, maxSize: nat)
    requires n <= maxSize && FitsWord(maxSize)
    ensures FitsWord(n)
  {
  }

  class ConcurrentVector<T(0)> {
    var firstBlock: nat
    var size: nat
    var table: seq<Segment<T>>
    ghost var end: nat

    ghost predicate Valid()
      reads this
    {
      Growing() && firstBlock <= end && FitsWord(size)
    }

    /** While segments are added those of the first block may still be missing. */
    ghost predicate Growing()
      reads this
    {
      && |table| in {SHORT_TABLE, LONG_TABLE}
      && Layout(table, firstBlock, end)
      && size <= SegmentBase(end)
    }

    ghost function Contents(): (s: seq<T>)
      requires Valid()
      reads this, Blocks(table)
      ensures |s| == size && Holds(table, firstBlock, end, 0, s)
    {
      seq(size, i reads this, Blocks(table) requires Valid() && 0 <= i < size => ElementAt(table, firstBlock, end, i))
    }

    constructor ()
      ensures Valid() && Contents() == [] && Blocks(table) == {} && |table| == SHORT_TABLE
    {
      firstBlock, size, end := 0, 0, 0;
      table := seq(SHORT_TABLE, _ => NotUsed);
    }

    /** helper::find_segment_end */
    method FindSegmentEnd() returns (k: nat)
      requires Growing()
      ensures k == end
    {
      hide Placed;
      k := 0;
      while k < |table| && table[k].At?
        invariant k <= end
      {
        k := k + 1;
      }
    }

    /** helper::enable_segment for the next segment, with the table extended if necessary. */
    method EnableSegment(k: nat)
      requires Growing() && k == end < LONG_TABLE && (k > 0 ==> firstBlock > 0)
      modifies this
      ensures Growing() && end == k + 1 && size == old(size) && table[..k] == old(table[..k])
      ensures |table| == if k < |old(table)| then |old(table)| else LONG_TABLE
      ensures firstBlock == if old(firstBlock) == 0 then 1 else old(firstBlock)
      ensures 0 < k < firstBlock ==> Blocks(table) == old(Blocks(table))
      ensures !(0 < k < firstBlock) ==> fresh(table[k].block) && Blocks(table) == old(Blocks(table)) + {table[k].block}
    {
      hide FitsWord, Level, Pow2, SegmentBase, Placed;
      if k >= |table| {
        table := table + seq(LONG_TABLE - |table|, _ => NotUsed);
      }
      if k == 0 && firstBlock == 0 { firstBlock := 1; }
      if 0 < k < firstBlock {
        table := table[k := At(table[0].block, SegmentBase(k))];
      } else {
        var block := new T[if k == 0 then Pow2(firstBlock) else Pow2(k)];
        table := table[k := At(block, 0)];
      }
      end := k + 1;
      BaseMonotone(k, end);
      assert table[..k] == old(table[..k]);
      ExtendLayout(old(table), table, firstBlock, k);
    }

    /** internal_reserve */
    method InternalReserve(n: nat, maxSize: nat) returns (ok: bool)
      requires Valid() && n > 0 && FitsWord(maxSize)
      modifies this
      ensures Valid() && size == old(size) && ok == (n <= maxSize)
      ensures old(end) <= end && table[..old(end)] == old(table[..end])
      ensures Blocks(table) >= old(Blocks(table)) && fresh(Blocks(table) - old(Blocks(table)))
      ensures ok ==> FitsWord(n) && firstBlock == (if old(firstBlock) == 0 then SegmentsFor(n) else old(firstBlock))
      ensures ok ==> end == (if old(end) >= SegmentsFor(n) then old(end) else SegmentsFor(n))
      ensures ok ==> |table| == if SegmentsFor(n) <= |old(table)| then |old(table)| else LONG_TABLE
      ensures !ok ==> unchanged(this)
      ensures Contents() == old(Contents())
    {
      hide FitsWord, Level, Pow2, SegmentBase, Placed, Layout, ElementAt, Contents, Holds, SegmentsFor;
      if n > maxSize { return false; }
      ghost var elements := Contents();
      SameContents(elements);
      FewerFit(n, maxSize);
      FirstBlockChosen(n);
      if firstBlock == 0 { firstBlock := SegmentOf(n - 1) + 1; }
      var k := FindSegmentEnd();
      while SegmentBase(k) < n
        invariant Growing() && k == end && size == old(size) && firstBlock > 0
        invariant firstBlock == if old(firstBlock) == 0 then SegmentsFor(n) else old(firstBlock)
        invariant old(end) <= k <= |table| && (k > old(end) ==> k <= SegmentsFor(n)) && table[..old(end)] == old(table[..end])
        invariant |table| == if k <= |old(table)| then |old(table)| else LONG_TABLE
        invariant Blocks(table) >= old(Blocks(table)) && fresh(Blocks(table) - old(Blocks(table)))
        decreases SegmentsFor(n) - k
      {
        SegmentsForFits(n, k);
        WithinTable(n, k);
        EnableSegment(k);
        k := k + 1;
      }
      SegmentsForFits(n, k);
      forall i | 0 <= i < size ensures ElementAt(table, firstBlock, end, i) == elements[i] {
        SameElements(old(table), old(firstBlock), old(end), table, firstBlock, end, i);
      }
      ContentsAre(elements);
      return true;
    }

    lemma FirstBlockChosen(n: nat)
      requires Growing() && n > 0
      ensures SegmentsFor(n) == SegmentOf(n - 1) + 1
      ensures firstBlock == 0 ==> end == 0 && Layout(table, SegmentsFor(n), 0)
      ensures end <= |table|
    {
    }

    /** internal_loop_guide on a part of a piece: copies n elements of src from its place `from` on. */
    method FillPiece(k: nat, start: nat, n: nat, src: seq<T>, from: nat)
      requires Valid() && IsPiece(k, firstBlock) && SegmentBase(k) < SegmentBase(end)
      requires k < end && start + n <= table[k].block.Length && from + n <= |src|
      requires SegmentBase(k) + start + n <= SegmentBase(end)
      modifies table[k].block
      ensures forall i :: 0 <= i < SegmentBase(end) ==>
                ElementAt(table, firstBlock, end, i)
                == if 0 <= i - SegmentBase(k) - start < n then src[from + i - SegmentBase(k) - start]
                   else old(ElementAt(table, firstBlock, end, i))
    {
      hide FitsWord, Level, Pow2, SegmentBase, Placed, PieceLength;
      PieceShape(table, firstBlock, end, k);
      var block := table[k].block;
      FillBlock(block, table[k].offset + start, n, src, from);
      forall i | 0 <= i < SegmentBase(end)
        ensures ElementAt(table, firstBlock, end, i)
                == if 0 <= i - SegmentBase(k) - start < n then src[from + i - SegmentBase(k) - start]
                   else old(ElementAt(table, firstBlock, end, i))
      {
        InPiece(table, firstBlock, end, i);
        if 0 <= i - SegmentBase(k) < block.Length { PieceAddress(table, firstBlock, end, k, i); }
      }
    }

    static method FillBlock(block: array<T>, start: nat, n: nat, src: seq<T>, from: nat)
      requires start + n <= block.Length && from + n <= |src|
      modifies block
      ensures forall j :: 0 <= j < block.Length ==>
                block[j] == if start <= j < start + n then src[from + j - start] else old(block[j])
    {
      var i := 0;
      while i < n
        invariant i <= n
        invariant forall j :: 0 <= j < block.Length ==>
                    block[j] == if start <= j < start + i then src[from + j - start] else old(block[j])
      {
        block[start + i] := src[from + i];
        i := i + 1;
      }
    }

    /** internal_assign_iterators */
    method InternalAssignIterators(src: seq<T>, maxSize: nat) returns (ok: bool)
      requires Valid() && size == 0 && FitsWord(maxSize)
      modifies this, Blocks(table)
      ensures Valid() && ok == (|src| <= maxSize || src == [])
      ensures Contents() == if ok then src else []
      ensures Blocks(table) >= old(Blocks(table)) && fresh(Blocks(table) - old(Blocks(table)))
    {
      hide FitsWord, Level, Pow2, SegmentBase, Placed, Layout, ElementAt;
      var n := |src|;
      if n == 0 { return true; }
      ok := InternalReserve(n, maxSize);
      if !ok { return; }
      SegmentsForFits(n, end);
      size := n;
      FillPieces(src);
    }

    /** The loop over the pieces. */
    method FillPieces(src: seq<T>)
      requires Valid() && 0 < size == |src|
      modifies Blocks(table)
      ensures Contents() == src
    {
      hide Valid, Growing, Contents, Level, Pow2, SegmentBase, Placed, Layout, ElementAt, Blocks, PieceLength, Holds;
      FirstPieceAtZero();
      var n, k, sz, done := |src|, 0, Pow2(firstBlock), 0;
      while sz < n
        invariant n > 0 && done + n == |src| && done == SegmentBase(k) && IsPiece(k, firstBlock)
        invariant 0 < sz == PieceLength(k, firstBlock)
        invariant forall i :: 0 <= i < done ==> ElementAt(table, firstBlock, end, i) == src[i]
        decreases n
      {
        PieceShape(table, firstBlock, end, k);
        PieceInBlocks(k);
        FillPiece(k, 0, sz, src, done);
        n, done := n - sz, done + sz;
        if k == 0 { k := firstBlock; } else { k, sz := k + 1, sz * 2; }
      }
      PieceShape(table, firstBlock, end, k);
      PieceInBlocks(k);
      FillPiece(k, 0, n, src, done);
      ContentsAre(src);
    }

    lemma ContentsAre(src: seq<T>)
      requires Valid() && size == |src| && size <= SegmentBase(end)
      requires forall i :: 0 <= i < size ==> ElementAt(table, firstBlock, end, i) == src[i]
      ensures Contents() == src
    {
      hide ElementAt, Layout, Level, Pow2, SegmentBase;
    }

    lemma SameContents(s: seq<T>)
      requires Valid() && s == Contents()
      ensures |s| == size <= SegmentBase(end)
      ensures forall i :: 0 <= i < size ==> ElementAt(table, firstBlock, end, i) == s[i]
    {
      hide ElementAt, Layout, Level, Pow2, SegmentBase;
    }

    lemma ContentsSet(before: seq<T>, start: nat, src: seq<T>)
      requires Valid() && start + |src| <= size == |before| && size <= SegmentBase(end)
      requires forall i :: 0 <= i < size ==>
                 ElementAt(table, firstBlock, end, i)
                 == if start <= i < start + |src| then src[i - start] else before[i]
      ensures Contents() == before[..start] + src + before[start + |src|..]
    {
      hide ElementAt, Layout, Level, Pow2, SegmentBase;
    }

    lemma PieceInBlocks(k: nat)
      requires Valid() && k < end
      ensures k < |table| && table[k].At? && table[k].block in Blocks(table)
    {
    }

    /** helper::apply with init_body: the elements from start up to finish, rebased to offsets from their
        segment, are set to those of src. */
    method Apply(start: nat, finish: nat, src: seq<T>)
      requires Valid() && start < finish <= size && |src| == finish - start
      modifies Blocks(table)
      ensures Contents() == old(Contents())[..start] + src + old(Contents())[finish..]
    {
      hide Valid, Growing, Contents, Level, Pow2, SegmentBase, Placed, Layout, ElementAt, Blocks, PieceLength, Holds;
      FirstPieceAtZero();
      FirstPiece(start);
      ghost var before := Contents();
      SameContents(before);
      var k: nat := SegmentOf(start);
      if k < firstBlock { k := 0; }
      var base, done: nat := SegmentBase(k), 0;
      var st, fin, sz := start - base, finish - base, if k > 0 then base else Pow2(firstBlock);
      hide SegmentOf;
      while sz < fin
        invariant 0 <= st < sz && st < fin && SegmentBase(k) + st == start + done && SegmentBase(k) + fin == finish
        invariant IsPiece(k, firstBlock) && sz == PieceLength(k, firstBlock)
        invariant forall i :: 0 <= i < size ==>
                    ElementAt(table, firstBlock, end, i)
                    == if start <= i < start + done then src[i - start] else before[i]
        decreases fin
      {
        PieceShape(table, firstBlock, end, k);
        PieceInBlocks(k);
        FillPiece(k, st, sz - st, src, done);
        done, fin, st := done + sz - st, fin - sz, 0;
        if k == 0 { k := firstBlock; } else { k, sz := k + 1, sz * 2; }
      }
      PieceShape(table, firstBlock, end, k);
      PieceInBlocks(k);
      FillPiece(k, st, fin - st, src, done);
      ContentsSet(before, start, src);
    }

    lemma FirstPieceAtZero()
      requires Valid()
      ensures IsPiece(0, firstBlock) && SegmentBase(0) == 0 && PieceLength(0, firstBlock) == Pow2(firstBlock) > 0
      ensures Layout(table, firstBlock, end) && size <= SegmentBase(end) && end <= |table|
    {
    }

    lemma FirstPiece(index: nat)
      requires Valid() && index < SegmentBase(end)
      ensures var k := PieceOf(index, firstBlock);
        && IsPiece(k, firstBlock) && firstBlock > 0 && SegmentBase(k) <= index < SegmentBase(k) + PieceLength(k, firstBlock)
        && (k > 0 ==> SegmentBase(k) == PieceLength(k, firstBlock))
    {
      hide FitsWord, Level, Pow2, SegmentBase, Placed;
      InPiece(table, firstBlock, end, index);
      PieceShape(table, firstBlock, end, PieceOf(index, firstBlock));
      PieceSizes(PieceOf(index, firstBlock));
    }

    /** The walk begins within a piece, or within the one that would come next. */
    lemma EmptyWalk(index: nat)
      requires Valid() && index <= SegmentBase(end)
      ensures var k := PieceOf(index, firstBlock);
        IsPiece(k, firstBlock) && SegmentBase(k) <= index < SegmentBase(k) + PieceLength(k, firstBlock)
    {
      SegmentBounds(index);
      if SegmentOf(index) < firstBlock { BaseMonotone(SegmentOf(index) + 1, firstBlock); }
    }

    /** helper::apply with destroy_body, for the elements from start up to finish.  `defined` is false if a slot
        is looked at that the table does not have. */
    method DestroyElements(start: nat, finish: nat) returns (defined: bool, chunks: seq<Chunk<T>>, last: nat)
      requires Valid() && start <= finish <= SegmentBase(end)
      ensures defined <==> start < finish || PieceOf(start, firstBlock) < |table|
      ensures if start < finish then last < end else last == PieceOf(start, firstBlock)
      ensures defined ==> (forall c | c in chunks :: c.first.At?)
                          && Cells(chunks) == Places(table, firstBlock, end, start, finish)
    {
      assert end <= |table|;
      hide Level, Placed, Layout;
      EmptyWalk(start);
      SegmentBounds(start);
      var k: nat := SegmentOf(start);
      if k < firstBlock { k := 0; }
      var base: nat := SegmentBase(k);
      var sz: nat := if k > 0 then base else Pow2(firstBlock);
      assert k == PieceOf(start, firstBlock) && sz == PieceLength(k, firstBlock);
      hide SegmentBase, SegmentOf, Pow2, PieceLength, PieceOf, Cells, Places, IsPiece, FitsWord;
      var st, fin;
      chunks, k, st, fin := DestroyPieces(k, start - base, finish - base, sz, start, finish);
      if st < fin { PieceShape(table, firstBlock, end, k); }
      last := k;
      if k >= |table| { return false, chunks, k; }
      if table[k].At? {
        SlotSet(table, firstBlock, end, k);
        chunks := DestroyPart(k, st, fin - st, chunks, start);
      }
      defined := true;
    }

    /** destroy_body: destroys n elements of a piece. */
    method DestroyPart(k: nat, st: nat, n: nat, chunks: seq<Chunk<T>>, ghost start: nat) returns (more: seq<Chunk<T>>)
      requires Valid() && IsPiece(k, firstBlock) && k < end && SegmentBase(k) < SegmentBase(end)
      requires start <= SegmentBase(k) + st && SegmentBase(k) + st + n <= SegmentBase(end) && st + n <= table[k].block.Length
      requires (forall c | c in chunks :: c.first.At?)
      requires Cells(chunks) == Places(table, firstBlock, end, start, SegmentBase(k) + st)
      ensures (forall c | c in more :: c.first.At?)
      ensures Cells(more) == Places(table, firstBlock, end, start, SegmentBase(k) + st + n)
    {
      hide Level, Pow2, SegmentBase, Placed, PieceLength, Cells, Places, FitsWord;
      MoreCells(table, firstBlock, end, chunks, start, k, st, n);
      more := chunks + [Chunk(At(table[k].block, table[k].offset + st), n)];
    }

    /** All pieces but the last one. */
    method DestroyPieces(k0: nat, st0: nat, fin0: nat, sz0: nat, ghost start: nat, ghost finish: nat)
      returns (chunks: seq<Chunk<T>>, k: nat, st: nat, fin: nat)
      requires Valid() && start <= finish <= SegmentBase(end) && IsPiece(k0, firstBlock)
      requires SegmentBase(k0) + st0 == start && SegmentBase(k0) + fin0 == finish
      requires st0 < sz0 == PieceLength(k0, firstBlock)
      ensures IsPiece(k, firstBlock) && SegmentBase(k) + fin == finish && st <= fin <= PieceLength(k, firstBlock)
      ensures (st == fin <==> start == finish) && (start == finish ==> k == k0) && SegmentBase(k) + st >= start
      ensures (forall c | c in chunks :: c.first.At?)
              && Cells(chunks) == Places(table, firstBlock, end, start, SegmentBase(k) + st)
    {
      assert end <= |table|;
      hide SegmentBase, SegmentOf, Pow2, PieceLength, Level, Placed, Places, Layout, IsPiece, FitsWord;
      chunks, k, st, fin := [], k0, st0, fin0;
      var sz := sz0;
      assert Places(table, firstBlock, end, start, start) == [];
      hide Cells;
      while sz < fin
        invariant st <= fin && SegmentBase(k) + fin == finish && IsPiece(k, firstBlock)
        invariant sz == PieceLength(k, firstBlock) && st < sz && (st == fin <==> start == finish)
        invariant start == finish ==> k == k0
        invariant forall c | c in chunks :: c.first.At?
        invariant SegmentBase(k) + st >= start && Cells(chunks) == Places(table, firstBlock, end, start, SegmentBase(k) + st)
        decreases fin
      {
        PieceShape(table, firstBlock, end, k);
        chunks := DestroyPart(k, st, sz - st, chunks, start);
        fin, st := fin - sz, 0;
        if k == 0 { k := firstBlock; } else { k, sz := k + 1, sz * 2; }
      }
    }

    /** Only a full short table has no slot for the element after the last one. */
    lemma WalkStaysInside(n: nat)
      requires Valid() && n <= SegmentBase(end) && FitsWord(n)
      ensures PieceOf(n, firstBlock) < |table| <==> !(n == 8 && |table| == SHORT_TABLE)
      ensures n == 0 ==> PieceOf(n, firstBlock) == 0
    {
      assert SegmentBase(SHORT_TABLE) == 8;
      WithinWord(n);
      SegmentBounds(n);
      assert end <= |table|;
      hide Level, Pow2, SegmentBase, Placed, Layout, FitsWord;
      BaseMonotone(end, |table|);
      if SegmentOf(n) >= SHORT_TABLE { BaseMonotone(SHORT_TABLE, SegmentOf(n)); }
      if n == 8 { LocateUnique(8, SHORT_TABLE); }
    }

    /** internal_resize.  `defined` is false if a slot is looked at that the table does not have; that is so
        exactly when a short table is full and is to keep its size. */
    method InternalResize(n: nat, maxSize: nat, value: T) returns (ok: bool, defined: bool, chunks: seq<Chunk<T>>)
      requires Valid() && FitsWord(maxSize)
      modifies this, Blocks(table)
      ensures ok == (n <= old(size) || n <= maxSize)
      ensures defined <==> !(n == old(size) == 8 && |old(table)| == SHORT_TABLE)
      ensures defined ==> Valid()
      ensures defined ==> Contents() == if !ok then old(Contents())
                                        else if n <= old(size) then old(Contents())[..n]
                                        else old(Contents()) + seq(n - old(size), _ => value)
      ensures defined ==> (forall c | c in chunks :: c.first.At?)
                          && Cells(chunks) == if n < old(size) then old(Places(table, firstBlock, end, n, size)) else []
      ensures |table| == if !ok || n <= old(size) || SegmentsFor(n) <= |old(table)| then |old(table)| else LONG_TABLE
      ensures Blocks(table) >= old(Blocks(table)) && fresh(Blocks(table) - old(Blocks(table)))
    {
      hide FitsWord, Level, Pow2, SegmentBase, Placed, Layout, ElementAt;
      var j := size;
      defined, chunks := true, [];
      if n > j {
        ok := InternalReserve(n, maxSize);
        if !ok { return; }
        ghost var elements := Contents();
        SegmentsForFits(n, end);
        size := n;
        assert Contents()[..j] == elements;
        Apply(j, n, seq(n - j, _ => value));
      } else {
        FewerFit(n, j);
        WalkStaysInside(n);
        ok, size := true, n;
        var d, c, _ := DestroyElements(n, j);
        defined, chunks := d, c;
      }
    }

    /** internal_clear, which names the number of segments to be freed. */
    method InternalClear() returns (count: nat, chunks: seq<Chunk<T>>)
      requires Valid()
      modifies this`size
      ensures Valid() && Contents() == [] && table == old(table)
      ensures count == if end > 0 then end else 1
      ensures (forall c | c in chunks :: c.first.At?) && Cells(chunks) == Places(table, firstBlock, end, 0, old(size))
    {
      hide Level, Pow2, SegmentBase, Placed, Layout, Cells, Places;
      var j := size;
      size := 0;
      FewerFit(0, j);
      WalkStaysInside(0);
      var _, c, last := DestroyElements(0, j);
      chunks := c;
      var i := FindSegmentEnd();
      count := if last < i then i else last + 1;
    }

    /** internal_subscript */
    method InternalSubscript(index: nat) returns (a: Segment<T>)
      requires Valid() && index < size
      ensures CachedIs(table, index, a)
    {
      hide FitsWord, Level, Pow2, SegmentBase, Placed;
      Allocated(table, firstBlock, end, index);
      a := Address(table, index);
    }

    /** The pointer is to the element. */
    lemma InContents(index: nat)
      requires Valid() && index < size
      ensures SegmentOf(index) < |table| && table[SegmentOf(index)].At?
      ensures var a := Address(table, index);
        a.block in Blocks(table) && a.offset < a.block.Length && a.block[a.offset] == Contents()[index]
    {
      hide FitsWord, Level, Pow2, SegmentBase, Placed;
      InPiece(table, firstBlock, end, index);
    }

    /** The loop of internal_compact that copies the elements of the first k segments to the new block. */
    method CopyPieces(seg: array<T>, k: nat)
      requires Valid() && 0 < k <= end && seg.Length == Pow2(k) && seg !in Blocks(table)
      requires firstBlock < k || size <= Pow2(k)
      modifies seg
      ensures forall p :: 0 <= p < size && p < seg.Length ==> seg[p] == ElementAt(table, firstBlock, end, p)
    {
      hide Valid, Growing, Contents, Level, Pow2, SegmentBase, PieceLength, ElementAt, Layout, Holds;
      FirstPieceAtZero();
      var i: nat, j, length := 0, 0, Pow2(firstBlock);
      while i < k && j < size
        invariant IsPiece(i, firstBlock) && j == SegmentBase(i) && length == PieceLength(i, firstBlock)
        invariant forall p :: 0 <= p < size && p < j && p < seg.Length ==> seg[p] == ElementAt(table, firstBlock, end, p)
        decreases k - i
      {
        PieceShape(table, firstBlock, end, i);
        PieceSizes(NextPiece(i, firstBlock));
        PieceSizes(k);
        if firstBlock < k { BaseMonotone(NextPiece(i, firstBlock), k); } else { Pow2Monotone(k, firstBlock); }
        if j + length >= size { length := size - j; }
        CopyElements(seg, SegmentBase(i), i, length);
        if i > 0 { i, length := i + 1, Pow2(i + 1); } else { i, length := firstBlock, Pow2(firstBlock); }
        j := length;
      }
      if i >= k { BaseMonotone(k, i); PieceSizes(k); }
    }

    lemma PieceSizes(k: nat)
      ensures k > 0 ==> SegmentBase(k) == Pow2(k) == PieceLength(k, firstBlock)
    {
    }

    method CopyElements(seg: array<T>, start: nat, k: nat, n: nat)
      requires Valid() && k < end && IsPiece(k, firstBlock) && n <= table[k].block.Length && start + n <= seg.Length
      requires seg !in Blocks(table) && start == SegmentBase(k) && start + n <= size
      modifies seg
      ensures forall p :: 0 <= p < seg.Length ==>
                seg[p] == if start <= p < start + n then ElementAt(table, firstBlock, end, p) else old(seg[p])
    {
      hide Level, Pow2;
      var block, offset, i := table[k].block, table[k].offset, 0;
      BaseMonotone(k, end);
      assert n > 0 ==> offset == 0 by { if n > 0 { PieceShape(table, firstBlock, end, k); } }
      while i < n
        invariant i <= n
        invariant forall p :: 0 <= p < seg.Length ==>
                    seg[p] == if start <= p < start + i then ElementAt(table, firstBlock, end, p) else old(seg[p])
      {
        PieceAddress(table, firstBlock, end, k, start + i);
        seg[start + i] := block[offset + i];
        i := i + 1;
      }
    }

    /** The number of segments to be merged into the first block. */
    method SegmentsToMerge(kStop: nat, elementSize: nat) returns (k: nat)
      ensures k <= kStop && (kStop < firstBlock ==> k == kStop) && (kStop >= firstBlock ==> k >= firstBlock)
      ensures kStop == SegmentsFor(size) ==> MergedUpTo(k, firstBlock, size, elementSize)
    {
      k := firstBlock;
      if kStop < firstBlock {
        k := kStop;
      } else {
        while k < kStop && Incompact(Pow2(k) * elementSize)
          invariant firstBlock <= k <= kStop && forall i :: firstBlock <= i < k ==> Wasteful(Pow2(i) * elementSize)
        {
          IncompactWastes(Pow2(k) * elementSize);
          k := k + 1;
        }
        IncompactWastes(Pow2(k) * elementSize);
      }
    }

    /** internal_compact.  What is to be freed comes back as a table of its own. */
    method InternalCompact(elementSize: nat) returns (done: bool, others: seq<Segment<T>>, othersFirst: nat)
      requires Valid()
      modifies this
      ensures Valid() && size == old(size) && Contents() == old(Contents()) && end == SegmentsFor(size)
      ensures MergedUpTo(firstBlock, old(firstBlock), size, elementSize) && FirstTogether(table, firstBlock, size)
      ensures done <==> old(end) > SegmentsFor(size) || old(firstBlock) != firstBlock
      ensures !done ==> unchanged(this)
      ensures done ==> Freeable(others, othersFirst)
      ensures done ==> Owned(others, othersFirst) == old(Blocks(table)) - Blocks(table)
      ensures fresh(Blocks(table) - old(Blocks(table)))
    {
      hide FitsWord, Level, Pow2, SegmentBase, Placed, Freeable, Owned, HandedOver, MergedUpTo, FirstTogether;
      SegmentsForFits(size, end);
      SegmentsForFits(size, SegmentsFor(size));
      BaseMonotone(SegmentsFor(size), end);
      var kEnd := FindSegmentEnd();
      var kStop: nat := if size > 0 then SegmentOf(size - 1) + 1 else 0;
      var k := SegmentsToMerge(kStop, elementSize);
      done := !(kStop == kEnd && k == firstBlock);
      others, othersFirst := seq(LONG_TABLE, _ => NotUsed), 0;
      if done {
        others, othersFirst := CompactTo(k, kStop, kEnd, others);
        assert Contents() == old(Contents());
      } else {
        forall i | 0 <= i < size ensures Contents()[i] == old(Contents()[i]) {
          InPiece(table, firstBlock, end, i);
        }
      }
      FirstIsTogether();
    }

    lemma FirstIsTogether()
      requires Valid()
      ensures FirstTogether(table, firstBlock, size)
    {
      hide FitsWord, Level, Pow2, SegmentBase, Placed;
      forall p: nat | p < size && SegmentOf(p) < firstBlock
        ensures SegmentOf(p) < |table| && table[SegmentOf(p)].At? && table[0].At? && Address(table, p) == At(table[0].block, p)
      {
        InPiece(table, firstBlock, end, p);
        BaseIsZero();
      }
    }

    /** The part of internal_compact that changes the vector. */
    method CompactTo(k: nat, kStop: nat, kEnd: nat, others: seq<Segment<T>>)
      returns (others': seq<Segment<T>>, othersFirst: nat)
      requires Valid() && kEnd == end && kStop == SegmentsFor(size) <= kEnd && size <= SegmentBase(kStop) <= SegmentBase(end)
      requires if kStop < firstBlock then k == kStop else firstBlock <= k <= kStop
      requires !(kStop == kEnd && k == firstBlock) && others == seq(LONG_TABLE, _ => NotUsed)
      modifies this
      ensures Valid() && size == old(size) && end == kStop && firstBlock == k
      ensures forall p :: 0 <= p < size ==> ElementAt(table, firstBlock, end, p) == old(ElementAt(table, firstBlock, end, p))
      ensures Freeable(others', othersFirst)
      ensures Owned(others', othersFirst) == old(Blocks(table)) - Blocks(table)
      ensures fresh(Blocks(table) - old(Blocks(table)))
    {
      hide FitsWord, Level, Pow2, SegmentBase, Placed, ElementAt, Freeable, Owned, HandedOver;
      var first := firstBlock;
      others', othersFirst := others, 0;
      ghost var before, after := table, Trimmed(table, kStop);
      ghost var moved: set<array<T>> := {};
      if k != first && k > 0 {
        ghost var seg;
        others', seg := MergeFirst(k, others');
        othersFirst := first;
        after, moved := Compacted(before, seg, k, kStop), {seg};
        MergedOk(before, first, kEnd, seg, k, kStop, others', size);
      } else {
        TrimmedOk(before, first, kEnd, kStop, others', size);
      }
      hide Compacted, Trimmed;
      if kStop < kEnd {
        othersFirst := first;
        assert table[kStop..kEnd] == before[kStop..kEnd];
        others' := FreeTail(others', kStop, kEnd);
        if k == 0 { firstBlock := 0; }
      }
      end := kStop;
      assert table == after;
    }

    /** Takes the segments without elements out of the table. */
    method FreeTail(others: seq<Segment<T>>, stop: nat, end: nat) returns (others': seq<Segment<T>>)
      requires stop <= end <= |table| && end <= |others|
      modifies this
      ensures others' == WithTail(others, old(table), stop, end)
      ensures |table| == old(|table|) && forall i :: 0 <= i < |table| ==>
                table[i] == if stop <= i < end then NotUsed else old(table[i])
      ensures size == old(size) && firstBlock == old(firstBlock) && this.end == old(this.end)
    {
      others' := WithTail(others, table, stop, end);
      table := table[..stop] + seq(end - stop, _ => NotUsed) + table[end..];
    }

    /** The first segment optimization: the first k segments move to a block of their own, and the table
        of what is to be freed gets the old ones. */
    method MergeFirst(k: nat, others: seq<Segment<T>>) returns (others': seq<Segment<T>>, ghost seg: array<T>)
      requires Valid() && 0 < k <= end && (firstBlock < k || size <= Pow2(k)) && k <= |others|
      modifies this
      ensures size == old(size) && end == old(end) && firstBlock == k
      ensures fresh(seg) && seg.Length == Pow2(k) && seg !in old(Blocks(table))
      ensures |table| == old(|table|) && forall i :: 0 <= i < |table| ==>
                table[i] == if i < k then At(seg, SegmentBase(i)) else old(table[i])
      ensures forall p :: 0 <= p < size && p < seg.Length ==>
                seg[p] == ElementAt(old(table), old(firstBlock), end, p)
      ensures others' == old(table[..k]) + others[k..]
    {
      hide FitsWord, Level, Pow2, SegmentBase, Placed, ElementAt;
      var block := new T[Pow2(k)];
      seg := block;
      CopyPieces(block, k);
      others' := table[..k] + others[k..];
      table := seq(k, i requires 0 <= i < k => At(block, SegmentBase(i))) + table[k..];
      firstBlock := k;
    }

    /** shrink_to_fit: the elements stay, no segment without elements is left, and exactly the blocks that
        are no longer used are given back, each once and with its size. */
    method ShrinkToFit(elementSize: nat) returns (freed: seq<Freed<T>>)
      requires Valid()
      modifies this
      ensures Valid() && Contents() == old(Contents()) && end == SegmentsFor(size)
      ensures MergedUpTo(firstBlock, old(firstBlock), size, elementSize) && FirstTogether(table, firstBlock, size)
      ensures Releases(freed, old(Blocks(table)) - Blocks(table))
      ensures fresh(Blocks(table) - old(Blocks(table)))
    {
      var done, others, othersFirst := InternalCompact(elementSize);
      freed := [];
      if done {
        var _, f := FreeSegments(others, othersFirst);
        freed := f;
      } else {
        assert old(Blocks(table)) - Blocks(table) == {};
      }
    }
  }

  /** concurrent_vector<int> v(8); v.resize(8); */
  method ResizeReadsPast<T(0)>(value: T) returns (ok: bool, defined: bool)
    ensures ok && !defined
  {
    hide FitsWord, SegmentsFor, Level, Pow2, SegmentBase, Layout, Places, Cells, ElementAt;
    var v := new ConcurrentVector<T>();
    EightFit();
    assert v.size == |v.Contents()|;
    var made, d, c := v.InternalResize(8, 8, value);
    assert v.size == |v.Contents()|;
    ok, defined, c := v.InternalResize(8, 8, value);
  }

  lemma EightFit()
    ensures FitsWord(8) && SegmentsFor(8) == SHORT_TABLE
  {
    assert Pow2(2) == 4 && Pow2(4) == 16;
    hide Pow2;
    Pow2Monotone(4, LONG_TABLE);
    LocateUnique(7, 2);
  }

  // ---------------------------------------------------------------- the iterator

  /** vector_iterator over a vector that nobody changes.  `item` is the cached pointer, or NULL. */
  class Iterator<T(0)> {
    const vector: ConcurrentVector<T>
    var index: nat
    var item: Segment<T>

    /** A cached pointer is the one that a fresh subscript gives. */
    ghost predicate Valid()
      reads this, vector
    {
      vector.Valid() && (item.At? ==> index < SegmentBase(vector.end) && CachedIs(vector.table, index, item))
    }

    constructor (vector: ConcurrentVector<T>, index: nat)
      requires vector.Valid()
      ensures Valid() && this.vector == vector && this.index == index
    {
      this.vector, this.index, item := vector, index, NotUsed;
    }

    /** operator* */
    method Current() returns (value: T)
      requires Valid() && index < vector.size
      modifies this
      ensures Valid() && index == old(index) && value == vector.Contents()[index] && item.At?
    {
      hide FitsWord, Level, Pow2, SegmentBase, Placed, Layout, Locate, ElementAt;
      vector.InContents(index);
      if item.NotUsed? { item := vector.InternalSubscript(index); }
      value := item.block[item.offset];
    }

    /** operator++ */
    method Increment()
      requires Valid()
      modifies this
      ensures Valid() && index == old(index) + 1
      ensures item.At? <==> old(item.At?) && SegmentOf(index) == SegmentOf(old(index))
    {
      hide FitsWord, Level, Pow2, SegmentBase, Layout, BeginsSegment, Address;
      index := index + 1;
      if item.At? {
        if !BeginsSegment(index) {
          NextAddress(vector.table, index);
          StillAllocated(vector.table, vector.firstBlock, vector.end, index);
          SameSegment(index);
        } else {
          NewSegment(index);
        }
        item := if BeginsSegment(index) then NotUsed else At(item.block, item.offset + 1);
      }
    }

    /** operator-- */
    method Decrement()
      requires Valid() && index > 0
      modifies this
      ensures Valid() && index == old(index) - 1
      ensures item.At? <==> old(item.At?) && SegmentOf(index) == SegmentOf(old(index))
    {
      hide FitsWord, Level, Pow2, SegmentBase, Layout, BeginsSegment, Address;
      var elementIndex := index;
      index := index - 1;
      if item.At? {
        if !BeginsSegment(elementIndex) {
          SameSegment(elementIndex);
          NextAddress(vector.table, elementIndex);
        } else {
          NewSegment(elementIndex);
        }
        item := if BeginsSegment(elementIndex) then NotUsed else At(item.block, item.offset - 1);
      }
    }

    /** operator+= */
    method Advance(offset: int)
      requires Valid() && index + offset >= 0
      modifies this
      ensures Valid() && index == old(index) + offset
    {
      index := index + offset;
      item := NotUsed;
    }
  }

  /** An index whose segment is allocated is within the capacity. */
  lemma StillAllocated<T>(table: seq<Segment<T>>, first: nat, end: nat, index: nat)
    requires Layout(table, first, end) && SegmentOf(index) < |table| && table[SegmentOf(index)].At?
    ensures index < SegmentBase(end)
  {
    SegmentBounds(index);
    BaseMonotone(SegmentOf(index) + 1, end);
  }

  lemma NextAddress<T>(table: seq<Segment<T>>, index: nat)
    requires index > 0 && !BeginsSegment(index)
    requires SegmentOf(index - 1) < |table| && table[SegmentOf(index - 1)].At?
    ensures SegmentOf(index) == SegmentOf(index - 1)
    ensures var before := Address(table, index - 1); Address(table, index) == At(before.block, before.offset + 1)
  {
    hide FitsWord, Level, Pow2, BeginsSegment;
    SameSegment(index);
  }

  predicate CachedIs<T>(table: seq<Segment<T>>, index: nat, item: Segment<T>) {
    SegmentOf(index) < |table| && table[SegmentOf(index)].At? && item == Address(table, index)
  }

  lemma WithinWord(n: nat)
    requires FitsWord(n)
    ensures SegmentOf(n) < LONG_TABLE
  {
    SegmentBounds(n);
    hide Pow2, Level;
    if SegmentOf(n) >= LONG_TABLE { BaseMonotone(LONG_TABLE, SegmentOf(n)); }
  }

  lemma WithinTable(n: nat, k: nat)
    requires SegmentBase(k) < n && FitsWord(n)
    ensures k < LONG_TABLE
  {
    hide Pow2;
    if k >= LONG_TABLE { BaseMonotone(LONG_TABLE, k); }
  }
}
