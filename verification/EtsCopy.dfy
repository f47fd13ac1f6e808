/** Copying the table of enumerable_thread_specific, while no thread is in a call: all arrays are
    scanned, newest first, and each key gets one copy of its element. */
module EtsCopy {
  import opened Options
  import opened HashPaths
  import opened EtsTable
  import opened EtsProof
  import opened EtsTheorems

  // ---------------------------------------------------------------- what a copy is

  /** The array of the copy in place of the arrays of the original, each key with its original
      element: what is known about the keys of an array then holds of the copy. */
  ghost function View(other: State, lg: nat, slots: seq<Slot>): State {
    other.(tables := [Table(lg, seq(|slots|, i requires 0 <= i < |slots| => Original(other, slots[i])))])
  }

  ghost function Original(other: State, slot: Slot): Slot {
    Slot(slot.key, if slot.key.Some? && slot.key.value < |other.threads| then other.threads[slot.key.value].own else None)
  }

  /** The slot holds a copy of the element of its key. */
  ghost predicate Copied<V>(other: State, value: Elem -> V, slot: Slot, locals: seq<V>) {
    slot.key.Some? ==>
      && Somewhere(other, slot.key.value) && slot.key.value < |other.threads|
      && slot.ptr.Some? && slot.ptr.value < |locals| && other.threads[slot.key.value].own.Some?
      && locals[slot.ptr.value] == value(other.threads[slot.key.value].own.value)
  }

  predicate IsLocal(slot: Slot, p: nat) { slot.key.Some? && slot.ptr == Some(p) }

  ghost predicate HasLocal(slots: seq<Slot>, p: nat) {
    exists i :: 0 <= i < |slots| && IsLocal(slots[i], p)
  }

  predicate HasSlotFor(slots: seq<Slot>, k: Tid) {
    exists i :: 0 <= i < |slots| && slots[i].key == Some(k)
  }

  /** Every slot in use has a copy of its own, and there are no other copies. */
  ghost predicate CopyOk<V>(other: State, value: Elem -> V, lg: nat, slots: seq<Slot>, locals: seq<V>) {
    && Starts(other) && TableOk(View(other, lg, slots), 0)
    && (forall i :: 0 <= i < |slots| ==> Copied(other, value, slots[i], locals))
    && (forall i, j :: 0 <= i < j < |slots| && slots[i].key.Some? && slots[j].key.Some? ==> slots[i].ptr != slots[j].ptr)
    && (forall p: nat :: p < |locals| ==> HasLocal(slots, p))
  }

  /** The original is at rest. */
  ghost predicate AtRest(other: State) {
    Reachable(other) && forall t :: 0 <= t < |other.threads| ==> other.threads[t].pc == Idle
  }

  lemma EmptyCopyOk<V>(other: State, value: Elem -> V, lg: nat, slots: seq<Slot>)
    requires Inv(other) && lg >= 2 && |slots| == Pow2(lg) && forall i :: 0 <= i < |slots| ==> slots[i] == Slot(None, None)
    ensures CopyOk(other, value, lg, slots, [])
  {
    var v := View(other, lg, slots);
    forall i | 0 <= i < |slots| ensures SlotOk(v, 0, i) { }
  }

  /** A key of the original that is not yet in the copy gets the empty slot its probe has come to. */
  lemma CopyAdds<V>(other: State, value: Elem -> V, lg: nat, slots: seq<Slot>, locals: seq<V>, r: nat, j: nat, k: Tid, i: nat)
    requires AtRest(other) && Inv(other) && CopyOk(other, value, lg, slots, locals)
    requires KeyAt(other, r, j, k) && lg == other.tables[|other.tables| - 1].lg
    requires i < |slots| && slots[i].key == None && Passed(View(other, lg, slots), 0, k, i) && !HasSlotFor(slots, k)
    ensures other.tables[r].slots[j].ptr.Some?
    ensures CopyOk(other, value, lg, slots[i := Slot(Some(k), Some(|locals|))],
                   locals + [value(other.tables[r].slots[j].ptr.value)])
  {
    assert TableOk(other, r) && SlotOk(other, r, j);
    var elem := other.tables[r].slots[j].ptr.value;
    var slots', locals' := slots[i := Slot(Some(k), Some(|locals|))], locals + [value(elem)];
    FitsLater(other, r, |other.tables| - 1, other.threads[k].ticket);
    CopyTableOk(other, lg, slots, k, i, slots');
    forall p: nat | p < |locals'| ensures HasLocal(slots', p) {
      if p < |locals| {
        assert HasLocal(slots, p);
        var q :| 0 <= q < |slots| && IsLocal(slots[q], p);
        assert IsLocal(slots'[q], p);
      } else {
        assert IsLocal(slots'[i], p);
      }
    }
    forall q | 0 <= q < |slots'| ensures Copied(other, value, slots'[q], locals') {
      assert Copied(other, value, slots[q], locals);
    }
    forall p, q | 0 <= p < q < |slots'| && slots'[p].key.Some? && slots'[q].key.Some?
      ensures slots'[p].ptr != slots'[q].ptr
    {
      assert Copied(other, value, slots[p], locals) && Copied(other, value, slots[q], locals);
    }
  }

  lemma CopyTableOk(other: State, lg: nat, slots: seq<Slot>, k: Tid, i: nat, slots': seq<Slot>)
    requires Starts(other) && TableOk(View(other, lg, slots), 0)
    requires k < |other.threads| && other.threads[k].own.Some?
    requires other.threads[k].ticket > 0 && 2 * other.threads[k].ticket <= Pow2(lg)
    requires i < |slots| == |slots'| && slots[i].key == None && slots'[i].key == Some(k)
    requires forall q :: 0 <= q < |slots| && q != i ==> slots'[q] == slots[q]
    requires Passed(View(other, lg, slots), 0, k, i) && !HasSlotFor(slots, k)
    ensures TableOk(View(other, lg, slots'), 0)
  {
    var v, v' := View(other, lg, slots), View(other, lg, slots');
    assert Extends(v, v', k + 1);
    forall q | 0 <= q < |slots'| ensures SlotOk(v', 0, q) {
      assert SlotOk(v, 0, q);
      if q == i {
        PassedKept(v, v', k + 1, 0, k, i);
      } else if slots[q].key.Some? {
        PassedKept(v, v', k + 1, 0, slots[q].key.value, q);
      }
    }
    var a, a' := v.tables[0], v'.tables[0];
    forall p, q | 0 <= p < q < |a'.slots| && a'.slots[p].key.Some? ensures a'.slots[p].key != a'.slots[q].key {
      assert a.slots[p].key == slots[p].key && a.slots[q].key == slots[q].key;
    }
  }

  // ---------------------------------------------------------------- the class

  class TableCopy<V> {
    /** The first slot to look at for a key, which its hash code gives. */
    const start: (Tid, nat) -> nat
    var lg: nat
    var slots: array?<Slot>
    var count: nat
    var locals: seq<V>

    constructor (start: (Tid, nat) -> nat)
      ensures this.start == start && slots == null && count == 0 && locals == []
    {
      this.start := start;
      lg, slots, count, locals := 0, null, 0, [];
    }

    ghost predicate Copies(other: State, value: Elem -> V)
      reads this, slots
    {
      slots != null && CopyOk(other, value, lg, slots[..], locals)
    }

    /** Finds the slot of a key, or the empty slot where it belongs. */
    method TableFind(k: Tid, ghost other: State, ghost value: Elem -> V) returns (i: nat)
      requires Inv(other) && start == other.start && Copies(other, value)
      ensures slots != null && i < slots.Length
      ensures slots[i].key == Some(k) || (slots[i].key == None && !HasSlotFor(slots[..], k))
      ensures slots[i].key == None ==> Passed(View(other, lg, slots[..]), 0, k, i)
    {
      ghost var v := View(other, lg, slots[..]);
      ghost var a := other.start(k, lg);
      i := start(k, lg);
      StartsProbe(v, k, 0);
      while slots[i].key != None && slots[i].key != Some(k)
        invariant i < slots.Length && v == View(other, lg, slots[..])
        invariant HasSlot(v, 0, i) && Passed(v, 0, k, i) && NotBefore(v, 0, k, i)
        decreases slots.Length - Dist(a, i, slots.Length)
      {
        RunIsShort(v, 0, k, i);
        ProbeOn(v, 0, k, i);
        i := NextSlot(i, slots.Length);
      }
      if slots[i].key == None {
        NotInTable(v, 0, k, i);
        forall j | 0 <= j < slots.Length ensures slots[j].key != Some(k) { assert !KeyAt(v, 0, j, k); }
      }
    }

    /** Gives the empty copy one array, as large as the root of the original. */
    method TableReserveForCopy(other: State)
      requires slots == null && count == 0
      modifies this`lg, this`slots, this`count
      ensures other.tables == [] ==> slots == null && count == 0
      ensures other.tables != [] ==>
                && slots != null && fresh(slots) && lg == other.tables[|other.tables| - 1].lg && slots.Length == Pow2(lg)
                && count == other.count && forall i :: 0 <= i < slots.Length ==> slots[i] == Slot(None, None)
    {
      if other.tables != [] {
        lg := other.tables[|other.tables| - 1].lg;
        slots := new Slot[Pow2(lg)](_ => Slot(None, None));
        count := other.count;
      }
    }

    /** Copies the elements of `other`: each thread that has an element in the original gets one new
        element, a copy of it, and no other thread gets any. */
    method InternalCopy(other: State, value: Elem -> V)
      requires AtRest(other) && start == other.start && slots == null && count == 0 && locals == []
      modifies this
      ensures count == other.count
      ensures other.tables == [] ==> slots == null && locals == []
      ensures other.tables != [] ==>
                && Copies(other, value) && lg == other.tables[|other.tables| - 1].lg
                && forall t :: HasSlotFor(slots[..], t) <==> Somewhere(other, t)
    {
      ReachableInv(other);
      if other.tables == [] { EmptyCount(other); }
      TableReserveForCopy(other);
      if other.tables == [] { return; }
      assert TableOk(other, |other.tables| - 1);
      EmptyCopyOk(other, value, lg, slots[..]);
      var n := |other.tables|;
      while n > 0
        invariant n <= |other.tables| && lg == other.tables[|other.tables| - 1].lg && count == other.count
        invariant slots != null && fresh(slots) && Copies(other, value)
        invariant forall r, j, k | n <= r && KeyAt(other, r, j, k) :: HasSlotFor(slots[..], k)
      {
        n := n - 1;
        CopyTable(other, value, n);
      }
      forall t ensures HasSlotFor(slots[..], t) <==> Somewhere(other, t) {
        CopiesOnly(other, value, lg, slots[..], locals, t);
      }
    }

    /** Copies what array r of the original holds, skipping keys that have been copied already. */
    method CopyTable(other: State, value: Elem -> V, r: nat)
      requires AtRest(other) && start == other.start && Copies(other, value)
      requires r < |other.tables| && lg == other.tables[|other.tables| - 1].lg
      modifies slots, this`locals
      ensures slots == old(slots) && Copies(other, value)
      ensures forall k :: old(HasSlotFor(slots[..], k)) ==> HasSlotFor(slots[..], k)
      ensures forall j, k | KeyAt(other, r, j, k) :: HasSlotFor(slots[..], k)
    {
      ReachableInv(other);
      assert TableOk(other, r);
      var j := 0;
      while j < |other.tables[r].slots|
        invariant j <= |other.tables[r].slots| && slots == old(slots) && Copies(other, value)
        invariant forall k :: old(HasSlotFor(slots[..], k)) ==> HasSlotFor(slots[..], k)
        invariant forall j', k | 0 <= j' < j && KeyAt(other, r, j', k) :: HasSlotFor(slots[..], k)
      {
        CopySlot(other, value, r, j);
        j := j + 1;
      }
    }

    /** Copies the element of one slot, unless its key has got one already. */
    method CopySlot(other: State, value: Elem -> V, r: nat, j: nat)
      requires AtRest(other) && Inv(other) && start == other.start && Copies(other, value)
      requires r < |other.tables| && lg == other.tables[|other.tables| - 1].lg && j < |other.tables[r].slots|
      modifies slots, this`locals
      ensures slots == old(slots) && Copies(other, value)
      ensures forall k :: old(HasSlotFor(slots[..], k)) ==> HasSlotFor(slots[..], k)
      ensures forall k | KeyAt(other, r, j, k) :: HasSlotFor(slots[..], k)
    {
      assert TableOk(other, r);
      hide Inv, AtRest, TableOk, CopyOk, Passed;
      var s1 := other.tables[r].slots[j];
      if s1.key.Some? {
        ghost var before := slots[..];
        var i := TableFind(s1.key.value, other, value);
        if slots[i].key == None {
          CopyAdds(other, value, lg, slots[..], locals, r, j, s1.key.value, i);
          locals := locals + [value(s1.ptr.value)];
          slots[i] := Slot(s1.key, Some(|locals| - 1));
          assert slots[..] == before[i := Slot(s1.key, Some(|locals| - 1))];
        }
        OneMore(before, slots[..], i, s1.key.value);
      }
    }
  }

  /** The only change is that k has a slot. */
  lemma OneMore(slots: seq<Slot>, slots': seq<Slot>, i: nat, k: Tid)
    requires i < |slots| == |slots'| && slots'[i].key == Some(k)
    requires slots' == slots || (slots[i].key == None && slots' == slots[i := slots'[i]])
    ensures HasSlotFor(slots', k)
    ensures forall u: Tid :: HasSlotFor(slots, u) ==> HasSlotFor(slots', u)
  {
    forall u: Tid | HasSlotFor(slots, u) ensures HasSlotFor(slots', u) {
      var q :| 0 <= q < |slots| && slots[q].key == Some(u);
      assert slots'[q].key == Some(u);
    }
  }

  /** Without arrays there are no tickets of threads at rest. */
  lemma EmptyCount(other: State)
    requires AtRest(other) && other.tables == []
    ensures other.count == 0
  {
    if other.count > 0 {
      var states, moves :| IsRun(states, moves) && states[|moves|] == other;
      CountMeansTicket(states, moves, |moves|);
      var t :| 0 <= t < |other.threads| && other.threads[t].ticket > 0;
      assert PastGrowth(other.threads[t]);
      RootNullExactly(other);
      assert false;
    }
  }

  lemma CopiesOnly<V>(other: State, value: Elem -> V, lg: nat, slots: seq<Slot>, locals: seq<V>, t: Tid)
    requires CopyOk(other, value, lg, slots, locals)
    requires forall r, j, k | KeyAt(other, r, j, k) :: HasSlotFor(slots, k)
    ensures HasSlotFor(slots, t) <==> Somewhere(other, t)
  {
    if HasSlotFor(slots, t) {
      var i :| 0 <= i < |slots| && slots[i].key == Some(t);
      assert Copied(other, value, slots[i], locals);
    }
  }
}
