/** The invariant of concurrent growth, and that every step keeps it. */
module VectorGrowthProof {
  import opened HashPaths
  import opened Segments
  import opened VectorGrowth

  // ---------------------------------------------------------------- the invariant

  /** The call has reserved the first index of segment k. */
  ghost predicate Owns(th: Thread, k: nat) { th.Busy? && th.call.start <= SegmentBase(k) < th.call.finish }

  predicate Left(w: Work, k: nat) { w.lo <= k <= w.hi }

  /** The call has yet to publish segment k. */
  ghost predicate Pending(th: Thread, k: nat) {
    Owns(th, k) && match th.pc
                   case SetFirst | TestTable | AwaitSlot(_) | CopySlots(_) | SwapTable(_) | LoadTable => true
                   case Acquire(w) => Left(w, k)
                   case TestSlot(w, _) => Left(w, k)
                   case AwaitOwner(w, _) => Left(w, k)
                   case EnableTable(w, _) => Left(w, k)
                   case EnableFirst(w, _, _) => Left(w, k)
                   case EnableShared(w, _, _) => Left(w, k)
                   case EnableOwn(w, _, _) => Left(w, k)
                   case CheckSlot(w, _) => Left(w, k) && k != Target(w)
                   case Construct(_) | Failed => false
  }

  /** All segments before the call's first index that have to be copied are published. */
  ghost predicate Ready(m: Memory, start: nat) {
    forall j :: 0 <= j < SHORT_TABLE && SegmentBase(j) < start ==> SlotOf(m, false, j).At?
  }

  /** The table that a thread has loaded: a long one exists, and is the one to use if the call needs it. */
  ghost predicate Loaded(m: Memory, c: Call, long: bool)
  {
    (long ==> m.extended) && (Last(c) >= SHORT_TABLE ==> long)
  }

  ghost predicate WorkInv(m: Memory, c: Call, w: Work)
  {
    && SegmentOf(c.start) <= w.lo && w.hi <= Last(c) && (Last(c) >= SHORT_TABLE ==> m.extended)
    && (w.high ==> c.kind != Push && w.lo == SegmentOf(c.start) && w.hi > w.lo && w.hi >= w.first)
    && (c.kind != Push ==> w.first == m.first && Loaded(m, c, w.long))
    && forall k :: SegmentOf(c.start) <= k <= Last(c) && !Left(w, k) ==> Current(m, k).At?
  }

  ghost predicate TargetInv(m: Memory, c: Call, w: Work)
  {
    WorkInv(m, c, w) && w.lo <= w.hi
  }

  ghost predicate EnableInv(m: Memory, c: Call, w: Work, ref: bool)
  {
    TargetInv(m, c, w) && Loaded(m, c, ref) && IsOwner(w, c.start)
  }

  ghost predicate PcInv(m: Memory, c: Call, pc: Pc)
  {
    match pc
    case SetFirst | TestTable => true
    case AwaitSlot(i) => Last(c) >= SHORT_TABLE && i <= SHORT_TABLE && forall j :: 0 <= j < i ==> SlotOf(m, false, j).At?
    case CopySlots(copy) =>
      Last(c) >= SHORT_TABLE && Ready(m, c.start) && |copy| <= |m.short| && copy == m.short[..|copy|]
    case SwapTable(copy) => Last(c) >= SHORT_TABLE && Ready(m, c.start) && copy == m.short
    case LoadTable => c.kind != Push && (Last(c) >= SHORT_TABLE ==> m.extended)
    case Acquire(w) => TargetInv(m, c, w)
    case TestSlot(w, ref) => TargetInv(m, c, w) && Loaded(m, c, ref)
    case AwaitOwner(w, ref) => TargetInv(m, c, w) && Loaded(m, c, ref) && !IsOwner(w, c.start)
    case EnableTable(w, ref) => EnableInv(m, c, w, ref)
    case EnableFirst(w, ref, long) => EnableInv(m, c, w, ref) && Loaded(m, c, long)
    case EnableShared(w, ref, long) => EnableInv(m, c, w, ref) && Loaded(m, c, long) && 0 < Target(w) < m.first
    case EnableOwn(w, ref, long) =>
      EnableInv(m, c, w, ref) && Loaded(m, c, long) && m.first > 0 && (Target(w) == 0 || m.first <= Target(w))
    case CheckSlot(w, ref) => TargetInv(m, c, w) && Loaded(m, c, ref) && SlotOf(m, ref, Target(w)).At?
    case Construct(w) => WorkInv(m, c, w) && Loaded(m, c, w.long) && w.lo > w.hi && !w.high
    case Failed => false
  }

  ghost predicate ThreadInv(m: Memory, th: Thread) {
    match th
    case Idle => true
    case Busy(c, pc) =>
      && c.start < c.finish <= m.size && (c.kind == Push ==> c.finish == c.start + 1)
      && (c.kind != Push && pc != SetFirst ==> m.first > 0)
      && (m.extended && Last(c) < SHORT_TABLE ==> c.finish <= m.cut)
      && PcInv(m, c, pc)
    case AwaitTable(n) => 0 < n <= m.size
    case AwaitSegments(n, i) => 0 < n <= m.size && forall j :: 0 <= j < i ==> Current(m, j).At?
  }

  ghost predicate Tables(m: Memory) {
    && |m.short| == SHORT_TABLE && |m.long| == (if m.extended then LONG_TABLE else 0) && Fits(m.size)
    && (m.extended ==> SegmentBase(SHORT_TABLE) < m.size && Ready(m, m.cut)
                       && forall k :: 0 <= k < SHORT_TABLE && m.short[k].At? ==> m.long[k] == m.short[k])
  }

  /** A segment below the vector's size is published or pending, and never both. */
  ghost predicate Cover(m: Memory, threads: seq<Thread>) {
    && (forall k :: Current(m, k).At? ==> SegmentBase(k) < m.size)
    && (forall k: nat :: SegmentBase(k) < m.size && !Current(m, k).At? ==> SomePending(threads, k))
    && (forall t, k: nat :: 0 <= t < |threads| && Pending(threads[t], k) ==> !Current(m, k).At?)
  }

  ghost predicate SomePending(threads: seq<Thread>, k: nat) {
    exists t :: 0 <= t < |threads| && Pending(threads[t], k)
  }

  ghost predicate Disjoint(a: Thread, b: Thread) {
    a.Busy? && b.Busy? ==> a.call.finish <= b.call.start || b.call.finish <= a.call.start
  }

  predicate IsPiece(m: Memory, k: nat) { Current(m, k).At? && (k == 0 || m.first <= k) }

  /** Segments below my_first_block lie in the block of segment 0, and each other one has a block of its own. */
  ghost predicate Placed(m: Memory, k: nat)
    requires Current(m, k).At?
  {
    m.first > 0 && if 0 < k < m.first then Current(m, 0).At? && Current(m, k) == At(Current(m, 0).block, SegmentBase(k))
                   else Current(m, k).offset == 0 && Current(m, k).block < |m.blocks|
                        && m.blocks[Current(m, k).block] == Pow2(if k == 0 then m.first else k)
  }

  ghost predicate Layout(m: Memory) {
    && (forall k :: Current(m, k).At? ==> Placed(m, k))
    && (forall j, k :: IsPiece(m, j) && IsPiece(m, k) && j != k ==> Current(m, j).block != Current(m, k).block)
    && (forall b :: 0 <= b < |m.blocks| ==> InUse(m, b))
  }

  ghost predicate InUse(m: Memory, b: nat) { exists k :: IsPiece(m, k) && Current(m, k).block == b }

  /** The calls have reserved all indices, one call after the other. */
  ghost predicate Tiled(calls: seq<Range>, size: nat) {
    && (forall i {:trigger Before(calls, i)} :: 0 <= i < |calls| ==> Before(calls, i) == calls[i].start < calls[i].finish)
    && size == Before(calls, |calls|)
  }

  function Before(calls: seq<Range>, i: nat): nat
    requires i <= |calls|
  {
    if i == 0 then 0 else calls[i - 1].finish
  }

  ghost predicate Inv(s: State) {
    && Tables(s.m) && Layout(s.m) && Cover(s.m, s.threads) && Tiled(s.calls, s.m.size)
    && (forall t :: 0 <= t < |s.threads| ==> ThreadInv(s.m, s.threads[t]))
    && (forall t, u :: 0 <= t < u < |s.threads| ==> Disjoint(s.threads[t], s.threads[u]))
  }

  // ---------------------------------------------------------------- segments

  /** Segments up to the one of an index begin at or below it, and later ones above it. */
  lemma BaseBelow(k: nat, i: nat)
    ensures k <= SegmentOf(i) <==> SegmentBase(k) <= i
  {
    hide Level, Pow2, SegmentBase;
    SegmentBounds(i);
    if k <= SegmentOf(i) { BaseMonotone(k, SegmentOf(i)); } else { BaseMonotone(SegmentOf(i) + 1, k); }
  }

  lemma OwnedBounds(th: Thread, k: nat)
    requires Owns(th, k) && th.call.start < th.call.finish
    ensures SegmentOf(th.call.start) <= k <= Last(th.call)
  {
    hide Level, Pow2, SegmentBase;
    BaseBelow(k, th.call.finish - 1);
    if k < SegmentOf(th.call.start) {
      BaseBelow(k + 1, th.call.start);
      BaseMonotone(k, k + 1);
    }
  }

  lemma BaseStrict(j: nat, k: nat)
    requires j < k
    ensures SegmentBase(j) < SegmentBase(k)
  {
    BaseMonotone(j, k);
  }

  // ---------------------------------------------------------------- steps that write nothing

  lemma ThreadOf(s: State, t: nat)
    requires Inv(s) && t < |s.threads|
    ensures ThreadInv(s.m, s.threads[t])
  {
  }

  /** A thread goes on without writing anything, and nothing it had to publish is forgotten. */
  lemma Local(s: State, t: nat, th: Thread)
    requires Inv(s) && t < |s.threads| && ThreadInv(s.m, th)
    requires th.Busy? ==> s.threads[t].Busy? && th.call == s.threads[t].call
    requires forall k: nat :: Pending(th, k) ==> Pending(s.threads[t], k)
    requires forall k: nat :: Pending(s.threads[t], k) && !Current(s.m, k).At? ==> Pending(th, k)
    ensures Inv(Become(s, t, th))
  {
    hide ThreadInv, Pending, SegmentBase, Pow2, Tables, Layout, Tiled;
    var s' := Become(s, t, th);
    forall k: nat | SegmentBase(k) < s.m.size && !Current(s.m, k).At? ensures SomePending(s'.threads, k) {
      assert SomePending(s.threads, k);
      var u :| 0 <= u < |s.threads| && Pending(s.threads[u], k);
      assert Pending(s'.threads[u], k);
    }
  }

  /** What the heads of the loops find: the invariant of their body, or the end. */
  lemma Continues(m: Memory, th: Thread, w: Work)
    requires th.Busy? && ThreadInv(m, th) && th.pc != SetFirst
    requires SegmentOf(th.call.start) <= w.lo && w.hi <= Last(th.call) && (Last(th.call) >= SHORT_TABLE ==> m.extended)
    requires w.high ==> th.call.kind != Push && w.lo == SegmentOf(th.call.start)
    requires th.call.kind != Push ==> w.first == m.first && Loaded(m, th.call, w.long)
    requires w.lo > w.hi ==> Loaded(m, th.call, w.long)
    requires forall k :: SegmentOf(th.call.start) <= k <= Last(th.call) && !Left(w, k) ==> Current(m, k).At?
    ensures ThreadInv(m, th.(pc := Continue(w)))
    ensures forall k: nat :: Pending(th.(pc := Continue(w)), k) <==> Owns(th, k) && Left(w, k)
  {
    hide SegmentBase, SegmentOf, Level, Pow2, Current, SlotOf;
    var v := if w.high && !(w.hi > w.lo && w.hi >= w.first) then w.(high := false) else w;
    assert forall k :: Left(w, k) <==> Left(v, k);
    assert Continue(w) == if !v.high && v.lo > v.hi then Construct(v) else Acquire(v);
    assert WorkInv(m, th.call, v);
  }

  predicate Early(pc: Pc) {
    pc == SetFirst || pc == TestTable || pc.AwaitSlot? || pc.CopySlots? || pc.SwapTable? || pc == LoadTable
  }

  predicate Acquiring(pc: Pc) {
    pc.Acquire? || pc.TestSlot? || pc.AwaitOwner? || pc.EnableTable? || pc.EnableFirst? || pc.EnableShared? || pc.EnableOwn?
  }

  /** Steps before the first segment is acquired, and steps on the way to acquire one. */
  lemma Stays(s: State, t: nat, pc: Pc)
    requires Inv(s) && t < |s.threads| && s.threads[t].Busy?
    requires var th := s.threads[t];
      && ThreadInv(s.m, th.(pc := pc))
      && ((Early(th.pc) && Early(pc)) || (Acquiring(th.pc) && Acquiring(pc) && pc.w == th.pc.w))
    ensures Inv(Goto(s, t, pc))
  {
    var th := s.threads[t];
    hide SegmentBase, Inv, ThreadInv, Pending;
    SamePending(th, pc);
    Local(s, t, th.(pc := pc));
  }

  lemma SamePending(th: Thread, pc: Pc)
    requires th.Busy?
    requires (Early(th.pc) && Early(pc)) || (Acquiring(th.pc) && Acquiring(pc) && pc.w == th.pc.w)
    ensures forall k: nat :: Pending(th.(pc := pc), k) <==> Pending(th, k)
  {
    hide SegmentBase;
  }

  /** The table is long enough: a push goes on to acquire its segment, a growth to load the table. */
  lemma TableChecked(s: State, t: nat)
    requires Inv(s) && t < |s.threads|
    requires s.threads[t].Busy? && Early(s.threads[t].pc) && s.threads[t].pc != SetFirst
    requires Last(s.threads[t].call) < SHORT_TABLE || s.m.extended
    ensures Inv(Goto(s, t, TableDone(s.threads[t].call)))
  {
    hide Inv;
    ThreadOf(s, t);
    var th := s.threads[t];
    if th.call.kind == Push {
      forall k: nat | Owns(th, k) ensures SegmentOf(th.call.start) <= k <= Last(th.call) { OwnedBounds(th, k); }
      Continues(s.m, th, Work(false, 0, Last(th.call), Last(th.call), false));
      assert forall k: nat :: Pending(th, k) <==> Owns(th, k);
      hide SegmentBase, SegmentOf, Pending, ThreadInv;
      Local(s, t, th.(pc := TableDone(th.call)));
    } else {
      hide SegmentBase, SegmentOf;
      Stays(s, t, LoadTable);
    }
  }

  lemma TestTableKeeps(s: State, s': State, t: nat)
    requires Inv(s) && StepTestTable(s, s', t)
    ensures Inv(s')
  {
    hide Inv, SegmentBase, SegmentOf;
    ThreadOf(s, t);
    if Last(s.threads[t].call) >= SHORT_TABLE && !s.m.extended { Stays(s, t, AwaitSlot(0)); } else { TableChecked(s, t); }
  }

  lemma AwaitSlotKeeps(s: State, s': State, t: nat)
    requires Inv(s) && StepAwaitSlot(s, s', t)
    ensures Inv(s')
  {
    hide Inv, SegmentBase, SegmentOf;
    var th, i := s.threads[t], s.threads[t].pc.i;
    if s.m.extended {
      TableChecked(s, t);
    } else if SegmentBase(i) < th.call.start && SegmentBase(i) < Pow2(SHORT_TABLE) {
      SlotFound(s, t, i);
    } else {
      AllFound(s, t, i);
    }
  }

  lemma SlotFound(s: State, t: nat, i: nat)
    requires Inv(s) && t < |s.threads| && s.threads[t].Busy? && s.threads[t].pc == AwaitSlot(i)
    requires SegmentBase(i) < Pow2(SHORT_TABLE) && SlotOf(s.m, false, i).At?
    ensures Inv(Goto(s, t, AwaitSlot(i + 1)))
  {
    hide Inv, SegmentBase, SegmentOf;
    ThreadOf(s, t);
    FoundNext(s.m, s.threads[t].call, i);
    hide PcInv, SlotOf;
    Stays(s, t, AwaitSlot(i + 1));
  }

  lemma FoundNext(m: Memory, c: Call, i: nat)
    requires PcInv(m, c, AwaitSlot(i)) && SlotOf(m, false, i).At? && SegmentBase(i) < Pow2(SHORT_TABLE)
    ensures PcInv(m, c, AwaitSlot(i + 1))
  {
    SlotBound(i);
  }

  lemma SlotBound(i: nat)
    requires SegmentBase(i) < Pow2(SHORT_TABLE)
    ensures i < SHORT_TABLE
  {
    if i >= SHORT_TABLE { BaseMonotone(SHORT_TABLE, i); }
  }

  lemma AllFound(s: State, t: nat, i: nat)
    requires Inv(s) && t < |s.threads| && s.threads[t].Busy? && s.threads[t].pc == AwaitSlot(i)
    requires SegmentBase(i) >= s.threads[t].call.start || SegmentBase(i) >= Pow2(SHORT_TABLE)
    ensures Inv(Goto(s, t, CopySlots([])))
  {
    hide Inv, SegmentBase, SegmentOf, SlotOf;
    var start := s.threads[t].call.start;
    ThreadOf(s, t);
    forall j | 0 <= j < SHORT_TABLE && SegmentBase(j) < start ensures SlotOf(s.m, false, j).At? { SlotsBefore(i, j, start); }
    Stays(s, t, CopySlots([]));
  }

  lemma SlotsBefore(i: nat, j: nat, start: nat)
    requires j < SHORT_TABLE && SegmentBase(j) < start && (SegmentBase(i) >= start || SegmentBase(i) >= Pow2(SHORT_TABLE))
    ensures j < i
  {
    BaseStrict(j, SHORT_TABLE);
    assert SegmentBase(SHORT_TABLE) == Pow2(SHORT_TABLE);
    hide SegmentBase;
    if i <= j { BaseMonotone(i, j); }
  }

  lemma CopySlotsKeeps(s: State, s': State, t: nat)
    requires Inv(s) && StepCopySlots(s, s', t)
    ensures Inv(s')
  {
    assert Tables(s.m);
    hide Inv, SegmentBase, SegmentOf, Tables, Ready;
    ThreadOf(s, t);
    CopyNext(s.m, s.threads[t].call, s.threads[t].pc.copy);
    hide PcInv, SlotOf;
    Stays(s, t, s'.threads[t].pc);
  }

  lemma CopyNext(m: Memory, c: Call, copy: seq<Slot>)
    requires Tables(m) && PcInv(m, c, CopySlots(copy))
    ensures PcInv(m, c, if |copy| < SHORT_TABLE then CopySlots(copy + [SlotOf(m, false, |copy|)]) else SwapTable(copy))
  {
    hide SegmentBase, SegmentOf, Ready;
    if |copy| < SHORT_TABLE {
      assert copy + [SlotOf(m, false, |copy|)] == m.short[..|copy| + 1];
    } else {
      assert copy == m.short;
    }
  }

  lemma LoadTableKeeps(s: State, s': State, t: nat)
    requires Inv(s) && StepLoadTable(s, s', t)
    ensures Inv(s')
  {
    hide Inv, SegmentBase;
    var th := s.threads[t];
    ThreadOf(s, t);
    forall k: nat | Owns(th, k) ensures SegmentOf(th.call.start) <= k <= Last(th.call) { OwnedBounds(th, k); }
    hide SegmentOf;
    var w := Work(s.m.extended, s.m.first, SegmentOf(th.call.start), Last(th.call), true);
    Continues(s.m, th, w);
    assert forall k: nat :: Pending(th, k) <==> Owns(th, k);
    hide ThreadInv, Pending;
    Local(s, t, th.(pc := Continue(w)));
  }

  lemma AcquireKeeps(s: State, s': State, t: nat)
    requires Inv(s) && StepAcquire(s, s', t)
    ensures Inv(s')
  {
    hide Inv, SegmentBase, SegmentOf, WorkInv, SlotOf;
    ThreadOf(s, t);
    InWork(s.m, s.threads[t].call, s.threads[t].pc.w);
    hide TargetInv, Loaded;
    Stays(s, t, s'.threads[t].pc);
  }

  lemma TestSlotKeeps(s: State, s': State, t: nat)
    requires Inv(s) && StepTestSlot(s, s', t)
    ensures Inv(s')
  {
    assert Tables(s.m);
    hide Inv, SegmentBase, SegmentOf, WorkInv, TargetInv, Tables, SlotOf, Current, IsOwner;
    ThreadOf(s, t);
    var w, ref := s.threads[t].pc.w, s.threads[t].pc.ref;
    if SlotOf(s.m, ref, Target(w)).At? {
      SetIsCurrent(s.m, ref, Target(w));
      Acquired(s, t, w, ref);
    } else {
      NotSet(s.m, s.threads[t].call, w, ref);
      hide PcInv;
      Stays(s, t, s'.threads[t].pc);
    }
  }

  lemma NotSet(m: Memory, c: Call, w: Work, ref: bool)
    requires PcInv(m, c, TestSlot(w, ref))
    ensures PcInv(m, c, if IsOwner(w, c.start) then EnableTable(w, ref) else AwaitOwner(w, ref))
  {
    hide SegmentBase, SegmentOf, WorkInv, TargetInv;
  }

  lemma InWork(m: Memory, c: Call, w: Work)
    requires WorkInv(m, c, w)
    ensures Loaded(m, c, m.extended)
  {
  }

  /** The thread has found its target's slot set. */
  lemma Acquired(s: State, t: nat, w: Work, ref: bool)
    requires Inv(s) && t < |s.threads| && s.threads[t].Busy? && Acquiring(s.threads[t].pc) && s.threads[t].pc.w == w
    requires Current(s.m, Target(w)).At? && SlotOf(s.m, ref, Target(w)).At?
    requires TargetInv(s.m, s.threads[t].call, w) && Loaded(s.m, s.threads[t].call, ref)
    ensures Inv(Goto(s, t, CheckSlot(w, ref)))
  {
    hide Inv, SegmentBase, SegmentOf, WorkInv, TargetInv, Current, SlotOf, Loaded;
    ThreadOf(s, t);
    var th := s.threads[t];
    assert ThreadInv(s.m, th.(pc := CheckSlot(w, ref)));
    hide ThreadInv;
    Local(s, t, th.(pc := CheckSlot(w, ref)));
  }

  /** A slot set in a table that was loaded is set in the current one. */
  lemma SetIsCurrent(m: Memory, long: bool, k: nat)
    requires Tables(m) && SlotOf(m, long, k).At? && (long ==> m.extended)
    ensures Current(m, k) == SlotOf(m, long, k)
  {
  }

  lemma AwaitOwnerKeeps(s: State, s': State, t: nat)
    requires Inv(s) && StepAwaitOwner(s, s', t)
    ensures Inv(s')
  {
    assert Tables(s.m);
    hide Inv, SegmentBase, SegmentOf, WorkInv, Tables, SlotOf, Current;
    ThreadOf(s, t);
    SetIsCurrent(s.m, s.threads[t].pc.ref, Target(s.threads[t].pc.w));
    Acquired(s, t, s.threads[t].pc.w, s.threads[t].pc.ref);
  }

  lemma EnableTableKeeps(s: State, s': State, t: nat)
    requires Inv(s) && StepEnableTable(s, s', t)
    ensures Inv(s')
  {
    hide Inv, SegmentBase, SegmentOf, WorkInv, IsOwner, SlotOf;
    ThreadOf(s, t);
    InWork(s.m, s.threads[t].call, s.threads[t].pc.w);
    hide TargetInv, Loaded;
    Stays(s, t, s'.threads[t].pc);
  }

  lemma EnableFirstKeeps(s: State, s': State, t: nat)
    requires Inv(s) && StepEnableFirst(s, s', t) && s.m.first > 0
    ensures Inv(s')
  {
    hide Inv, SegmentBase, SegmentOf, WorkInv, TargetInv, Loaded, IsOwner, SlotOf;
    ThreadOf(s, t);
    Stays(s, t, s'.threads[t].pc);
  }

  /** What is left after a segment has been acquired is all that was pending. */
  lemma Advances(m: Memory, th: Thread, w: Work, ref: bool)
    requires Tables(m) && ThreadInv(m, th) && th.Busy? && th.pc == CheckSlot(w, ref)
    ensures SlotOf(m, ref, Target(w)).At?
    ensures var th' := th.(pc := Advance(if th.call.kind == Push then w.(long := ref) else w));
      ThreadInv(m, th') && forall k: nat :: Pending(th', k) <==> Pending(th, k)
  {
    hide SegmentBase, SegmentOf, Tables, SlotOf, Current;
    SetIsCurrent(m, ref, Target(w));
    var v := if th.call.kind == Push then w.(long := ref) else w;
    var u := if w.high then v.(hi := v.hi - 1) else v.(lo := v.lo + 1);
    assert Advance(v) == Continue(u);
    hide Continue;
    assert forall k: nat :: Pending(th, k) <==> Owns(th, k) && Left(u, k);
    Continues(m, th, u);
    hide WorkInv, ThreadInv, Pending, Owns;
  }

  lemma CheckSlotKeeps(s: State, s': State, t: nat)
    requires Inv(s) && StepCheckSlot(s, s', t)
    ensures Inv(s')
  {
    assert Tables(s.m);
    hide Inv, Tables;
    ThreadOf(s, t);
    Advances(s.m, s.threads[t], s.threads[t].pc.w, s.threads[t].pc.ref);
    hide ThreadInv, Pending, Advance;
    Local(s, t, s'.threads[t]);
  }

  lemma ConstructKeeps(s: State, s': State, t: nat)
    requires Inv(s) && StepConstruct(s, s', t)
    ensures Inv(s')
  {
    hide Inv, SegmentBase, SegmentOf, WorkInv, Loaded;
    ThreadOf(s, t);
    Local(s, t, s'.threads[t]);
  }

  lemma AwaitKeeps(s: State, s': State, t: nat)
    requires Inv(s) && (StepAwaitTable(s, s', t) || StepAwaitSegments(s, s', t))
    ensures Inv(s')
  {
    hide Inv, SegmentBase, SegmentOf;
    ThreadOf(s, t);
    Local(s, t, s'.threads[t]);
  }

  lemma LongEnoughKeeps(s: State, s': State, t: nat, n: nat)
    requires Inv(s) && LongEnough(s, s', t, n)
    ensures Inv(s')
  {
    hide Inv, SegmentBase;
    Local(s, t, AwaitTable(n));
  }

  // ---------------------------------------------------------------- a new call

  lemma SizeGrows(m: Memory, n: nat, th: Thread)
    requires ThreadInv(m, th) && m.size <= n
    ensures ThreadInv(m.(size := n), th)
  {
    hide SegmentBase, SegmentOf;
    assert forall k: nat :: Current(m.(size := n), k) == Current(m, k);
    assert forall long, k: nat :: SlotOf(m.(size := n), long, k) == SlotOf(m, long, k);
  }

  lemma NewCall(m: Memory, c: Call, pc: Pc)
    requires Tables(m) && c.start == m.size < c.finish && (c.kind == Push ==> c.finish == c.start + 1)
    requires pc == if c.kind == Push then TestTable else SetFirst
    ensures ThreadInv(m.(size := c.finish), Busy(c, pc))
  {
    BaseBelow(SHORT_TABLE, c.finish - 1);
  }

  lemma NewCover(m: Memory, threads: seq<Thread>, t: nat, c: Call, pc: Pc)
    requires Cover(m, threads) && t < |threads| && threads[t] == Idle && c.start == m.size < c.finish && Early(pc)
    ensures Cover(m.(size := c.finish), threads[t := Busy(c, pc)])
  {
    hide SegmentBase;
    var m', threads' := m.(size := c.finish), threads[t := Busy(c, pc)];
    assert forall k: nat :: Current(m', k) == Current(m, k);
    assert forall k: nat :: Pending(Busy(c, pc), k) <==> Owns(Busy(c, pc), k);
    hide Pending, Current;
    forall k: nat | SegmentBase(k) < m'.size && !Current(m', k).At? ensures SomePending(threads', k) {
      if SegmentBase(k) >= m.size {
        assert Pending(threads'[t], k);
      } else {
        assert SomePending(threads, k);
        var u :| 0 <= u < |threads| && Pending(threads[u], k);
        assert u != t by { assert !Owns(Idle, k); }
        assert Pending(threads'[u], k);
      }
    }
  }

  lemma NewTile(calls: seq<Range>, size: nat, finish: nat)
    requires Tiled(calls, size) && size < finish
    ensures Tiled(calls + [Range(size, finish)], finish)
  {
    var more := calls + [Range(size, finish)];
    forall i | 0 <= i <= |calls| ensures Before(more, i) == Before(calls, i) { }
    assert more[|calls|] == Range(size, finish) && Before(more, |more|) == finish;
  }

  lemma NewLayout(m: Memory, m': Memory)
    requires Layout(m) && m'.first == m.first && m'.blocks == m.blocks && forall k: nat :: Current(m', k) == Current(m, k)
    ensures Layout(m')
  {
    hide Current, SegmentBase, Pow2;
    forall b | 0 <= b < |m.blocks| ensures InUse(m', b) {
      assert InUse(m, b);
      var k :| IsPiece(m, k) && Current(m, k).block == b;
      assert IsPiece(m', k);
    }
  }

  lemma ReserveKeeps(s: State, s': State, t: nat, kind: Kind, finish: nat)
    requires Inv(s) && Reserve(s, s', t, kind, finish)
    ensures Inv(s')
  {
    hide SegmentBase, SegmentOf, Pow2, Cover, Layout, ThreadInv, Fits;
    var c, pc := s'.threads[t].call, s'.threads[t].pc;
    NewCall(s.m, c, pc);
    NewCover(s.m, s.threads, t, c, pc);
    NewLayout(s.m, s'.m);
    forall u | 0 <= u < |s.threads| ensures ThreadInv(s'.m, s'.threads[u]) {
      if u != t { SizeGrows(s.m, finish, s.threads[u]); }
    }
    forall u | 0 <= u < |s.threads| && u != t && s.threads[u].Busy? ensures s.threads[u].call.finish <= s.m.size {
      FinishBelow(s.m, s.threads[u]);
    }
    NewTile(s.calls, s.m.size, finish);
  }

  lemma FinishBelow(m: Memory, th: Thread)
    requires ThreadInv(m, th) && th.Busy?
    ensures th.call.finish <= m.size
  {
  }

  // ---------------------------------------------------------------- my_first_block

  lemma FirstSet(m: Memory, first: nat, th: Thread)
    requires ThreadInv(m, th) && m.first == 0 < first
    ensures ThreadInv(m.(first := first), th)
  {
    var m' := m.(first := first);
    hide SegmentBase, SegmentOf;
    assert forall long, k: nat :: SlotOf(m', long, k) == SlotOf(m, long, k);
    assert forall k: nat :: Current(m', k) == Current(m, k);
    hide SlotOf, Current;
  }

  lemma NothingYet(m: Memory, first: nat)
    requires Layout(m) && m.first == 0
    ensures Layout(m.(first := first))
  {
    var m' := m.(first := first);
    assert forall k: nat :: Current(m', k) == Current(m, k);
    if |m.blocks| > 0 {
      UsedMeansFirst(m, 0);
      assert false;
    }
    assert forall k: nat :: Current(m, k).At? ==> Placed(m, k);
  }

  lemma UsedMeansFirst(m: Memory, b: nat)
    requires Layout(m) && b < |m.blocks|
    ensures m.first > 0
  {
    assert InUse(m, b);
    var k :| IsPiece(m, k) && Current(m, k).block == b;
    assert Placed(m, k);
  }

  /** my_first_block is set before any segment is allocated. */
  lemma FirstKeeps(s: State, first: nat)
    requires Inv(s) && s.m.first == 0 < first
    ensures Inv(s.(m := s.m.(first := first)))
  {
    hide ThreadInv, SegmentBase, SegmentOf, Pending, Layout, Tiled, Fits;
    var m' := s.m.(first := first);
    assert forall k: nat :: Current(m', k) == Current(s.m, k);
    assert forall long, k: nat :: SlotOf(m', long, k) == SlotOf(s.m, long, k);
    NothingYet(s.m, first);
    forall t | 0 <= t < |s.threads| ensures ThreadInv(m', s.threads[t]) { FirstSet(s.m, first, s.threads[t]); }
  }

  lemma SetFirstKeeps(s: State, s': State, t: nat)
    requires Inv(s) && StepSetFirst(s, s', t)
    ensures Inv(s')
  {
    hide Inv, SegmentBase, SegmentOf;
    if s.m.first == 0 {
      FirstKeeps(s, s'.m.first);
      var s1 := s.(m := s'.m);
      ThreadOf(s1, t);
      Stays(s1, t, TestTable);
    } else {
      ThreadOf(s, t);
      Stays(s, t, TestTable);
    }
  }

  lemma EnableFirstSets(s: State, s': State, t: nat)
    requires Inv(s) && StepEnableFirst(s, s', t) && s.m.first == 0
    ensures Inv(s')
  {
    hide Inv, SegmentBase, SegmentOf;
    FirstKeeps(s, 1);
    var s1 := s.(m := s'.m);
    hide WorkInv, TargetInv, Loaded, IsOwner, SlotOf;
    ThreadOf(s1, t);
    Stays(s1, t, s'.threads[t].pc);
  }

  // ---------------------------------------------------------------- the longer table

  lemma ExtendedSame(m: Memory, copy: seq<Slot>, start: nat)
    requires Tables(m) && !m.extended && copy == m.short
    ensures var m' := Extended(m, copy, start);
      && (forall k: nat :: SlotOf(m', false, k) == SlotOf(m, false, k))
      && (forall k: nat :: Current(m', k) == Current(m, k))
  {
  }

  lemma ExtendedPc(m: Memory, m': Memory, c: Call, pc: Pc)
    requires !m.extended && m'.extended && m'.first == m.first && m'.short == m.short && PcInv(m, c, pc)
    requires forall k: nat :: SlotOf(m', false, k) == SlotOf(m, false, k)
    requires forall k: nat :: Current(m', k) == Current(m, k)
    ensures PcInv(m', c, pc)
  {
    hide SegmentBase, SegmentOf, Current, SlotOf;
  }

  /** Another call either needs the longer table too, or its indices are before those of the call that copies. */
  lemma ExtendedThread(m: Memory, copy: seq<Slot>, c: Call, th: Thread)
    requires Tables(m) && !m.extended && copy == m.short && Last(c) >= SHORT_TABLE && c.start < c.finish && ThreadInv(m, th)
    requires th.Busy? && th.call != c ==> th.call.finish <= c.start || c.finish <= th.call.start
    ensures ThreadInv(Extended(m, copy, c.start), th)
  {
    ExtendedSame(m, copy, c.start);
    if th.Busy? {
      var d := th.call;
      BaseBelow(SHORT_TABLE, c.finish - 1);
      BaseBelow(SHORT_TABLE, d.finish - 1);
      assert SegmentBase(SHORT_TABLE) == Pow2(SHORT_TABLE);
      hide SegmentBase, SegmentOf, Current, SlotOf, Pow2, PcInv, Tables;
      ExtendedPc(m, Extended(m, copy, c.start), d, th.pc);
    }
  }

  lemma ExtendedTables(m: Memory, copy: seq<Slot>, start: nat)
    requires Tables(m) && !m.extended && copy == m.short && Ready(m, start) && SegmentBase(SHORT_TABLE) < m.size
    ensures Tables(Extended(m, copy, start))
  {
    hide SegmentBase, Fits;
    ExtendedSame(m, copy, start);
  }

  /** After the copy is swapped in everything is as before, for all threads. */
  lemma SwappedKeeps(s: State, t: nat)
    requires Inv(s) && !s.m.extended && t < |s.threads| && s.threads[t].Busy? && s.threads[t].pc.SwapTable?
    ensures Inv(s.(m := Extended(s.m, s.threads[t].pc.copy, s.threads[t].call.start)))
  {
    hide SegmentBase, SegmentOf, Pow2, Fits, Layout, Pending, ThreadInv, Tiled;
    var c, copy := s.threads[t].call, s.threads[t].pc.copy;
    SwapFacts(s.m, c, copy);
    ExtendedSame(s.m, copy, c.start);
    ExtendedTables(s.m, copy, c.start);
    NewLayout(s.m, Extended(s.m, copy, c.start));
    forall u | 0 <= u < |s.threads| ensures ThreadInv(Extended(s.m, copy, c.start), s.threads[u]) {
      assert u < t ==> Disjoint(s.threads[u], s.threads[t]);
      assert t < u ==> Disjoint(s.threads[t], s.threads[u]);
      ExtendedThread(s.m, copy, c, s.threads[u]);
    }
  }

  lemma SwapFacts(m: Memory, c: Call, copy: seq<Slot>)
    requires ThreadInv(m, Busy(c, SwapTable(copy)))
    ensures copy == m.short && Last(c) >= SHORT_TABLE && c.start < c.finish && Ready(m, c.start)
    ensures SegmentBase(SHORT_TABLE) < m.size
  {
    BaseBelow(SHORT_TABLE, c.finish - 1);
  }

  lemma SwapTableKeeps(s: State, s': State, t: nat)
    requires Inv(s) && StepSwapTable(s, s', t)
    ensures Inv(s')
  {
    hide Inv, SegmentBase, SegmentOf, Pow2;
    if s.m.extended {
      TableChecked(s, t);
    } else {
      SwappedKeeps(s, t);
      TableChecked(s.(m := s'.m), t);
    }
  }

  // ---------------------------------------------------------------- publishing a segment

  /** What publishing segment k changes. */
  ghost predicate Publishes(m: Memory, m': Memory, k: nat, value: Slot) {
    && k < |if m.extended then m.long else m.short|
    && m' == Store(m, m.extended, k, value).(blocks := m'.blocks)
    && (forall j: nat :: Current(m', j) == if j == k then value else Current(m, j))
  }

  /** A segment in the shared block adds no block. */
  lemma SharedLayout(m: Memory, m': Memory, k: nat)
    requires Layout(m) && !Current(m, k).At? && 0 < k < m.first && Current(m, 0).At?
    requires m'.first == m.first && m'.blocks == m.blocks
    requires forall j: nat :: Current(m', j) == if j == k then At(Current(m, 0).block, SegmentBase(k)) else Current(m, j)
    ensures Layout(m')
  {
    hide Current, SegmentBase, Pow2;
    assert forall j: nat :: IsPiece(m', j) <==> IsPiece(m, j);
    forall b | 0 <= b < |m.blocks| ensures InUse(m', b) {
      assert InUse(m, b);
      var j :| IsPiece(m, j) && Current(m, j).block == b;
      assert IsPiece(m', j);
    }
    assert Placed(m, 0);
    forall j: nat | Current(m', j).At? ensures Placed(m', j) { if j != k { assert Placed(m, j); } }
  }

  /** Another segment gets a new block of its size. */
  lemma OwnLayout(m: Memory, m': Memory, k: nat)
    requires Layout(m) && !Current(m, k).At? && m.first > 0 && (k == 0 || m.first <= k)
    requires m'.first == m.first && m'.blocks == m.blocks + [Pow2(if k == 0 then m.first else k)]
    requires forall j: nat :: Current(m', j) == if j == k then At(|m.blocks|, 0) else Current(m, j)
    ensures Layout(m')
  {
    hide Current, SegmentBase, Pow2;
    assert forall j: nat :: IsPiece(m', j) <==> IsPiece(m, j) || j == k;
    forall b | 0 <= b < |m'.blocks| ensures InUse(m', b) {
      if b < |m.blocks| {
        assert InUse(m, b);
        var j :| IsPiece(m, j) && Current(m, j).block == b;
        assert IsPiece(m', j);
      } else {
        assert IsPiece(m', k);
      }
    }
    forall j: nat | Current(m', j).At? ensures Placed(m', j) { if j != k { assert Placed(m, j); } }
    forall i, j: nat | IsPiece(m', i) && IsPiece(m', j) && i != j ensures Current(m', i).block != Current(m', j).block {
      if i != k { assert Placed(m, i); }
      if j != k { assert Placed(m, j); }
    }
  }

  /** A thread that has a segment to publish has loaded the current table: a call that copies the table waits
      for all segments before its own. */
  lemma LoadedIsCurrent(m: Memory, c: Call, k: nat, long: bool)
    requires Tables(m) && ThreadInv(m, Busy(c, SetFirst)) && Loaded(m, c, long)
    requires c.start <= SegmentBase(k) < c.finish && !Current(m, k).At?
    ensures long == m.extended
  {
    if m.extended && !long {
      BaseBelow(k, c.finish - 1);
      hide SegmentOf, SegmentBase;
      assert SlotOf(m, false, k).At?;
      SetIsCurrent(m, false, k);
      assert false;
    }
  }

  /** To other threads nothing changes but that one more slot is set. */
  lemma StoredThread(m: Memory, m': Memory, k: nat, value: Slot, th: Thread)
    requires Tables(m) && ThreadInv(m, th) && Publishes(m, m', k, value) && !Current(m, k).At? && value.At?
    requires !m.extended && th.Busy? && Last(th.call) >= SHORT_TABLE ==> SegmentBase(k) < th.call.start
    ensures ThreadInv(m', th)
  {
    assert forall l, j: nat :: SlotOf(m, l, j).At? ==> SlotOf(m', l, j) == SlotOf(m, l, j);
    assert Current(m, k) == SlotOf(m, m.extended, k);
    assert !m.extended ==> k < SHORT_TABLE;
    assert m.extended ==> m'.short == m.short;
    assert m'.first == m.first && m'.size == m.size && m'.cut == m.cut && m'.extended == m.extended;
    hide SegmentBase, SegmentOf, Tables, SlotOf, Current;
    if th.Busy? { StoredPc(m, m', k, th.call, th.pc); }
  }

  lemma StoredPc(m: Memory, m': Memory, k: nat, c: Call, pc: Pc)
    requires PcInv(m, c, pc) && m'.first == m.first && m'.extended == m.extended
    requires !SlotOf(m, m.extended, k).At? && (m.extended ==> m'.short == m.short)
    requires !m.extended ==> k < SHORT_TABLE && (Last(c) >= SHORT_TABLE ==> SegmentBase(k) < c.start)
    requires forall j: nat :: Current(m, j).At? ==> Current(m', j).At?
    requires forall l, j: nat :: SlotOf(m, l, j).At? ==> SlotOf(m', l, j) == SlotOf(m, l, j)
    ensures PcInv(m', c, pc)
  {
    hide SegmentBase, SegmentOf, SlotOf, Current;
  }

  lemma StoredTables(m: Memory, m': Memory, k: nat, value: Slot)
    requires Tables(m) && Publishes(m, m', k, value) && !Current(m, k).At? && value.At?
    ensures Tables(m')
  {
    hide SegmentBase, Fits;
  }

  lemma StoredCover(m: Memory, m': Memory, k: nat, value: Slot, threads: seq<Thread>, t: nat, th: Thread)
    requires Cover(m, threads) && t < |threads| && Publishes(m, m', k, value) && value.At? && SegmentBase(k) < m.size
    requires forall u :: 0 <= u < |threads| && u != t ==> !Pending(threads[u], k)
    requires forall j: nat :: Pending(th, j) <==> Pending(threads[t], j) && j != k
    ensures Cover(m', threads[t := th])
  {
    hide SegmentBase, Pending, Current;
    var threads' := threads[t := th];
    forall j: nat | SegmentBase(j) < m'.size && !Current(m', j).At? ensures SomePending(threads', j) {
      assert SomePending(threads, j);
      var u :| 0 <= u < |threads| && Pending(threads[u], j);
      assert Pending(threads'[u], j);
    }
  }

  lemma OtherStored(m: Memory, m': Memory, k: nat, value: Slot, c: Call, other: Thread)
    requires Tables(m) && ThreadInv(m, other) && Publishes(m, m', k, value) && !Current(m, k).At? && value.At?
    requires c.start <= SegmentBase(k) < c.finish
    requires other.Busy? ==> c.finish <= other.call.start || other.call.finish <= c.start
    ensures !Pending(other, k) && ThreadInv(m', other)
  {
    if other.Busy? && !m.extended && Last(other.call) >= SHORT_TABLE {
      BaseBelow(SHORT_TABLE, other.call.finish - 1);
      BaseStrict(k, SHORT_TABLE);
    }
    hide SegmentBase, SegmentOf, Pow2, Current, SlotOf, Tables, PcInv;
    StoredThread(m, m', k, value, other);
  }

  lemma OthersStored(s: State, m': Memory, t: nat, k: nat, value: Slot)
    requires Inv(s) && t < |s.threads| && Owns(s.threads[t], k)
    requires Publishes(s.m, m', k, value) && !Current(s.m, k).At? && value.At?
    ensures forall u :: 0 <= u < |s.threads| && u != t ==> !Pending(s.threads[u], k) && ThreadInv(m', s.threads[u])
  {
    hide SegmentBase, SegmentOf, Pow2, Tables, Layout, Tiled, ThreadInv, Pending, Cover, Current, Publishes;
    forall u | 0 <= u < |s.threads| && u != t ensures !Pending(s.threads[u], k) && ThreadInv(m', s.threads[u]) {
      assert Disjoint(s.threads[u], s.threads[t]) || Disjoint(s.threads[t], s.threads[u]);
      OtherStored(s.m, m', k, value, s.threads[t].call, s.threads[u]);
    }
  }

  lemma PendingAfter(c: Call, pc: Pc)
    requires pc.EnableShared? || pc.EnableOwn?
    ensures forall j: nat :: Pending(Busy(c, CheckSlot(pc.w, pc.ref)), j) <==> Pending(Busy(c, pc), j) && j != Target(pc.w)
  {
  }

  /** Publishing keeps the invariant if it keeps the layout. */
  lemma StoreKeeps(s: State, s': State, t: nat, w: Work, ref: bool, value: Slot)
    requires Inv(s) && t < |s.threads| && s.threads[t].Busy?
    requires (s.threads[t].pc.EnableShared? || s.threads[t].pc.EnableOwn?) && s.threads[t].pc.w == w && s.threads[t].pc.ref == ref
    requires value.At? && Publishes(s.m, s'.m, Target(w), value) && !Current(s.m, Target(w)).At? && Layout(s'.m)
    requires s' == Goto(s, t, CheckSlot(w, ref)).(m := s'.m)
    requires Owns(s.threads[t], Target(w)) && ThreadInv(s'.m, s'.threads[t])
    ensures Inv(s')
  {
    var th, k := s.threads[t], Target(w);
    ThreadOf(s, t);
    FinishBelow(s.m, th);
    PendingAfter(th.call, th.pc);
    hide SegmentBase, SegmentOf, Pow2, Tables, Layout, Tiled, ThreadInv, Pending, Cover, Current, Target;
    StoredTables(s.m, s'.m, k, value);
    OthersStored(s, s'.m, t, k, value);
    hide Publishes, Owns;
    StoredCover(s.m, s'.m, k, value, s.threads, t, s'.threads[t]);
  }

  /** A thread that is to allocate its target has reserved its first index. */
  lemma OwnerOwns(m: Memory, c: Call, w: Work, ref: bool)
    requires EnableInv(m, c, w, ref) && c.start < c.finish
    ensures c.start <= SegmentBase(Target(w)) < c.finish && Left(w, Target(w))
  {
    hide SegmentBase, SegmentOf, Current;
    BaseBelow(Target(w), c.start);
    BaseBelow(Target(w), c.finish - 1);
  }

  /** What holds when a thread is about to publish: the slot is empty, and it is in the current table. */
  lemma BeforeStore(s: State, t: nat, w: Work, ref: bool, long: bool)
    requires Inv(s) && t < |s.threads| && s.threads[t].Busy?
    requires s.threads[t].pc == EnableShared(w, ref, long) || s.threads[t].pc == EnableOwn(w, ref, long)
    ensures Owns(s.threads[t], Target(w)) && !Current(s.m, Target(w)).At?
    ensures ref == s.m.extended && long == s.m.extended
  {
    hide SegmentBase, SegmentOf, Current, SlotOf, Layout, Tiled, Tables, WorkInv;
    ThreadOf(s, t);
    var th := s.threads[t];
    OwnerOwns(s.m, th.call, w, ref);
    assert Pending(th, Target(w));
    hide EnableInv, Cover;
    EmptySlot(s.m, s.threads, t, Target(w));
    LoadedIsCurrent(s.m, th.call, Target(w), ref);
    LoadedIsCurrent(s.m, th.call, Target(w), long);
  }

  lemma EmptySlot(m: Memory, threads: seq<Thread>, t: nat, k: nat)
    requires Cover(m, threads) && t < |threads| && Pending(threads[t], k)
    ensures !Current(m, k).At?
  {
  }

  lemma AfterStore(m: Memory, m': Memory, c: Call, pc: Pc, value: Slot)
    requires Tables(m) && ThreadInv(m, Busy(c, pc)) && (pc.EnableShared? || pc.EnableOwn?) && value.At? && pc.ref == m.extended
    requires Publishes(m, m', Target(pc.w), value) && !Current(m, Target(pc.w)).At?
    ensures ThreadInv(m', Busy(c, CheckSlot(pc.w, pc.ref)))
  {
    assert Current(m', Target(pc.w)) == SlotOf(m', m'.extended, Target(pc.w));
    hide SegmentBase, SegmentOf, Current, SlotOf, Tables, WorkInv;
    StoredThread(m, m', Target(pc.w), value, Busy(c, pc));
  }

  lemma EnableSharedKeeps(s: State, s': State, t: nat)
    requires Inv(s) && StepEnableShared(s, s', t)
    ensures Inv(s')
  {
    var th, w := s.threads[t], s.threads[t].pc.w;
    var k, value := Target(w), At(SlotOf(s.m, s.threads[t].pc.long, 0).block, SegmentBase(Target(w)));
    assert Tables(s.m) && Layout(s.m);
    ThreadOf(s, t);
    BeforeStore(s, t, w, th.pc.ref, th.pc.long);
    assert Publishes(s.m, s'.m, k, value);
    hide Inv, SegmentBase, SegmentOf, SlotOf, Tables, Layout;
    SharedLayout(s.m, s'.m, k);
    AfterStore(s.m, s'.m, th.call, th.pc, value);
    StoreKeeps(s, s', t, w, th.pc.ref, value);
  }

  lemma EnableOwnKeeps(s: State, s': State, t: nat)
    requires Inv(s) && StepEnableOwn(s, s', t)
    ensures Inv(s')
  {
    var th, w := s.threads[t], s.threads[t].pc.w;
    var k, value := Target(w), At(|s.m.blocks|, 0);
    assert Tables(s.m) && Layout(s.m);
    ThreadOf(s, t);
    BeforeStore(s, t, w, th.pc.ref, th.pc.long);
    assert Publishes(s.m, s'.m, k, value);
    hide Inv, SegmentBase, SegmentOf, SlotOf, Tables, Layout;
    OwnLayout(s.m, s'.m, k);
    AfterStore(s.m, s'.m, th.call, th.pc, value);
    StoreKeeps(s, s', t, w, th.pc.ref, value);
  }
}
