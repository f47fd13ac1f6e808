/** Concurrent growth of concurrent_vector.  Calls reserve indices with one atomic operation, and each segment
    is allocated by the call that has reserved the segment's first index.  Every access to shared memory is one
    step; steps of different threads interleave freely.  The table of segments is first short and within the
    vector; the first call that needs more copies it to a long one. */
module VectorGrowth {
  import opened HashPaths
  import opened Segments

  /** A slot of a segment table: not used, or a place in an allocated block. */
  datatype Slot = NotUsed | At(block: nat, offset: nat)

  /** push_back, grow_by, and grow_to_at_least when it has work to do. */
  datatype Kind = Push | Grow | AtLeast

  /** What a call does once it has its table: segments lo..hi are yet to be acquired, first downwards from hi
      if `high`, then upwards from lo.  `long` is which table it has loaded and `first` the number of segments in the
      shared block, both for the loop that constructs the elements. */
  datatype Work = Work(long: bool, first: nat, lo: nat, hi: nat, high: bool)

  /** In `ref` and `long` a thread keeps which table a reference or a pointer is into. */
  datatype Pc =
    | SetFirst                                     // grow_by: about to swap my_first_block from 0
    | TestTable                                    // about to look whether the table is too short
    | AwaitSlot(i: nat)                            // waits for slot i of the short table before it is copied
    | CopySlots(copy: seq<Slot>)                   // about to copy the next slot
    | SwapTable(copy: seq<Slot>)                   // about to swap in the long table
    | LoadTable                                    // about to load my_segment for the loop over elements
    | Acquire(w: Work)                             // about to load my_segment for its target
    | TestSlot(w: Work, ref: bool)                 // about to look at its target's slot
    | AwaitOwner(w: Work, ref: bool)               // waits for another call to allocate its target
    | EnableTable(w: Work, ref: bool)              // owner: about to load my_segment
    | EnableFirst(w: Work, ref: bool, long: bool)  // owner: sets or waits for my_first_block
    | EnableShared(w: Work, ref: bool, long: bool) // waits for slot 0, whose block it shares, and publishes
    | EnableOwn(w: Work, ref: bool, long: bool)    // allocates a block and publishes it
    | CheckSlot(w: Work, ref: bool)                // about to check that the slot is allocated
    | Construct(w: Work)                           // constructs the elements and returns
    | Failed                                       // eid_bad_last_alloc

  /** A call that has reserved the indices [start, finish). */
  datatype Call = Call(kind: Kind, start: nat, finish: nat)

  datatype Thread =
    | Idle
    | Busy(call: Call, pc: Pc)
    | AwaitTable(n: nat)                           // grow_to_at_least waits for the table to be long enough
    | AwaitSegments(n: nat, i: nat)                // and for segments i and up

  /** The indices [start, finish) that a call has reserved. */
  datatype Range = Range(start: nat, finish: nat)

  /** What the threads share.  `blocks` are the sizes of the blocks allocated so far.  `cut`, only for the proof,
      is the first index of the call that has copied the table, or 8 if that is less. */
  datatype Memory = Memory(size: nat, first: nat, short: seq<Slot>, long: seq<Slot>, extended: bool, blocks: seq<nat>,
                           cut: nat)

  /** `calls` are the ranges reserved so far, in order. */
  datatype State = State(m: Memory, threads: seq<Thread>, calls: seq<Range>)

  function SlotOf(m: Memory, long: bool, k: nat): Slot {
    var table := if long then m.long else m.short;
    if k < |table| then table[k] else NotUsed
  }

  /** my_segment[k] */
  function Current(m: Memory, k: nat): Slot { SlotOf(m, m.extended, k) }

  function Store(m: Memory, long: bool, k: nat, value: Slot): Memory
    requires k < |if long then m.long else m.short|
  {
    if long then m.(long := m.long[k := value]) else m.(short := m.short[k := value])
  }

  function Target(w: Work): nat { if w.high then w.hi else w.lo }

  /** The heads of the two loops of internal_grow. */
  function Continue(w: Work): Pc {
    var v := if w.high && !(w.hi > w.lo && w.hi >= w.first) then w.(high := false) else w;
    if !v.high && v.lo > v.hi then Construct(v) else Acquire(v)
  }

  function Advance(w: Work): Pc {
    if w.high && w.hi > 0 then Continue(w.(hi := w.hi - 1)) else Continue(w.(lo := w.lo + 1))
  }

  /** The thread acquires its target as the one that has to allocate it. */
  predicate IsOwner(w: Work, start: nat) { w.high || SegmentBase(w.lo) >= start }

  /** The last segment that a call needs. */
  function Last(c: Call): nat { if c.finish == 0 then 0 else SegmentOf(c.finish - 1) }

  // ---------------------------------------------------------------- steps

  function Goto(s: State, t: nat, pc: Pc): State
    requires t < |s.threads| && s.threads[t].Busy?
  {
    s.(threads := s.threads[t := s.threads[t].(pc := pc)])
  }

  function Become(s: State, t: nat, th: Thread): State
    requires t < |s.threads|
  {
    s.(threads := s.threads[t := th])
  }

  /** The indices fit into a word. */
  predicate Fits(n: nat) { n <= Pow2(LONG_TABLE) }

  /** push_back and grow_by add to my_early_size; grow_to_at_least swaps it if it is too small. */
  ghost predicate Reserve(s: State, s': State, t: nat, kind: Kind, finish: nat) {
    t < |s.threads| && s.threads[t] == Idle && s.m.size < finish && Fits(finish) && (kind == Push ==> finish == s.m.size + 1)
    && s' == Become(s, t, Busy(Call(kind, s.m.size, finish), if kind == Push then TestTable else SetFirst))
             .(m := s.m.(size := finish), calls := s.calls + [Range(s.m.size, finish)])
  }

  /** grow_to_at_least finds the vector long enough. */
  ghost predicate LongEnough(s: State, s': State, t: nat, n: nat) {
    t < |s.threads| && s.threads[t] == Idle && 0 < n <= s.m.size && s' == Become(s, t, AwaitTable(n))
  }

  ghost predicate StepSetFirst(s: State, s': State, t: nat) {
    t < |s.threads| && s.threads[t].Busy? && s.threads[t].pc == SetFirst
    && s' == Goto(s, t, TestTable).(m := s.m.(first := if s.m.first == 0 then Last(s.threads[t].call) + 1 else s.m.first))
  }

  function TableDone(c: Call): Pc {
    if c.kind == Push then Continue(Work(false, 0, Last(c), Last(c), false)) else LoadTable
  }

  /** extend_table_if_necessary */
  ghost predicate StepTestTable(s: State, s': State, t: nat) {
    t < |s.threads| && s.threads[t].Busy? && s.threads[t].pc == TestTable
    && var c := s.threads[t].call;
       s' == Goto(s, t, if Last(c) >= SHORT_TABLE && !s.m.extended then AwaitSlot(0) else TableDone(c))
  }

  /** The loop of extend_segment_table: waits for a slot, unless the table has been extended meanwhile. */
  ghost predicate StepAwaitSlot(s: State, s': State, t: nat) {
    t < |s.threads| && s.threads[t].Busy? && s.threads[t].pc.AwaitSlot?
    && var c, i := s.threads[t].call, s.threads[t].pc.i;
       if s.m.extended then s' == Goto(s, t, TableDone(c))
       else if SegmentBase(i) < c.start && SegmentBase(i) < Pow2(SHORT_TABLE) then
         SlotOf(s.m, false, i).At? && s' == Goto(s, t, AwaitSlot(i + 1))
       else s' == Goto(s, t, CopySlots([]))
  }

  ghost predicate StepCopySlots(s: State, s': State, t: nat) {
    t < |s.threads| && s.threads[t].Busy? && s.threads[t].pc.CopySlots?
    && var copy := s.threads[t].pc.copy;
       s' == Goto(s, t, if |copy| < SHORT_TABLE then CopySlots(copy + [SlotOf(s.m, false, |copy|)]) else SwapTable(copy))
  }

  function Extended(m: Memory, copy: seq<Slot>, start: nat): Memory {
    m.(extended := true, long := copy + seq(LONG_TABLE - SHORT_TABLE, _ => NotUsed),
       cut := if start < Pow2(SHORT_TABLE) then start else Pow2(SHORT_TABLE))
  }

  ghost predicate StepSwapTable(s: State, s': State, t: nat) {
    t < |s.threads| && s.threads[t].Busy? && s.threads[t].pc.SwapTable?
    && var c, copy := s.threads[t].call, s.threads[t].pc.copy;
       s' == if s.m.extended then Goto(s, t, TableDone(c))
             else Goto(s, t, TableDone(c)).(m := Extended(s.m, copy, c.start))
  }

  ghost predicate StepLoadTable(s: State, s': State, t: nat) {
    t < |s.threads| && s.threads[t].Busy? && s.threads[t].pc == LoadTable
    && var c := s.threads[t].call;
       s' == Goto(s, t, Continue(Work(s.m.extended, s.m.first, SegmentOf(c.start), Last(c), true)))
  }

  /** acquire_segment */
  ghost predicate StepAcquire(s: State, s': State, t: nat) {
    t < |s.threads| && s.threads[t].Busy? && s.threads[t].pc.Acquire?
    && s' == Goto(s, t, TestSlot(s.threads[t].pc.w, s.m.extended))
  }

  ghost predicate StepTestSlot(s: State, s': State, t: nat) {
    t < |s.threads| && s.threads[t].Busy? && s.threads[t].pc.TestSlot?
    && var c, w, ref := s.threads[t].call, s.threads[t].pc.w, s.threads[t].pc.ref;
       s' == Goto(s, t, if SlotOf(s.m, ref, Target(w)).At? then CheckSlot(w, ref)
                        else if IsOwner(w, c.start) then EnableTable(w, ref) else AwaitOwner(w, ref))
  }

  ghost predicate StepAwaitOwner(s: State, s': State, t: nat) {
    t < |s.threads| && s.threads[t].Busy? && s.threads[t].pc.AwaitOwner?
    && var w, ref := s.threads[t].pc.w, s.threads[t].pc.ref;
       SlotOf(s.m, ref, Target(w)).At? && s' == Goto(s, t, CheckSlot(w, ref))
  }

  /** enable_segment */
  ghost predicate StepEnableTable(s: State, s': State, t: nat) {
    t < |s.threads| && s.threads[t].Busy? && s.threads[t].pc.EnableTable?
    && var w, ref := s.threads[t].pc.w, s.threads[t].pc.ref;
       s' == Goto(s, t, EnableFirst(w, ref, s.m.extended))
  }

  ghost predicate StepEnableFirst(s: State, s': State, t: nat) {
    t < |s.threads| && s.threads[t].Busy? && s.threads[t].pc.EnableFirst?
    && var w, ref, long := s.threads[t].pc.w, s.threads[t].pc.ref, s.threads[t].pc.long;
       if Target(w) == 0 then
         s' == Goto(s, t, EnableOwn(w, ref, long)).(m := s.m.(first := if s.m.first == 0 then 1 else s.m.first))
       else
         s.m.first != 0
         && s' == Goto(s, t, if Target(w) < s.m.first then EnableShared(w, ref, long) else EnableOwn(w, ref, long))
  }

  ghost predicate StepEnableShared(s: State, s': State, t: nat) {
    t < |s.threads| && s.threads[t].Busy? && s.threads[t].pc.EnableShared?
    && var w, ref, long := s.threads[t].pc.w, s.threads[t].pc.ref, s.threads[t].pc.long;
       && SlotOf(s.m, long, 0).At? && Target(w) < |if long then s.m.long else s.m.short|
       && s' == Goto(s, t, CheckSlot(w, ref))
                .(m := Store(s.m, long, Target(w), At(SlotOf(s.m, long, 0).block, SegmentBase(Target(w)))))
  }

  ghost predicate StepEnableOwn(s: State, s': State, t: nat) {
    t < |s.threads| && s.threads[t].Busy? && s.threads[t].pc.EnableOwn?
    && var w, ref, long := s.threads[t].pc.w, s.threads[t].pc.ref, s.threads[t].pc.long;
       && Target(w) < |if long then s.m.long else s.m.short|
       && s' == Goto(s, t, CheckSlot(w, ref))
                .(m := Store(s.m, long, Target(w), At(|s.m.blocks|, 0))
                       .(blocks := s.m.blocks + [Pow2(if Target(w) == 0 then s.m.first else Target(w))]))
  }

  /** The end of acquire_segment.  push_back constructs its element where this slot points. */
  ghost predicate StepCheckSlot(s: State, s': State, t: nat) {
    t < |s.threads| && s.threads[t].Busy? && s.threads[t].pc.CheckSlot?
    && var c, w, ref := s.threads[t].call, s.threads[t].pc.w, s.threads[t].pc.ref;
       s' == Goto(s, t, if SlotOf(s.m, ref, Target(w)).At? then Advance(if c.kind == Push then w.(long := ref) else w)
                        else Failed)
  }

  ghost predicate StepConstruct(s: State, s': State, t: nat) {
    t < |s.threads| && s.threads[t].Busy? && s.threads[t].pc.Construct?
    && var c := s.threads[t].call;
       s' == Become(s, t, if c.kind == AtLeast then AwaitTable(c.finish) else Idle)
  }

  /** The end of internal_grow_to_at_least_with_result. */
  ghost predicate StepAwaitTable(s: State, s': State, t: nat) {
    t < |s.threads| && s.threads[t].AwaitTable? && s.threads[t].n > 0
    && var n := s.threads[t].n;
       (SegmentOf(n - 1) < SHORT_TABLE || s.m.extended) && s' == Become(s, t, AwaitSegments(n, 0))
  }

  ghost predicate StepAwaitSegments(s: State, s': State, t: nat) {
    t < |s.threads| && s.threads[t].AwaitSegments? && s.threads[t].n > 0
    && var n, i := s.threads[t].n, s.threads[t].i;
       if i <= SegmentOf(n - 1) then Current(s.m, i).At? && s' == Become(s, t, AwaitSegments(n, i + 1))
       else s' == Become(s, t, Idle)
  }

  /** A step of a call under way. */
  ghost predicate Proceed(s: State, s': State, t: nat) {
    || StepSetFirst(s, s', t) || StepTestTable(s, s', t) || StepAwaitSlot(s, s', t) || StepCopySlots(s, s', t)
    || StepSwapTable(s, s', t) || StepLoadTable(s, s', t) || StepAcquire(s, s', t) || StepTestSlot(s, s', t)
    || StepAwaitOwner(s, s', t) || StepEnableTable(s, s', t) || StepEnableFirst(s, s', t)
    || StepEnableShared(s, s', t) || StepEnableOwn(s, s', t)
    || StepCheckSlot(s, s', t) || StepConstruct(s, s', t) || StepAwaitTable(s, s', t) || StepAwaitSegments(s, s', t)
  }

  ghost predicate Next(s: State, s': State, t: nat) {
    || Proceed(s, s', t)
    || (exists kind, finish :: Reserve(s, s', t, kind, finish))
    || (exists n :: LongEnough(s, s', t, n))
  }

  ghost predicate Init(s: State) {
    && s.m == Memory(0, 0, seq(SHORT_TABLE, _ => NotUsed), [], false, [], 0) && s.calls == []
    && forall t :: 0 <= t < |s.threads| ==> s.threads[t] == Idle
  }
}
