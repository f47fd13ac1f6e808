/** The main results about concurrent growth of a concurrent_vector, over all of its runs. */
module VectorGrowthTheorems {
  import opened HashPaths
  import opened Segments
  import opened VectorGrowth
  import opened VectorGrowthProof

  ghost predicate IsRun(states: seq<State>, threads: seq<nat>) {
    |states| == |threads| + 1 && Init(states[0])
    && forall i :: 0 <= i < |threads| ==> Next(states[i], states[i + 1], threads[i])
  }

  ghost predicate Reachable(s: State) {
    exists states, threads :: IsRun(states, threads) && states[|threads|] == s
  }

  lemma ProceedKeeps(s: State, s': State, t: nat)
    requires Inv(s) && Proceed(s, s', t)
    ensures Inv(s')
  {
    hide Inv, StepSetFirst, StepTestTable, StepAwaitSlot, StepCopySlots, StepSwapTable, StepLoadTable, StepAcquire,
         StepTestSlot, StepAwaitOwner, StepEnableTable, StepEnableShared, StepEnableOwn, StepCheckSlot,
         StepConstruct, StepAwaitTable, StepAwaitSegments;
    if StepSetFirst(s, s', t) { SetFirstKeeps(s, s', t); }
    else if StepTestTable(s, s', t) { TestTableKeeps(s, s', t); }
    else if StepAwaitSlot(s, s', t) { AwaitSlotKeeps(s, s', t); }
    else if StepCopySlots(s, s', t) { CopySlotsKeeps(s, s', t); }
    else if StepSwapTable(s, s', t) { SwapTableKeeps(s, s', t); }
    else if StepLoadTable(s, s', t) { LoadTableKeeps(s, s', t); }
    else if StepAcquire(s, s', t) { AcquireKeeps(s, s', t); }
    else if StepTestSlot(s, s', t) { TestSlotKeeps(s, s', t); }
    else if StepAwaitOwner(s, s', t) { AwaitOwnerKeeps(s, s', t); }
    else if StepEnableTable(s, s', t) { EnableTableKeeps(s, s', t); }
    else if StepEnableFirst(s, s', t) {
      if s.m.first == 0 { EnableFirstSets(s, s', t); } else { EnableFirstKeeps(s, s', t); }
    }
    else if StepEnableShared(s, s', t) { EnableSharedKeeps(s, s', t); }
    else if StepEnableOwn(s, s', t) { EnableOwnKeeps(s, s', t); }
    else if StepCheckSlot(s, s', t) { CheckSlotKeeps(s, s', t); }
    else if StepConstruct(s, s', t) { ConstructKeeps(s, s', t); }
    else { AwaitKeeps(s, s', t); }
  }

  lemma NextKeeps(s: State, s': State, t: nat)
    requires Inv(s) && Next(s, s', t)
    ensures Inv(s')
  {
    hide Inv, Proceed;
    if Proceed(s, s', t) {
      ProceedKeeps(s, s', t);
    } else if exists kind, finish :: Reserve(s, s', t, kind, finish) {
      var kind, finish :| Reserve(s, s', t, kind, finish);
      ReserveKeeps(s, s', t, kind, finish);
    } else {
      var n :| LongEnough(s, s', t, n);
      LongEnoughKeeps(s, s', t, n);
    }
  }

  lemma InitInv(s: State)
    requires Init(s)
    ensures Inv(s)
  {
    hide SegmentOf, Pow2, Fits;
    assert Fits(0) by { FitsZero(); }
    assert forall k: nat :: !Current(s.m, k).At?;
  }

  lemma FitsZero()
    ensures Fits(0)
  {
  }

  lemma {:induction false} RunInvariant(states: seq<State>, threads: seq<nat>, n: nat)
    requires IsRun(states, threads) && n <= |threads|
    ensures Inv(states[n])
    decreases n
  {
    hide Inv, Next;
    if n == 0 {
      InitInv(states[0]);
    } else {
      RunInvariant(states, threads, n - 1);
      NextKeeps(states[n - 1], states[n], threads[n - 1]);
    }
  }

  lemma ReachableInv(s: State)
    requires Reachable(s)
    ensures Inv(s)
  {
    hide Inv, Next;
    var states, threads :| IsRun(states, threads) && states[|threads|] == s;
    RunInvariant(states, threads, |threads|);
  }

  // ---------------------------------------------------------------- addresses

  predicate Allocated(m: Memory, index: nat) { Current(m, SegmentOf(index)).At? }

  /** Where internal_subscript finds an element. */
  function Address(m: Memory, index: nat): Slot
    requires Allocated(m, index)
  {
    var slot := Current(m, SegmentOf(index));
    At(slot.block, slot.offset + Locate(index).offset)
  }

  function PieceOf(m: Memory, index: nat): nat { if SegmentOf(index) < m.first then 0 else SegmentOf(index) }

  lemma PlacedAt(m: Memory, k: nat)
    requires Layout(m) && Current(m, k).At?
    ensures Placed(m, k)
  {
    hide Placed, Current;
  }

  /** A segment lies in its piece's block, which has as many places as the piece has elements. */
  lemma SlotInPiece(m: Memory, s: nat)
    requires Layout(m) && Current(m, s).At?
    ensures m.first > 0
    ensures var k := if s < m.first then 0 else s;
      && IsPiece(m, k) && Current(m, s) == At(Current(m, k).block, SegmentBase(s) - SegmentBase(k))
      && SegmentBase(k) <= SegmentBase(s) && Current(m, k).block < |m.blocks|
      && m.blocks[Current(m, k).block] == Pow2(if s < m.first then m.first else s)
  {
    hide Layout, Pow2, Current;
    PlacedAt(m, s);
    if 0 < s < m.first { PlacedAt(m, 0); }
  }

  /** An index lies below the end of the block of its piece. */
  lemma IndexInBlock(index: nat, first: nat)
    requires first > 0
    ensures var s := SegmentOf(index);
      SegmentBase(s) <= index && index - (if s < first then 0 else SegmentBase(s)) < Pow2(if s < first then first else s)
  {
    hide SegmentOf;
    var s := SegmentOf(index);
    SegmentBounds(index);
    if s < first { BaseMonotone(s + 1, first); }
  }

  /** An element lies in its piece, at its distance from the piece's first element. */
  lemma InPiece(m: Memory, index: nat)
    requires Layout(m) && Allocated(m, index)
    ensures var k := PieceOf(m, index);
      && IsPiece(m, k) && SegmentBase(k) <= index
      && Address(m, index) == At(Current(m, k).block, index - SegmentBase(k))
      && Current(m, k).block < |m.blocks| && index - SegmentBase(k) < m.blocks[Current(m, k).block]
  {
    hide Layout, Pow2, SegmentOf, Current;
    SlotInPiece(m, SegmentOf(index));
    IndexInBlock(index, m.first);
  }

  /** Elements lie within their block, and no two share a place: not even elements of different calls that
      grow the vector at the same time. */
  lemma DistinctPlaces(s: State, i: nat, j: nat)
    requires Reachable(s) && Allocated(s.m, i) && Allocated(s.m, j)
    ensures Address(s.m, i).block < |s.m.blocks| && Address(s.m, i).offset < s.m.blocks[Address(s.m, i).block]
    ensures i != j ==> Address(s.m, i) != Address(s.m, j)
  {
    ReachableInv(s);
    assert Layout(s.m);
    InPiece(s.m, i);
    InPiece(s.m, j);
    hide SegmentBase, SegmentOf, Inv, Placed, Current, Reachable;
  }

  /** Every block allocated is in use by exactly one piece: none is lost to a race. */
  lemma NoBlockLost(s: State, b: nat)
    requires Reachable(s) && b < |s.m.blocks|
    ensures exists k :: (&& IsPiece(s.m, k) && Current(s.m, k) == At(b, 0)
                         && forall j :: IsPiece(s.m, j) && Current(s.m, j).block == b ==> j == k)
  {
    ReachableInv(s);
    assert Layout(s.m);
    hide Inv, Current, Reachable, SegmentBase, Pow2;
    assert InUse(s.m, b);
    var k :| IsPiece(s.m, k) && Current(s.m, k).block == b;
    assert Placed(s.m, k);
  }

  // ---------------------------------------------------------------- elements never move

  lemma StepStable(s: State, s': State, t: nat, k: nat)
    requires Inv(s) && Next(s, s', t) && Current(s.m, k).At?
    ensures Current(s'.m, k) == Current(s.m, k)
  {
    hide SegmentBase, SegmentOf, Layout, Cover, Tiled, WorkInv, Proceed, Next;
    if StepEnableShared(s, s', t) || StepEnableOwn(s, s', t) {
      var pc := s.threads[t].pc;
      BeforeStore(s, t, pc.w, pc.ref, pc.long);
    } else if StepSwapTable(s, s', t) {
      assert Tables(s.m);
      ThreadOf(s, t);
      if !s.m.extended { ExtendedSame(s.m, s.threads[t].pc.copy, s.threads[t].call.start); }
    } else {
      hide Inv;
      SameTables(s, s', t);
    }
  }

  lemma SameTables(s: State, s': State, t: nat)
    requires Next(s, s', t) && !StepEnableShared(s, s', t) && !StepEnableOwn(s, s', t) && !StepSwapTable(s, s', t)
    ensures s'.m.short == s.m.short && s'.m.long == s.m.long && s'.m.extended == s.m.extended
  {
    hide StepEnableShared, StepEnableOwn, StepSwapTable, SegmentBase, SegmentOf, TableDone, Continue, Advance;
  }

  lemma {:induction false} NeverMoves(states: seq<State>, threads: seq<nat>, i: nat, j: nat, index: nat)
    requires IsRun(states, threads) && i <= j <= |threads| && Allocated(states[i].m, index)
    ensures Allocated(states[j].m, index) && Address(states[j].m, index) == Address(states[i].m, index)
    decreases j
  {
    hide Inv, Next, SegmentOf, Locate;
    if i < j {
      NeverMoves(states, threads, i, j - 1, index);
      RunInvariant(states, threads, j - 1);
      StepStable(states[j - 1], states[j], threads[j - 1], SegmentOf(index));
    }
  }

  // ---------------------------------------------------------------- what the calls get

  lemma {:induction false} EarlierEndsBefore(calls: seq<Range>, size: nat, i: nat, j: nat)
    requires Tiled(calls, size) && i < j < |calls|
    ensures calls[i].finish <= calls[j].start
    decreases j
  {
    assert Before(calls, j) == calls[j].start && Before(calls, j - 1) == calls[j - 1].start;
    if i < j - 1 { EarlierEndsBefore(calls, size, i, j - 1); }
  }

  lemma {:induction false} SomeCall(calls: seq<Range>, size: nat, n: nat, index: nat)
    requires Tiled(calls, size) && n <= |calls| && index < Before(calls, n)
    ensures exists i :: 0 <= i < n && calls[i].start <= index < calls[i].finish
    decreases n
  {
    assert Before(calls, n - 1) == calls[n - 1].start;
    if index < calls[n - 1].start { SomeCall(calls, size, n - 1, index); }
  }

  /** Every index up to the vector's size has been reserved by one call and no other. */
  lemma ReservedOnce(s: State, index: nat)
    requires Reachable(s) && index < s.m.size
    ensures exists i :: (&& 0 <= i < |s.calls| && s.calls[i].start <= index < s.calls[i].finish
                         && forall j :: 0 <= j < |s.calls| && s.calls[j].start <= index < s.calls[j].finish ==> j == i)
  {
    ReachableInv(s);
    assert Tiled(s.calls, s.m.size);
    hide Inv, Reachable;
    SomeCall(s.calls, s.m.size, |s.calls|, index);
    var i :| 0 <= i < |s.calls| && s.calls[i].start <= index < s.calls[i].finish;
    forall j | 0 <= j < |s.calls| && s.calls[j].start <= index < s.calls[j].finish ensures j == i {
      if i < j { EarlierEndsBefore(s.calls, s.m.size, i, j); }
      if j < i { EarlierEndsBefore(s.calls, s.m.size, j, i); }
    }
  }

  /** When a call constructs its elements, the slots of all of them are set in the table it has loaded, even
      if that has been replaced since, and they say what the current table says. */
  lemma ConstructsInPlace(s: State, t: nat, index: nat)
    requires Reachable(s) && t < |s.threads| && s.threads[t].Busy? && s.threads[t].pc.Construct?
    requires s.threads[t].call.start <= index < s.threads[t].call.finish
    ensures Allocated(s.m, index)
    ensures SlotOf(s.m, s.threads[t].pc.w.long, SegmentOf(index)) == Current(s.m, SegmentOf(index))
  {
    ReachableInv(s);
    ThreadOf(s, t);
    assert Tables(s.m);
    hide Inv, Reachable, ThreadInv, Tables;
    SeesSlot(s.m, s.threads[t].call, s.threads[t].pc.w, index);
  }

  lemma SeesSlot(m: Memory, c: Call, w: Work, index: nat)
    requires Tables(m) && ThreadInv(m, Busy(c, Construct(w))) && c.start <= index < c.finish
    ensures Allocated(m, index) && SlotOf(m, w.long, SegmentOf(index)) == Current(m, SegmentOf(index))
  {
    hide SegmentOf, SegmentBase, Pow2, SlotOf;
    var k := SegmentOf(index);
    BaseBelow(k, index);
    BaseBelow(k, c.finish - 1);
    BaseBelow(SegmentOf(c.start), c.start);
    BaseBelow(SegmentOf(c.start), index);
    assert Current(m, k).At?;
    if m.extended && !w.long {
      assert k < SHORT_TABLE && SegmentBase(k) < m.cut;
      SetIsCurrent(m, false, k);
    }
  }

  /** grow_to_at_least(n) returns when all elements below n are allocated, whichever calls have reserved
      them. */
  lemma ReturnsAllocated(s: State, s': State, t: nat, index: nat)
    requires Reachable(s) && StepAwaitSegments(s, s', t) && s'.threads[t] == Idle
    requires index < s.threads[t].n
    ensures Allocated(s.m, index) && Allocated(s'.m, index)
  {
    hide Inv, Reachable, Pow2, Level;
    ReachableInv(s);
    ThreadOf(s, t);
    BaseBelow(SegmentOf(index), index);
    BaseBelow(SegmentOf(index), s.threads[t].n - 1);
    hide SegmentOf, SegmentBase;
  }

  /** The indices that have to be allocated when the call returns: its own, or all below n for grow_to_at_least(n). */
  function Needs(th: Thread): Range {
    match th
    case Idle => Range(0, 0)
    case Busy(c, _) => Range(if c.kind == AtLeast then 0 else c.start, c.finish)
    case AwaitTable(n) => Range(0, n)
    case AwaitSegments(n, _) => Range(0, n)
  }

  /** What a call needs is what it has been asked for, and does not change. */
  lemma NeedsKept(s: State, s': State, t: nat, u: nat)
    requires Next(s, s', t) && u < |s.threads| && s.threads[u] != Idle && u < |s'.threads| && s'.threads[u] != Idle
    ensures Needs(s'.threads[u]) == Needs(s.threads[u])
  {
    hide SlotOf, SegmentOf, SegmentBase, Continue, Advance, TableDone, Last, Pow2, Target, Store, Extended, IsOwner, Fits, Current;
  }

  lemma NeedsAsked(s: State, s': State, t: nat, kind: Kind, n: nat)
    ensures LongEnough(s, s', t, n) ==> Needs(s'.threads[t]) == Range(0, n)
    ensures Reserve(s, s', t, kind, n) ==>
              Needs(s'.threads[t]) == Range(if kind == AtLeast then 0 else s.m.size, n) && s'.m.size == n
  {
    hide Fits;
  }

  lemma ConstructReturns(s: State, s': State, t: nat, index: nat)
    requires Reachable(s) && StepConstruct(s, s', t) && s'.threads[t] == Idle
    requires Needs(s.threads[t]).start <= index < Needs(s.threads[t]).finish
    ensures Allocated(s'.m, index)
  {
    ConstructsInPlace(s, t, index);
  }

  lemma OnlyTheseReturn(s: State, s': State, t: nat)
    requires Next(s, s', t) && t < |s.threads| && s.threads[t] != Idle && t < |s'.threads| && s'.threads[t] == Idle
    ensures StepConstruct(s, s', t) || StepAwaitSegments(s, s', t)
  {
    hide SlotOf, SegmentOf, SegmentBase, Continue, Advance, TableDone, Last, Pow2;
  }

  /** Whatever the call, when it returns the elements that it is to provide are allocated: those that it has
      added, and for grow_to_at_least(n) all below n, whichever calls have added them. */
  lemma {:induction false} GetsWhatItNeeds(states: seq<State>, threads: seq<nat>, i: nat, j: nat, t: nat, index: nat)
    requires IsRun(states, threads) && i <= j < |threads| && t < |states[i].threads|
    requires forall k :: i <= k <= j ==> t < |states[k].threads| && states[k].threads[t] != Idle
    requires t < |states[j + 1].threads| && states[j + 1].threads[t] == Idle
    requires Needs(states[i].threads[t]).start <= index < Needs(states[i].threads[t]).finish
    ensures Allocated(states[j + 1].m, index)
    decreases j - i
  {
    hide Next, SegmentOf, Reachable, Allocated, Init, Needs;
    if i < j {
      NeedsKept(states[i], states[i + 1], threads[i], t);
      GetsWhatItNeeds(states, threads, i + 1, j, t, index);
    } else {
      IsReachable(states, threads, j);
      assert Next(states[j], states[j + 1], threads[j]);
      ReturnsByItself(states[j], states[j + 1], threads[j], t);
      OnlyTheseReturn(states[j], states[j + 1], t);
      if StepConstruct(states[j], states[j + 1], t) {
        ConstructReturns(states[j], states[j + 1], t, index);
      } else {
        NeedsAll(states[j].threads[t], index);
        ReturnsAllocated(states[j], states[j + 1], t, index);
      }
    }
  }

  lemma NeedsAll(th: Thread, index: nat)
    requires Needs(th).start <= index < Needs(th).finish
    ensures th.AwaitSegments? ==> index < th.n
  {
  }

  lemma ReturnsByItself(s: State, s': State, t: nat, u: nat)
    requires Next(s, s', t) && u < |s.threads| && s.threads[u] != Idle && u < |s'.threads| && s'.threads[u] == Idle
    ensures t == u
  {
    hide SlotOf, SegmentOf, SegmentBase, Continue, Advance, TableDone, Last, Pow2;
  }

  lemma IsReachable(states: seq<State>, threads: seq<nat>, i: nat)
    requires IsRun(states, threads) && i <= |threads|
    ensures Reachable(states[i])
  {
    hide Next, Init;
    assert IsRun(states[..i + 1], threads[..i]) && states[..i + 1][|threads[..i]|] == states[i];
  }

  /** A reference that acquire_segment has taken is never into a table that has been replaced before the slot
      was set: without failing allocations the check at its end always succeeds. */
  lemma NeverFails(s: State, s': State, t: nat)
    requires Reachable(s) && Next(s, s', t)
    ensures forall u :: 0 <= u < |s'.threads| && s'.threads[u].Busy? ==> !s'.threads[u].pc.Failed?
  {
    ReachableInv(s);
    NextKeeps(s, s', t);
    hide Inv, Reachable, Next, ThreadInv;
    forall u | 0 <= u < |s'.threads| && s'.threads[u].Busy? ensures !s'.threads[u].pc.Failed? {
      ThreadOf(s', u);
      NotFailed(s'.m, s'.threads[u]);
    }
  }

  lemma NotFailed(m: Memory, th: Thread)
    requires ThreadInv(m, th) && th.Busy?
    ensures !th.pc.Failed?
  {
  }

  // ---------------------------------------------------------------- the first block

  /** The indices of every call under way are recorded, and the first block, if there is one, ends with the last
      segment that one of the calls needs. */
  ghost predicate FirstFits(s: State) {
    && (forall t :: 0 <= t < |s.threads| && s.threads[t].Busy? ==> Recorded(s.calls, s.threads[t].call))
    && (s.m.first > 0 ==> exists i :: 0 <= i < |s.calls| && EndsIn(s.calls[i], s.m.first))
  }

  ghost predicate Recorded(calls: seq<Range>, c: Call) {
    exists i :: 0 <= i < |calls| && calls[i] == Range(c.start, c.finish)
  }

  /** The last index of the call is in the last of the first n segments. */
  ghost predicate EndsIn(r: Range, n: nat) { r.finish > 0 && n > 0 && SegmentBase(n - 1) <= r.finish - 1 < SegmentBase(n) }

  lemma EndsInLast(r: Range)
    requires r.finish > 0
    ensures EndsIn(r, SegmentOf(r.finish - 1) + 1)
  {
    hide Pow2, Level;
    SegmentBounds(r.finish - 1);
    BaseBelow(SegmentOf(r.finish - 1) + 1, r.finish - 1);
  }

  /** What a step does to the calls recorded, and to my_first_block. */
  ghost predicate Records(s: State, s': State, t: nat) {
    && t < |s.threads| == |s'.threads|
    && (forall u :: 0 <= u < |s.threads| && u != t ==> s'.threads[u] == s.threads[u])
    && |s.calls| <= |s'.calls| && s'.calls[..|s.calls|] == s.calls
    && (s'.threads[t].Busy? ==> (s.threads[t].Busy? && s'.threads[t].call == s.threads[t].call)
                                || Recorded(s'.calls, s'.threads[t].call))
    && (s'.m.first == s.m.first
        || (s.m.first == 0 && s.threads[t].Busy? && s'.m.first == Last(s.threads[t].call) + 1 && s.threads[t].call.finish > 0))
  }

  lemma ReserveRecords(s: State, s': State, t: nat, kind: Kind, finish: nat)
    requires Reserve(s, s', t, kind, finish)
    ensures Records(s, s', t)
  {
    hide Fits, SegmentOf;
    assert s'.calls[..|s.calls|] == s.calls;
    var n := |s.calls|;
    assert 0 <= n < |s'.calls| && s'.calls[n] == Range(s'.threads[t].call.start, s'.threads[t].call.finish);
    assert Recorded(s'.calls, s'.threads[t].call);
  }

  lemma ProceedRecords(s: State, s': State, t: nat)
    requires Inv(s) && Proceed(s, s', t)
    ensures Records(s, s', t)
  {
    hide Inv, SegmentBase, SegmentOf, Pow2, SlotOf, Continue, Advance, TableDone;
    assert s.calls[..|s.calls|] == s.calls;
    if StepSetFirst(s, s', t) || StepEnableFirst(s, s', t) { SetterNeeds(s, t); }
  }

  /** Who sets my_first_block sets it to the segments that its own call needs. */
  lemma SetterNeeds(s: State, t: nat)
    requires Inv(s) && t < |s.threads| && s.threads[t].Busy?
    ensures s.threads[t].call.finish > 0
    ensures s.threads[t].pc.EnableFirst? && s.m.first == 0 && Target(s.threads[t].pc.w) == 0 ==> Last(s.threads[t].call) == 0
  {
    ThreadOf(s, t);
    BaseBelow(1, s.threads[t].call.start);
    hide Inv, Pow2, SegmentOf, SegmentBase;
  }

  lemma FirstFitsOn(s: State, s': State, t: nat)
    requires FirstFits(s) && Records(s, s', t)
    ensures FirstFits(s')
  {
    hide EndsIn;
    forall u | 0 <= u < |s'.threads| && s'.threads[u].Busy? ensures Recorded(s'.calls, s'.threads[u].call) {
      if u != t || (s.threads[t].Busy? && s'.threads[t].call == s.threads[t].call) {
        var i :| 0 <= i < |s.calls| && s.calls[i] == Range(s.threads[u].call.start, s.threads[u].call.finish);
        assert s'.calls[i] == s'.calls[..|s.calls|][i];
      }
    }
    if s'.m.first > 0 {
      if s'.m.first == s.m.first {
        var i :| 0 <= i < |s.calls| && EndsIn(s.calls[i], s.m.first);
        assert s'.calls[i] == s'.calls[..|s.calls|][i];
      } else {
        var c := s.threads[t].call;
        assert Recorded(s.calls, c);
        var i :| 0 <= i < |s.calls| && s.calls[i] == Range(c.start, c.finish);
        assert s'.calls[i] == s'.calls[..|s.calls|][i];
        EndsInLast(s.calls[i]);
      }
    }
  }

  lemma {:induction false} FirstFitsAlong(states: seq<State>, threads: seq<nat>, n: nat)
    requires IsRun(states, threads) && n <= |threads|
    ensures FirstFits(states[n])
    decreases n
  {
    hide Inv, Proceed, Records, FirstFits, Init;
    if n == 0 {
      FirstFitsInit(states[0]);
    } else {
      var s, s', t := states[n - 1], states[n], threads[n - 1];
      FirstFitsAlong(states, threads, n - 1);
      RunInvariant(states, threads, n - 1);
      if Proceed(s, s', t) {
        ProceedRecords(s, s', t);
      } else if exists kind, finish :: Reserve(s, s', t, kind, finish) {
        var kind, finish :| Reserve(s, s', t, kind, finish);
        ReserveRecords(s, s', t, kind, finish);
      } else {
        LongEnoughRecords(s, s', t);
      }
      FirstFitsOn(s, s', t);
    }
  }

  lemma FirstFitsInit(s: State)
    requires Init(s)
    ensures FirstFits(s)
  {
  }

  lemma LongEnoughRecords(s: State, s': State, t: nat)
    requires exists n :: LongEnough(s, s', t, n)
    ensures Records(s, s', t)
  {
  }

  /** The first block is as large as one of the calls needs it to be, and no larger: its last segment is the last
      one that this call needs.  It is set once. */
  lemma FirstBlockFits(states: seq<State>, threads: seq<nat>, n: nat)
    requires IsRun(states, threads) && n <= |threads| && states[n].m.first > 0
    ensures var s := states[n];
      exists i :: (&& 0 <= i < |s.calls| && s.calls[i].finish > 0
                   && SegmentBase(s.m.first - 1) <= s.calls[i].finish - 1 < SegmentBase(s.m.first))
    ensures n < |threads| ==> states[n + 1].m.first == states[n].m.first
  {
    FirstFitsAlong(states, threads, n);
    hide SegmentBase, Inv, Next, Proceed;
    assert FirstFits(states[n]);
    var i :| 0 <= i < |states[n].calls| && EndsIn(states[n].calls[i], states[n].m.first);
    if n < |threads| {
      assert Next(states[n], states[n + 1], threads[n]);
      RunInvariant(states, threads, n);
      FirstStays(states[n], states[n + 1], threads[n]);
    }
  }

  lemma FirstStays(s: State, s': State, t: nat)
    requires Inv(s) && Next(s, s', t) && s.m.first > 0
    ensures s'.m.first == s.m.first
  {
    hide Inv, Proceed;
    if Proceed(s, s', t) { ProceedRecords(s, s', t); }
  }

  // ---------------------------------------------------------------- no deadlock

  ghost predicate CanProceed(s: State, t: nat) { exists s' :: Proceed(s, s', t) }

  ghost predicate Earliest(s: State, t: nat) {
    t < |s.threads| && s.threads[t].Busy?
    && forall u :: 0 <= u < |s.threads| && s.threads[u].Busy? ==> s.threads[t].call.start <= s.threads[u].call.start
  }

  lemma {:induction false} SomeEarliest(threads: seq<Thread>, n: nat) returns (t: nat)
    requires n <= |threads| && exists u :: 0 <= u < n && threads[u].Busy?
    ensures t < n && threads[t].Busy?
    ensures forall u :: 0 <= u < n && threads[u].Busy? ==> threads[t].call.start <= threads[u].call.start
  {
    if exists u :: 0 <= u < n - 1 && threads[u].Busy? {
      t := SomeEarliest(threads, n - 1);
      if threads[n - 1].Busy? && threads[n - 1].call.start < threads[t].call.start { t := n - 1; }
    } else {
      t := n - 1;
    }
  }

  /** The call whose indices come first waits for nobody: the segments before its own are published. */
  lemma EarlierPublished(s: State, t: nat, k: nat)
    requires Inv(s) && Earliest(s, t) && SegmentBase(k) < s.threads[t].call.start
    ensures Current(s.m, k).At?
  {
    ThreadOf(s, t);
    FinishBelow(s.m, s.threads[t]);
    assert Cover(s.m, s.threads);
    forall u | 0 <= u < |s.threads| ensures !Pending(s.threads[u], k) { assert Earliest(s, t); }
  }

  /** What a thread that cannot go on waits for. */
  ghost predicate Waits(s: State, th: Thread)
    requires th.Busy?
  {
    match th.pc
    case AwaitSlot(i) => !s.m.extended && SegmentBase(i) < th.call.start && SegmentBase(i) < Pow2(SHORT_TABLE)
                         && !SlotOf(s.m, false, i).At?
    case AwaitOwner(w, ref) => !SlotOf(s.m, ref, Target(w)).At?
    case EnableFirst(w, _, _) => Target(w) > 0 && s.m.first == 0
    case EnableShared(w, _, long) => !(SlotOf(s.m, long, 0).At? && Target(w) < |if long then s.m.long else s.m.short|)
    case EnableOwn(w, _, long) => !(Target(w) < |if long then s.m.long else s.m.short|)
    case Failed => true
    case _ => false
  }

  lemma EnabledOrWaits(s: State, t: nat) returns (s': State)
    requires t < |s.threads| && s.threads[t].Busy? && !Waits(s, s.threads[t])
    ensures Proceed(s, s', t)
  {
    var th, c := s.threads[t], s.threads[t].call;
    match th.pc
    case SetFirst => s' := Goto(s, t, TestTable).(m := s.m.(first := if s.m.first == 0 then Last(c) + 1 else s.m.first));
      assert StepSetFirst(s, s', t);
    case TestTable => s' := Goto(s, t, if Last(c) >= SHORT_TABLE && !s.m.extended then AwaitSlot(0) else TableDone(c));
      assert StepTestTable(s, s', t);
    case AwaitSlot(i) =>
      s' := Goto(s, t, if s.m.extended then TableDone(c)
                       else if SegmentBase(i) < c.start && SegmentBase(i) < Pow2(SHORT_TABLE) then AwaitSlot(i + 1)
                       else CopySlots([]));
      assert StepAwaitSlot(s, s', t);
    case CopySlots(copy) =>
      s' := Goto(s, t, if |copy| < SHORT_TABLE then CopySlots(copy + [SlotOf(s.m, false, |copy|)]) else SwapTable(copy));
      assert StepCopySlots(s, s', t);
    case SwapTable(copy) =>
      s' := if s.m.extended then Goto(s, t, TableDone(c)) else Goto(s, t, TableDone(c)).(m := Extended(s.m, copy, c.start));
      assert StepSwapTable(s, s', t);
    case LoadTable => s' := Goto(s, t, Continue(Work(s.m.extended, s.m.first, SegmentOf(c.start), Last(c), true)));
      assert StepLoadTable(s, s', t);
    case Acquire(w) =>
      s' := Goto(s, t, TestSlot(w, s.m.extended));
      assert StepAcquire(s, s', t);
    case TestSlot(w, ref) =>
      s' := Goto(s, t, if SlotOf(s.m, ref, Target(w)).At? then CheckSlot(w, ref)
                       else if IsOwner(w, c.start) then EnableTable(w, ref) else AwaitOwner(w, ref));
      assert StepTestSlot(s, s', t);
    case AwaitOwner(w, ref) => s' := Goto(s, t, CheckSlot(w, ref));
      assert StepAwaitOwner(s, s', t);
    case EnableTable(w, ref) => s' := Goto(s, t, EnableFirst(w, ref, s.m.extended));
      assert StepEnableTable(s, s', t);
    case EnableFirst(w, ref, long) =>
      s' := if Target(w) == 0
            then Goto(s, t, EnableOwn(w, ref, long)).(m := s.m.(first := if s.m.first == 0 then 1 else s.m.first))
            else Goto(s, t, if Target(w) < s.m.first then EnableShared(w, ref, long) else EnableOwn(w, ref, long));
      assert StepEnableFirst(s, s', t);
    case EnableShared(w, ref, long) =>
      s' := Goto(s, t, CheckSlot(w, ref))
            .(m := Store(s.m, long, Target(w), At(SlotOf(s.m, long, 0).block, SegmentBase(Target(w)))));
      assert StepEnableShared(s, s', t);
    case EnableOwn(w, ref, long) =>
      s' := Goto(s, t, CheckSlot(w, ref))
            .(m := Store(s.m, long, Target(w), At(|s.m.blocks|, 0))
                   .(blocks := s.m.blocks + [Pow2(if Target(w) == 0 then s.m.first else Target(w))]));
      assert StepEnableOwn(s, s', t);
    case CheckSlot(w, ref) =>
      s' := Goto(s, t, if SlotOf(s.m, ref, Target(w)).At? then Advance(if c.kind == Push then w.(long := ref) else w)
                       else Failed);
      assert StepCheckSlot(s, s', t);
    case Construct(w) => s' := Become(s, t, if c.kind == AtLeast then AwaitTable(c.finish) else Idle);
      assert StepConstruct(s, s', t);
  }

  /** The segment of index 0 is set, or it is the earliest call that has to set it. */
  lemma FirstIsEarliest(s: State, t: nat)
    requires Inv(s) && Earliest(s, t) && !Current(s.m, 0).At?
    ensures Pending(s.threads[t], 0)
  {
    ThreadOf(s, t);
    FinishBelow(s.m, s.threads[t]);
    assert SomePending(s.threads, 0);
    var u :| 0 <= u < |s.threads| && Pending(s.threads[u], 0);
    ThreadOf(s, u);
    assert Disjoint(s.threads[t], s.threads[u]) || Disjoint(s.threads[u], s.threads[t]) || t == u;
  }

  lemma TargetInTable(s: State, t: nat, w: Work, ref: bool, long: bool)
    requires Inv(s) && t < |s.threads| && s.threads[t].Busy?
    requires s.threads[t].pc == EnableShared(w, ref, long) || s.threads[t].pc == EnableOwn(w, ref, long)
    ensures Target(w) < |if long then s.m.long else s.m.short|
  {
    hide Pow2, Level, Current, SlotOf, Layout, Cover, Tiled;
    ThreadOf(s, t);
    BeforeStore(s, t, w, ref, long);
    assert Tables(s.m);
    BaseBelow(LONG_TABLE, s.threads[t].call.finish - 1);
  }

  lemma AwaitedSlotSet(s: State, t: nat, i: nat)
    requires Inv(s) && Earliest(s, t) && s.threads[t].pc == AwaitSlot(i)
    ensures !Waits(s, s.threads[t])
  {
    if SegmentBase(i) < s.threads[t].call.start { EarlierPublished(s, t, i); }
    hide Inv, Earliest, SegmentBase, Pow2;
  }

  lemma AwaitedOwnerDone(s: State, t: nat, w: Work, ref: bool)
    requires Inv(s) && Earliest(s, t) && s.threads[t].pc == AwaitOwner(w, ref)
    ensures !Waits(s, s.threads[t])
  {
    ThreadOf(s, t);
    assert Tables(s.m);
    EarlierPublished(s, t, Target(w));
    hide Inv, Earliest, SegmentBase, Pow2, SegmentOf;
  }

  lemma FirstBlockKnown(s: State, t: nat, w: Work, ref: bool, long: bool)
    requires Inv(s) && Earliest(s, t) && s.threads[t].pc == EnableFirst(w, ref, long)
    ensures !Waits(s, s.threads[t])
  {
    ThreadOf(s, t);
    assert Current(s.m, 0).At? ==> Placed(s.m, 0);
    if s.m.first == 0 {
      FirstIsEarliest(s, t);
      hide Inv, Earliest, Pow2;
      assert s.threads[t].call.start == 0;
      assert s.threads[t].call.kind == Push ==> Last(s.threads[t].call) == 0;
    }
  }

  lemma SharedBlockKnown(s: State, t: nat, w: Work, ref: bool, long: bool)
    requires Inv(s) && Earliest(s, t) && s.threads[t].pc == EnableShared(w, ref, long)
    ensures !Waits(s, s.threads[t])
  {
    ThreadOf(s, t);
    TargetInTable(s, t, w, ref, long);
    BeforeStore(s, t, w, ref, long);
    if !Current(s.m, 0).At? { FirstIsEarliest(s, t); }
    hide Inv, Earliest, Pow2, SegmentOf, SegmentBase;
  }

  lemma EarliestProceeds(s: State, t: nat)
    requires Inv(s) && Earliest(s, t)
    ensures CanProceed(s, t)
  {
    hide Inv, Proceed, SegmentBase, SegmentOf, Pow2;
    ThreadOf(s, t);
    assert !Waits(s, s.threads[t]) by {
      match s.threads[t].pc
      case AwaitSlot(i) => AwaitedSlotSet(s, t, i);
      case AwaitOwner(w, ref) => AwaitedOwnerDone(s, t, w, ref);
      case EnableFirst(w, ref, long) => FirstBlockKnown(s, t, w, ref, long);
      case EnableShared(w, ref, long) => SharedBlockKnown(s, t, w, ref, long);
      case EnableOwn(w, ref, long) => TargetInTable(s, t, w, ref, long);
      case _ => NotFailed(s.m, s.threads[t]);
    }
    hide Waits, ThreadInv;
    var s' := EnabledOrWaits(s, t);
  }

  /** When no call is growing the vector, all segments of reserved indices are published. */
  lemma QuietMeansPublished(s: State, k: nat)
    requires Inv(s) && SegmentBase(k) < s.m.size && forall u :: 0 <= u < |s.threads| ==> !s.threads[u].Busy?
    ensures Current(s.m, k).At?
  {
    forall u | 0 <= u < |s.threads| ensures !Pending(s.threads[u], k) { assert !Owns(s.threads[u], k); }
  }

  lemma WaitersProceed(s: State, t: nat)
    requires Inv(s) && forall u :: 0 <= u < |s.threads| ==> !s.threads[u].Busy?
    requires t < |s.threads| && s.threads[t] != Idle
    ensures CanProceed(s, t)
  {
    ThreadOf(s, t);
    var n := s.threads[t].n;
    if s.threads[t].AwaitTable? {
      BaseBelow(SHORT_TABLE, n - 1);
      if SegmentOf(n - 1) >= SHORT_TABLE { QuietMeansPublished(s, SHORT_TABLE); }
      hide SegmentBase, SegmentOf;
      assert StepAwaitTable(s, Become(s, t, AwaitSegments(n, 0)), t);
      assert Proceed(s, Become(s, t, AwaitSegments(n, 0)), t);
    } else {
      var i := s.threads[t].i;
      BaseBelow(i, n - 1);
      if i <= SegmentOf(n - 1) { QuietMeansPublished(s, i); }
      hide SegmentBase, SegmentOf, Inv;
      var s' := Become(s, t, if i <= SegmentOf(n - 1) then AwaitSegments(n, i + 1) else Idle);
      assert StepAwaitSegments(s, s', t);
      assert Proceed(s, s', t);
    }
  }

  /** While calls are under way, one of them can take a step: the spinning is never in a circle. */
  lemma NoDeadlock(s: State)
    requires Reachable(s) && exists t :: 0 <= t < |s.threads| && s.threads[t] != Idle
    ensures exists t :: 0 <= t < |s.threads| && CanProceed(s, t)
  {
    ReachableInv(s);
    hide Inv, Reachable, CanProceed;
    if exists u :: 0 <= u < |s.threads| && s.threads[u].Busy? {
      var t := SomeEarliest(s.threads, |s.threads|);
      EarliestProceeds(s, t);
    } else {
      var t :| 0 <= t < |s.threads| && s.threads[t] != Idle;
      WaitersProceed(s, t);
    }
  }
}
