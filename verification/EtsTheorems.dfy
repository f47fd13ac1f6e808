/** The main results about the table of enumerable_thread_specific, over all of its runs. */
module EtsTheorems {
  import opened Options
  import opened HashPaths
  import opened Pigeonhole
  import opened EtsTable
  import opened EtsProof

  datatype Move = Move(tid: Tid, event: Event)

  ghost predicate IsRun(states: seq<State>, moves: seq<Move>) {
    |states| == |moves| + 1 && Init(states[0])
    && forall i :: 0 <= i < |moves| ==> Next(states[i], states[i + 1], moves[i].tid, moves[i].event)
  }

  ghost predicate Reachable(s: State) {
    exists states, moves :: IsRun(states, moves) && states[|moves|] == s
  }

  lemma StepKeeps(s: State, s': State, t: Tid, e: Event)
    requires Inv(s) && Next(s, s', t, e)
    ensures Inv(s')
  {
    hide Inv;
    if Invoke(s, s', t, e) { InvokeKeeps(s, s', t, e); } else { WorkKeeps(s, s', t, e); }
  }

  lemma {:induction false} RunInvariant(states: seq<State>, moves: seq<Move>, n: nat)
    requires IsRun(states, moves) && n <= |moves|
    ensures Inv(states[n])
    decreases n
  {
    if n > 0 {
      hide Inv;
      RunInvariant(states, moves, n - 1);
      StepKeeps(states[n - 1], states[n], moves[n - 1].tid, moves[n - 1].event);
    }
  }

  lemma ReachableInv(s: State)
    requires Reachable(s)
    ensures Inv(s)
  {
    var states, moves :| IsRun(states, moves) && states[|moves|] == s;
    RunInvariant(states, moves, |moves|);
  }

  lemma ReachableNext(s: State, s': State, t: Tid, e: Event)
    requires Reachable(s) && Next(s, s', t, e)
    ensures Reachable(s')
  {
    var states, moves :| IsRun(states, moves) && states[|moves|] == s;
    assert IsRun(states + [s'], moves + [Move(t, e)]);
    assert (states + [s'])[|moves + [Move(t, e)]|] == s';
  }

  // ---------------------------------------------------------------- one element for each thread

  /** What a step does to its thread's element, and to the other threads. */
  ghost predicate Keeps(s: State, s': State, t: Tid, e: Event)
    requires t < |s.threads|
  {
    && |s'.threads| == |s.threads| && s'.start == s.start
    && (forall u :: 0 <= u < |s.threads| && u != t ==> s'.threads[u] == s.threads[u])
    && (s.threads[t].own.Some? ==> s'.threads[t].own == s.threads[t].own)
    && (e.Return? <==> !s.threads[t].pc.Idle? && s'.threads[t].pc.Idle?)
    && (e.Return? ==> s.threads[t].own == Some(e.elem) && e.known == s.threads[t].had)
    && s'.threads[t].had == (if s.threads[t].pc.Idle? then s.threads[t].own.Some? else s.threads[t].had)
    && (s.threads[t].own == None && s'.threads[t].own.Some? ==> !s.threads[t].had && !s'.threads[t].pc.Idle?)
  }

  lemma ThreadOf(s: State, u: Tid)
    requires Inv(s) && u < |s.threads|
    ensures ThreadOk(s, u, s.threads[u])
  {
  }

  /** No step touches other threads or changes an array's size. */
  lemma Untouched(s: State, s': State, t: Tid, e: Event)
    requires Next(s, s', t, e)
    ensures t < |s.threads| == |s'.threads| && s'.start == s.start && |s.tables| <= |s'.tables|
    ensures forall u :: 0 <= u < |s.threads| && u != t ==> s'.threads[u] == s.threads[u]
    ensures forall r :: 0 <= r < |s.tables| ==> s'.tables[r].lg == s.tables[r].lg && |s'.tables[r].slots| == |s.tables[r].slots|
  {
  }

  lemma StepDoes(s: State, s': State, t: Tid, e: Event)
    requires Inv(s) && Next(s, s', t, e)
    ensures t < |s.threads| && Keeps(s, s', t, e)
  {
    Untouched(s, s', t, e);
    if StepCheckRoot(s, s', t, e) {
      CheckRootKeeps(s, s', t, e);
    } else if StepStore(s, s', t, e) {
      StoreKeeps(s, s', t, e);
    } else {
      ThreadOf(s, t);
      hide Inv, Keeps;
      OtherDoes(s, s', t, e);
    }
  }

  lemma OtherDoes(s: State, s': State, t: Tid, e: Event)
    requires Starts(s) && t < |s.threads| && ThreadOk(s, t, s.threads[t])
    requires Next(s, s', t, e) && !StepCheckRoot(s, s', t, e) && !StepStore(s, s', t, e)
    ensures Keeps(s, s', t, e)
  {
    hide AbsentFrom, NotBefore, Fits, Passed, StepCheckRoot, StepStore, Starts, Inserting, Settled;
  }

  lemma {:induction false} OwnStays(states: seq<State>, moves: seq<Move>, t: Tid, i: nat, j: nat)
    requires IsRun(states, moves) && i <= j <= |moves| && t < |states[i].threads| && states[i].threads[t].own.Some?
    ensures |states[j].threads| == |states[i].threads| && states[j].threads[t].own == states[i].threads[t].own
    decreases j
  {
    hide Inv, Next, Init;
    if i < j {
      OwnStays(states, moves, t, i, j - 1);
      RunInvariant(states, moves, j - 1);
      StepDoes(states[j - 1], states[j], moves[j - 1].tid, moves[j - 1].event);
    }
  }

  ghost predicate Returns(moves: seq<Move>, i: nat, t: Tid) {
    i < |moves| && moves[i].tid == t && moves[i].event.Return?
  }

  /** All calls of a thread return the same element, and no other thread gets it. */
  lemma ReturnsAgree(states: seq<State>, moves: seq<Move>, i: nat, j: nat)
    requires IsRun(states, moves) && i <= j
    requires j < |moves| && Returns(moves, i, moves[i].tid) && Returns(moves, j, moves[j].tid)
    ensures moves[i].event.elem == moves[j].event.elem <==> moves[i].tid == moves[j].tid
  {
    var t, u := moves[i].tid, moves[j].tid;
    RunInvariant(states, moves, i);
    RunInvariant(states, moves, j);
    StepDoes(states[i], states[i + 1], t, moves[i].event);
    StepDoes(states[j], states[j + 1], u, moves[j].event);
    OwnStays(states, moves, t, i, j);
    assert states[j].threads[t].own == Some(moves[i].event.elem);
  }

  /** A thread between calls that has an element, or one that had it when its call began, has
      returned before. */
  lemma {:induction false} HadReturned(states: seq<State>, moves: seq<Move>, t: Tid, n: nat)
    requires IsRun(states, moves) && n <= |moves| && t < |states[n].threads|
    requires var th := states[n].threads[t]; th.own.Some? && (th.pc.Idle? || th.had)
    ensures exists i: nat :: i < n && Returns(moves, i, t)
    decreases n
  {
    hide Inv, Next;
    if n > 0 {
      RunInvariant(states, moves, n - 1);
      var m := moves[n - 1];
      StepDoes(states[n - 1], states[n], m.tid, m.event);
      if !Returns(moves, n - 1, t) { HadReturned(states, moves, t, n - 1); }
    }
  }

  lemma {:induction false} ReturnedHas(states: seq<State>, moves: seq<Move>, t: Tid, i: nat, n: nat)
    requires IsRun(states, moves) && i < n <= |moves| && Returns(moves, i, t)
    ensures t < |states[n].threads|
    ensures var th := states[n].threads[t]; th.own.Some? && (th.pc.Idle? || th.had)
    decreases n
  {
    hide Inv, Next, Init;
    var m := moves[n - 1];
    RunInvariant(states, moves, n - 1);
    StepDoes(states[n - 1], states[n], m.tid, m.event);
    if i < n - 1 {
      ReturnedHas(states, moves, t, i, n - 1);
    }
  }

  /** A call answers that the element existed exactly if an earlier call of the thread has returned. */
  lemma KnownExactly(states: seq<State>, moves: seq<Move>, t: Tid, j: nat)
    requires IsRun(states, moves) && Returns(moves, j, t)
    ensures moves[j].event.known <==> exists i: nat :: i < j && Returns(moves, i, t)
  {
    RunInvariant(states, moves, j);
    StepDoes(states[j], states[j + 1], t, moves[j].event);
    if moves[j].event.known { HadReturned(states, moves, t, j); }
    if i: nat :| i < j && Returns(moves, i, t) { ReturnedHas(states, moves, t, i, j); }
  }

  // ---------------------------------------------------------------- where a key is found again

  /** There are n arrays at least, and if the thread is inserting its key it is into one that was made no earlier than
      the last of these. */
  ghost predicate Recent(s: State, t: Tid, n: nat) {
    && t < |s.threads| && n <= |s.tables|
    && match s.threads[t].pc
       case Insert(r, _) => n <= r + 1
       case Claim(r, _) => n <= r + 1
       case Store(r, _) => n <= r + 1
       case _ => true
  }

  lemma RecentKept(s: State, s': State, u: Tid, e: Event, t: Tid, n: nat)
    requires Next(s, s', u, e) && Recent(s, t, n)
    ensures Recent(s', t, n)
  {
    hide HasSlot, GrowTo, Pow2;
    Untouched(s, s', u, e);
  }

  lemma {:induction false} RecentAlong(states: seq<State>, moves: seq<Move>, i: nat, j: nat, t: Tid, n: nat)
    requires IsRun(states, moves) && i <= j <= |moves| && Recent(states[i], t, n)
    ensures Recent(states[j], t, n)
    decreases j
  {
    hide Next, Recent, Init;
    if i < j {
      RecentAlong(states, moves, i, j - 1, t, n);
      RecentKept(states[j - 1], states[j], moves[j - 1].tid, moves[j - 1].event, t, n);
    }
  }

  /** When a call returns the thread's key is, with the element returned, in an array that was made no earlier than the
      one that was the root when the call began. */
  lemma MovedUp(states: seq<State>, moves: seq<Move>, i: nat, j: nat) returns (r: nat, k: nat)
    requires IsRun(states, moves) && i <= j < |moves| && moves[j].event.Return? && moves[j].tid < |states[i].threads|
    requires states[i].threads[moves[j].tid].pc == Idle
    ensures |states[i].tables| <= r + 1 && ElemAt(states[j + 1], r, k, moves[j].tid, moves[j].event.elem)
  {
    var s, s', t, e := states[j], states[j + 1], moves[j].tid, moves[j].event;
    RecentAlong(states, moves, i, j, t, |states[i].tables|);
    RunInvariant(states, moves, j);
    assert Next(s, s', t, e);
    r, k := ReturnPlace(s, s', t, e);
  }

  predicate ElemAt(s: State, r: nat, k: nat, t: Tid, elem: Elem) {
    KeyAt(s, r, k, t) && s.tables[r].slots[k].ptr == Some(elem)
  }

  lemma ReturnPlace(s: State, s': State, t: Tid, e: Event) returns (r: nat, k: nat)
    requires Inv(s) && Next(s, s', t, e) && e.Return? && t < |s.threads|
    ensures s.threads[t].pc == Store(r, k) || r + 1 == |s.tables|
    ensures ElemAt(s', r, k, t, e.elem)
  {
    ThreadOf(s, t);
    hide Inv;
    var pc := s.threads[t].pc;
    assert StepCheckRoot(s, s', t, e) || StepStore(s, s', t, e);
    r, k := pc.r, pc.i;
  }

  // ---------------------------------------------------------------- half-full arrays

  /** No array is ever more than half full. */
  lemma HalfFull(s: State, r: nat, list: seq<nat>)
    requires Reachable(s) && r < |s.tables|
    requires Distinct(list) && forall k :: 0 <= k < |list| ==> Taken(s, r, list[k])
    ensures |list| <= Size(s.tables[r]) / 2
  {
    ReachableInv(s);
    assert TableOk(s, r);
    var n := Size(s.tables[r]);
    var tickets := seq(|list|, k requires 0 <= k < |list| => TicketAt(s, r, 0, list[k]));
    forall k | 0 <= k < |list| ensures tickets[k] < n / 2 {
      assert SlotOk(s, r, list[k]);
    }
    forall k, l | 0 <= k < l < |list| ensures tickets[k] != tickets[l] {
      assert SlotOk(s, r, list[k]) && SlotOk(s, r, list[l]);
      assert KeyOf(s, r, list[k]) != KeyOf(s, r, list[l]);
    }
    DistinctBound(tickets, n / 2);
  }

  /** So a probe looks at no more than half the array and one slot, whatever other threads insert
      meanwhile. */
  lemma ProbesAreShort(s: State, t: Tid)
    requires Reachable(s) && t < |s.threads|
    requires s.threads[t].pc.Probe? || s.threads[t].pc.Insert? || s.threads[t].pc.Claim?
    ensures var r, i := s.threads[t].pc.r, s.threads[t].pc.i;
            r < |s.tables| && i < Size(s.tables[r]) && s.start(t, s.tables[r].lg) < Size(s.tables[r])
            && Dist(s.start(t, s.tables[r].lg), i, Size(s.tables[r])) <= Size(s.tables[r]) / 2
  {
    ReachableInv(s);
    var r := s.threads[t].pc.r;
    assert ThreadOk(s, t, s.threads[t]) && TableOk(s, r);
    RunIsShort(s, r, t, s.threads[t].pc.i);
  }

  // ---------------------------------------------------------------- every call ends

  datatype Rank = Rank(first: nat, stage: nat, left: nat)

  predicate Lower(a: Rank, b: Rank) {
    a.first < b.first || (a.first == b.first && (a.stage < b.stage || (a.stage == b.stage && a.left < b.left)))
  }

  function SlotsLeft(s: State, t: Tid, r: nat, i: nat): nat {
    if HasSlot(s, r, i) && s.start(t, s.tables[r].lg) < Size(s.tables[r])
    then Size(s.tables[r]) - Dist(s.start(t, s.tables[r].lg), i, Size(s.tables[r]))
    else 0
  }

  function LgOf(s: State, seen: Option<nat>): nat {
    if seen.Some? && seen.value < |s.tables| then s.tables[seen.value].lg + 1 else 0
  }

  /** How far a thread's call is from its end: a well-founded measure. */
  function RankOf(s: State, t: Tid): Rank
    requires t < |s.threads|
  {
    match s.threads[t].pc
    case Idle => Rank(0, 0, 0)
    case LoadRoot => Rank(1, 0, 0)
    case Probe(r, i) => Rank(0, 9 + r, SlotsLeft(s, t, r, i))
    case CheckRoot(_, _) => Rank(0, 8, 0)
    case Create => Rank(0, 7, 0)
    case Ticket => Rank(0, 6, 0)
    case LoadForGrow => Rank(0, 5, 0)
    case Install(seen, lg) => Rank(0, 4, if LgOf(s, seen) <= lg then lg - LgOf(s, seen) else 0)
    case LoadInsert => Rank(0, 3, 0)
    case Insert(r, i) => Rank(0, 2, 2 * SlotsLeft(s, t, r, i) + 1)
    case Claim(r, i) => Rank(0, 2, 2 * SlotsLeft(s, t, r, i))
    case Store(_, _) => Rank(0, 1, 0)
  }

  lemma NextSlotLeft(s: State, t: Tid, r: nat, i: nat)
    requires Inv(s) && r < |s.tables| && HasSlot(s, r, i) && Passed(s, r, t, i) && Taken(s, r, i)
    ensures SlotsLeft(s, t, r, NextSlot(i, Size(s.tables[r]))) < SlotsLeft(s, t, r, i)
  {
    assert TableOk(s, r);
    RunIsShort(s, r, t, i);
  }

  /** A failed attempt to install an array has met a root that is larger than the one seen before. */
  lemma InstallLowers(s: State, s': State, t: Tid, e: Event)
    requires Inv(s) && StepInstall(s, s', t, e)
    ensures Lower(RankOf(s', t), RankOf(s, t))
  {
    hide AbsentFrom, TableOk, TicketsOk;
    var n, th := |s.tables|, s.threads[t];
    assert ThreadOk(s, t, th);
    if th.pc.seen != RootOf(s) && th.pc.seen.Some? && th.pc.seen.value < n - 1 {
      assert s.tables[th.pc.seen.value].lg < s.tables[n - 1].lg;
    }
  }

  /** A probe that has met a taken slot has fewer slots left. */
  lemma ProbeLowers(s: State, s': State, t: Tid, e: Event)
    requires Inv(s) && (StepProbe(s, s', t, e) || StepInsert(s, s', t, e) || StepClaim(s, s', t, e))
    ensures Lower(RankOf(s', t), RankOf(s, t))
  {
    hide AbsentFrom, Somewhere, NotBefore, TableOk, TicketsOk, Fits;
    var th := s.threads[t];
    assert ThreadOk(s, t, th);
    if Taken(s, th.pc.r, th.pc.i) {
      NextSlotLeft(s, t, th.pc.r, th.pc.i);
    }
  }

  lemma OwnStepLowers(s: State, s': State, t: Tid, e: Event)
    requires Inv(s) && Works(s, s', t, e)
    ensures t < |s.threads| == |s'.threads| && Lower(RankOf(s', t), RankOf(s, t))
  {
    hide Inv;
    if StepInstall(s, s', t, e) {
      InstallLowers(s, s', t, e);
    } else if StepProbe(s, s', t, e) || StepInsert(s, s', t, e) || StepClaim(s, s', t, e) {
      ProbeLowers(s, s', t, e);
    }
  }

  lemma OtherStepKeepsRank(s: State, s': State, t: Tid, e: Event, u: Tid)
    requires Inv(s) && Next(s, s', t, e) && u < |s.threads| && u != t
    ensures |s'.threads| == |s.threads| && RankOf(s', u) == RankOf(s, u)
  {
    hide AbsentFrom, NotBefore, Fits, Passed, Settled, Next, Inv;
    assert Starts(s) by { StartsOf(s); }
    ThreadOf(s, u);
    Untouched(s, s', t, e);
  }

  lemma CanStep(s: State, t: Tid) returns (s': State, e: Event)
    requires Inv(s) && t < |s.threads| && !s.threads[t].pc.Idle?
    ensures Works(s, s', t, e)
  {
    var th := s.threads[t];
    assert ThreadOk(s, t, th);
    e := Tau;
    match th.pc {
      case LoadRoot =>
        s' := Goto(s, t, th.(pc := ProbeBelow(s, t, |s.tables|)));
        assert StepLoadRoot(s, s', t, e);
      case Probe(r, i) =>
        var key := SlotAt(s, r, i).key;
        s' := Goto(s, t, th.(pc := if key == None then ProbeBelow(s, t, r)
                                   else if key == Some(t) then CheckRoot(r, i)
                                   else Probe(r, NextSlot(i, Size(s.tables[r])))));
        assert StepProbe(s, s', t, e);
      case CheckRoot(r, i) =>
        assert TableOk(s, r) && SlotOk(s, r, i);
        var found := SlotAt(s, r, i).ptr.value;
        if r == |s.tables| - 1 {
          e := Return(found, true);
          s' := Goto(s, t, th.(pc := Idle, found := found, known := true));
        } else {
          s' := Goto(s, t, th.(pc := LoadInsert, found := found, known := true));
        }
        assert StepCheckRoot(s, s', t, e);
      case Create =>
        s' := Goto(s, t, th.(pc := Ticket, own := Some(s.created), found := s.created, known := false))
              .(created := s.created + 1);
        assert StepCreate(s, s', t, e);
      case Ticket =>
        s' := Goto(s, t, th.(pc := LoadForGrow, ticket := s.count + 1)).(count := s.count + 1);
        assert StepTicket(s, s', t, e);
      case LoadForGrow => s' := GrowRuns(s, t);
      case Install(seen, lg) => s' := InstallRuns(s, t);
      case LoadInsert =>
        var r := |s.tables| - 1;
        s' := Goto(s, t, th.(pc := Insert(r, s.start(t, s.tables[r].lg))));
        assert StepLoadInsert(s, s', t, e);
      case Insert(r, i) =>
        s' := Goto(s, t, th.(pc := if SlotAt(s, r, i).key == None then Claim(r, i)
                                   else Insert(r, NextSlot(i, Size(s.tables[r])))));
        assert StepInsert(s, s', t, e);
      case Claim(r, i) =>
        if SlotAt(s, r, i).key == None {
          s' := Goto(Put(s, r, i, SlotAt(s, r, i).(key := Some(t))), t, th.(pc := Store(r, i)));
        } else {
          s' := Goto(s, t, th.(pc := Insert(r, NextSlot(i, Size(s.tables[r])))));
        }
        assert StepClaim(s, s', t, e);
      case Store(r, i) =>
        e := Return(th.found, th.known);
        s' := Goto(Put(s, r, i, SlotAt(s, r, i).(ptr := Some(th.found))), t, th.(pc := Idle));
        assert StepStore(s, s', t, e);
    }
  }

  lemma GrowRuns(s: State, t: Tid) returns (s': State)
    requires Inv(s) && t < |s.threads| && s.threads[t].pc == LoadForGrow
    ensures StepLoadForGrow(s, s', t, Tau)
  {
    var n, th := |s.tables|, s.threads[t];
    if n == 0 {
      s' := Goto(s, t, th.(pc := Install(None, GrowTo(th.ticket, 2))));
    } else {
      assert TableOk(s, n - 1);
      s' := Goto(s, t, th.(pc :=
        if th.ticket > Size(s.tables[n - 1]) / 2 then Install(RootOf(s), GrowTo(th.ticket, s.tables[n - 1].lg))
        else LoadInsert));
    }
  }

  lemma InstallRuns(s: State, t: Tid) returns (s': State)
    requires Inv(s) && t < |s.threads| && s.threads[t].pc.Install?
    ensures StepInstall(s, s', t, Tau)
  {
    var n, th := |s.tables|, s.threads[t];
    assert ThreadOk(s, t, th);
    if th.pc.seen == RootOf(s) {
      s' := Goto(s, t, th.(pc := LoadInsert)).(tables := s.tables + [Fresh(th.pc.lg)]);
    } else {
      s' := Goto(s, t, th.(pc := if s.tables[n - 1].lg >= th.pc.lg then LoadInsert else Install(RootOf(s), th.pc.lg)));
    }
  }

  /** Wait-freedom: a thread in a call can always take a step, each of its steps brings it nearer to
      its end, and no step of another thread takes it farther away. */
  lemma WaitFree(s: State, t: Tid) returns (s': State, e: Event)
    requires Reachable(s) && t < |s.threads| && !s.threads[t].pc.Idle?
    ensures Works(s, s', t, e)
    ensures forall s1, e1 | Works(s, s1, t, e1) :: t < |s1.threads| && Lower(RankOf(s1, t), RankOf(s, t))
    ensures forall s1, u, e1 | Next(s, s1, u, e1) && u != t :: t < |s1.threads| && RankOf(s1, t) == RankOf(s, t)
  {
    hide Inv, Works, RankOf, Next;
    ReachableInv(s);
    s', e := CanStep(s, t);
    forall s1, e1 | Works(s, s1, t, e1) ensures t < |s1.threads| && Lower(RankOf(s1, t), RankOf(s, t)) {
      OwnStepLowers(s, s1, t, e1);
    }
    forall s1, u, e1 | Next(s, s1, u, e1) && u != t ensures t < |s1.threads| && RankOf(s1, t) == RankOf(s, t) {
      OtherStepKeepsRank(s, s1, u, e1, t);
    }
  }

  // ---------------------------------------------------------------- the sizes of the arrays

  /** Each array is at least twice as large as every older one. */
  lemma SizesAtLeastDouble(s: State, q: nat, r: nat)
    requires Reachable(s) && q < r < |s.tables|
    ensures 2 * Size(s.tables[q]) <= Size(s.tables[r])
  {
    ReachableInv(s);
    assert s.tables[q].lg < s.tables[r].lg;
    Pow2Monotone(s.tables[q].lg + 1, s.tables[r].lg);
  }

  /** It is just twice as large as its predecessor if and only if the ticket it was allocated for is
      no greater than the predecessor's size. */
  lemma DoublesExactly(s: State, s': State, t: Tid, e: Event)
    requires Reachable(s) && StepInstall(s, s', t, e) && s.tables != [] && |s'.tables| == |s.tables| + 1
    ensures var n := |s.tables|;
            Size(s'.tables[n]) == 2 * Size(s'.tables[n - 1]) <==> s.threads[t].ticket <= Size(s.tables[n - 1])
  {
    ReachableInv(s);
    var n, lg, c := |s.tables|, s.threads[t].pc.lg, s.threads[t].ticket;
    var p := s.tables[n - 1].lg;
    assert ThreadOk(s, t, s.threads[t]) && TableOk(s, n - 1);
    if lg == p + 1 {
    } else {
      Pow2Monotone(p + 1, lg);
      Pow2Monotone(p, lg - 2);
    }
  }

  /** The state in which the first k of n threads have just taken their tickets, in order. */
  function Crowd(n: nat, k: nat): State
    requires k <= n
  {
    State((t: Tid, lg: nat) => 0, [], k, k,
          seq(n, (i: nat) => if i < k then Thread(LoadForGrow, Some(i), i + 1, i, false, false)
                             else Thread(Idle, None, 0, 0, false, false)))
  }

  lemma {:induction false} CrowdReachable(n: nat, k: nat)
    requires k <= n
    ensures Reachable(Crowd(n, k))
    decreases k
  {
    if k == 0 {
      var moves: seq<Move> := [];
      assert IsRun([Crowd(n, 0)], moves) && [Crowd(n, 0)][|moves|] == Crowd(n, 0);
    } else {
      var t := k - 1;
      CrowdReachable(n, t);
      var s1, s2, s3 := Join(n, t);
      hide Next, Reachable, Crowd;
      ReachableNext(Crowd(n, t), s1, t, Tau);
      ReachableNext(s1, s2, t, Tau);
      ReachableNext(s2, s3, t, Tau);
      ReachableNext(s3, Crowd(n, k), t, Tau);
    }
  }

  /** Thread t joins the crowd. */
  lemma Join(n: nat, t: nat) returns (s1: State, s2: State, s3: State)
    requires t < n
    ensures Next(Crowd(n, t), s1, t, Tau) && Next(s1, s2, t, Tau) && Next(s2, s3, t, Tau) && Next(s3, Crowd(n, t + 1), t, Tau)
  {
    var s0 := Crowd(n, t);
    s1 := Goto(s0, t, Thread(LoadRoot, None, 0, 0, false, false));
    s2 := Goto(s1, t, Thread(Create, None, 0, 0, false, false));
    s3 := Goto(s2, t, Thread(Ticket, Some(t), 0, t, false, false)).(created := t + 1);
    assert Invoke(s0, s1, t, Tau) && StepLoadRoot(s1, s2, t, Tau) && StepCreate(s2, s3, t, Tau);
    assert Crowd(n, t + 1) == Goto(s3, t, Thread(LoadForGrow, Some(t), t + 1, t, false, false)).(count := t + 1);
    assert StepTicket(s3, Crowd(n, t + 1), t, Tau);
  }

  lemma FreshIsRoot(s: State, t: Tid, lg: nat) returns (s': State)
    requires Reachable(s) && t < |s.threads| && s.threads[t].pc == Install(RootOf(s), lg)
    ensures Reachable(s') && s'.tables == s.tables + [Fresh(lg)]
    ensures s'.threads == s.threads[t := s.threads[t].(pc := LoadInsert)]
  {
    s' := Goto(s, t, s.threads[t].(pc := LoadInsert)).(tables := s.tables + [Fresh(lg)]);
    assert StepInstall(s, s', t, Tau);
    ReachableNext(s, s', t, Tau);
  }

  /** Successive arrays need not double: here the second one is four times as large as the first. */
  lemma SizesMaySkip() returns (s: State)
    ensures Reachable(s) && |s.tables| == 2 && Size(s.tables[0]) == 4 && Size(s.tables[1]) == 16
  {
    CrowdReachable(5, 5);
    var s0 := Crowd(5, 5);
    assert GrowTo(1, 2) == 2 && GrowTo(5, 2) == 4 && Pow2(2) == 4 && Pow2(4) == 16;
    var s1 := Goto(s0, 0, s0.threads[0].(pc := Install(None, 2)));
    assert StepLoadForGrow(s0, s1, 0, Tau);
    ReachableNext(s0, s1, 0, Tau);
    var s2 := FreshIsRoot(s1, 0, 2);
    var s3 := Goto(s2, 4, s2.threads[4].(pc := Install(Some(0), 4)));
    assert StepLoadForGrow(s2, s3, 4, Tau);
    ReachableNext(s2, s3, 4, Tau);
    s := FreshIsRoot(s3, 4, 4);
  }

  /** The root may be null although my_count is not 0. */
  lemma RootMayLag() returns (s: State)
    ensures Reachable(s) && s.tables == [] && s.count > 0
  {
    CrowdReachable(1, 1);
    s := Crowd(1, 1);
  }

  /** The thread has a ticket and has seen to it that the root is large enough. */
  predicate PastGrowth(th: Thread) { th.ticket > 0 && !th.pc.LoadForGrow? && !th.pc.Install? }

  lemma PastStays(s: State, s': State, t: Tid, e: Event, u: Tid)
    requires Inv(s) && Next(s, s', t, e) && u < |s.threads| && PastGrowth(s.threads[u])
    ensures u < |s'.threads| && PastGrowth(s'.threads[u])
  {
    Untouched(s, s', t, e);
    if u == t {
      hide Inv, AbsentFrom, NotBefore, Fits, Passed, Settled, Inserting;
      assert Starts(s) by { StartsOf(s); }
      ThreadOf(s, u);
      PastOwn(s, s', t, e);
    }
  }

  lemma PastOwn(s: State, s': State, t: Tid, e: Event)
    requires Starts(s) && t < |s.threads| && ThreadOk(s, t, s.threads[t]) && PastGrowth(s.threads[t]) && Next(s, s', t, e)
    ensures t < |s'.threads| && PastGrowth(s'.threads[t])
  {
    hide Starts, AbsentFrom, NotBefore, Fits, Passed, Settled, Inserting, KeyAt;
  }

  lemma StartsOf(s: State)
    requires Inv(s)
    ensures Starts(s)
  {
  }

  lemma {:induction false} RootIsFor(states: seq<State>, moves: seq<Move>, n: nat)
    requires IsRun(states, moves) && n <= |moves| && states[n].tables != []
    ensures exists t :: 0 <= t < |states[n].threads| && PastGrowth(states[n].threads[t])
    decreases n
  {
    if n > 0 {
      var s, s', m := states[n - 1], states[n], moves[n - 1];
      RunInvariant(states, moves, n - 1);
      if s.tables == [] {
        assert ThreadOk(s, m.tid, s.threads[m.tid]);
        assert StepInstall(s, s', m.tid, m.event);
        assert PastGrowth(s'.threads[m.tid]);
      } else {
        RootIsFor(states, moves, n - 1);
        var u :| 0 <= u < |s.threads| && PastGrowth(s.threads[u]);
        PastStays(s, s', m.tid, m.event, u);
      }
    }
  }

  lemma {:induction false} CountMeansTicket(states: seq<State>, moves: seq<Move>, n: nat)
    requires IsRun(states, moves) && n <= |moves| && states[n].count > 0
    ensures exists t :: 0 <= t < |states[n].threads| && states[n].threads[t].ticket > 0
    decreases n
  {
    if n > 0 {
      var s, s', m := states[n - 1], states[n], moves[n - 1];
      RunInvariant(states, moves, n - 1);
      if s.count == 0 {
        assert s'.threads[m.tid].ticket > 0;
      } else {
        CountMeansTicket(states, moves, n - 1);
        var u :| 0 <= u < |s.threads| && s.threads[u].ticket > 0;
        TicketStays(s, s', m.tid, m.event, u);
      }
    }
  }

  lemma TicketStays(s: State, s': State, t: Tid, e: Event, u: Tid)
    requires Inv(s) && Next(s, s', t, e) && u < |s.threads| && s.threads[u].ticket > 0
    ensures u < |s'.threads| && s'.threads[u].ticket > 0
  {
    Untouched(s, s', t, e);
  }

  /** The root is null if and only if no thread with a ticket has passed the growth of the table. */
  lemma RootNullExactly(s: State)
    requires Reachable(s)
    ensures s.tables == [] <==> forall t :: 0 <= t < |s.threads| ==> !PastGrowth(s.threads[t])
    ensures s.count == 0 ==> s.tables == []
  {
    ReachableInv(s);
    if s.tables == [] {
      forall t | 0 <= t < |s.threads| ensures !PastGrowth(s.threads[t]) { assert ThreadOk(s, t, s.threads[t]); }
    } else {
      var states, moves :| IsRun(states, moves) && states[|moves|] == s;
      RootIsFor(states, moves, |moves|);
      var t :| 0 <= t < |s.threads| && PastGrowth(s.threads[t]);
      assert ThreadOk(s, t, s.threads[t]);
    }
  }
}
