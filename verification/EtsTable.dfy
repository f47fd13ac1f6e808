/** The table of enumerable_thread_specific: an open-addressing hash table from threads to their
    elements, which is a list of ever larger arrays.  Slots are claimed by compare-and-swap and never
    given up.  Every access to shared memory is one step; steps of different threads interleave freely.

    The arrays are numbered in the order in which they became the root, so the root is the last one
    and the `next` of an array is the one before it.  A thread is its own key. */
module EtsTable {
  import opened Options
  import opened HashPaths

  type Tid = nat
  type Elem = nat

  datatype Slot = Slot(key: Option<Tid>, ptr: Option<Elem>)
  datatype Table = Table(lg: nat, slots: seq<Slot>)

  datatype Pc =
    | Idle
    | LoadRoot                            // about to load my_root
    | Probe(r: nat, i: nat)               // about to look at slot i of array r
    | CheckRoot(r: nat, i: nat)           // found its key there: about to compare r with my_root
    | Create                              // about to create its element
    | Ticket                              // about to increment my_count
    | LoadForGrow                         // about to load my_root and compare its size with the ticket
    | Install(seen: Option<nat>, lg: nat) // about to swap in a new array as the root in place of `seen`
    | LoadInsert                          // about to load my_root to insert the key
    | Insert(r: nat, i: nat)              // about to look at slot i of array r for an empty slot
    | Claim(r: nat, i: nat)               // saw it empty: about to swap in the key
    | Store(r: nat, i: nat)               // claimed it: about to store the element

  /** `own` is the element the thread has created, and `had` whether it had one when the call began;
      `ticket` is what its increment of my_count returned, 0 before; `known` is the call's answer
      `exists`. */
  datatype Thread = Thread(pc: Pc, own: Option<Elem>, ticket: nat, found: Elem, known: bool, had: bool)

  /** start(t, lg) is the first slot for thread t in an array of size 2^lg. */
  datatype State = State(start: (Tid, nat) -> nat, tables: seq<Table>, count: nat, created: nat, threads: seq<Thread>)

  datatype Event = Tau | Return(elem: Elem, known: bool)

  // ---------------------------------------------------------------- the pure helpers

  function Size(a: Table): (n: nat)
    ensures n >= 1
  {
    Pow2(a.lg)
  }

  /** (i + 1) & mask */
  function NextSlot(i: nat, size: nat): (j: nat)
    requires i < size
    ensures j < size && j == if i + 1 < size then i + 1 else 0
  {
    (i + 1) % size
  }

  lemma DivBounds(h: nat, m: nat)
    requires m > 0
    ensures h / m * m <= h < h / m * m + m
  {
  }

  lemma DivBelow(h: nat, a: nat, b: nat)
    requires b > 0 && h < a * b
    ensures 0 <= h / b < a
  {
    assert h == (h / b) * b + h % b;
    if h / b >= a { MulMonotone(a, h / b, b); }
  }

  /** The upper lg bits of a hash code of `bits` bits are a slot number. */
  function StartOf(h: nat, lg: nat, bits: nat): (i: nat)
    requires lg <= bits && h < Pow2(bits)
    ensures i < Pow2(lg) && i * Pow2(bits - lg) <= h < i * Pow2(bits - lg) + Pow2(bits - lg)
  {
    Pow2Sum(lg, bits - lg);
    DivBelow(h, Pow2(lg), Pow2(bits - lg));
    DivBounds(h, Pow2(bits - lg));
    h / Pow2(bits - lg)
  }

  /** The smallest size, from 2^lg on, of which `c` elements fill at most half. */
  function GrowTo(c: nat, lg: nat): (s: nat)
    requires lg >= 1
    ensures s >= lg && c <= Pow2(s - 1)
    ensures s > lg ==> Pow2(s - 2) < c
    decreases c - Pow2(lg - 1)
  {
    if c > Pow2(lg - 1) then GrowTo(c, lg + 1) else lg
  }

  function Fresh(lg: nat): Table {
    Table(lg, seq(Pow2(lg), _ => Slot(None, None)))
  }

  // ---------------------------------------------------------------- steps

  function Goto(s: State, t: Tid, th: Thread): State
    requires t < |s.threads|
  {
    s.(threads := s.threads[t := th])
  }

  /** my_root */
  function RootOf(s: State): Option<nat> {
    if s.tables == [] then None else Some(|s.tables| - 1)
  }

  predicate HasSlot(s: State, r: nat, i: nat) {
    r < |s.tables| && i < |s.tables[r].slots| && |s.tables[r].slots| == Size(s.tables[r])
  }

  function SlotAt(s: State, r: nat, i: nat): Slot
    requires HasSlot(s, r, i)
  {
    s.tables[r].slots[i]
  }

  function Put(s: State, r: nat, i: nat, slot: Slot): State
    requires HasSlot(s, r, i)
  {
    s.(tables := s.tables[r := s.tables[r].(slots := s.tables[r].slots[i := slot])])
  }

  /** The loop over the arrays goes on with array number n - 1. */
  function ProbeBelow(s: State, t: Tid, n: nat): Pc
    requires n <= |s.tables|
  {
    if n == 0 then Create else Probe(n - 1, s.start(t, s.tables[n - 1].lg))
  }

  ghost predicate Invoke(s: State, s': State, t: Tid, e: Event) {
    t < |s.threads| && s.threads[t].pc == Idle && e == Tau
    && s' == Goto(s, t, s.threads[t].(pc := LoadRoot, had := s.threads[t].own.Some?))
  }

  ghost predicate StepLoadRoot(s: State, s': State, t: Tid, e: Event) {
    t < |s.threads| && s.threads[t].pc == LoadRoot && e == Tau
    && s' == Goto(s, t, s.threads[t].(pc := ProbeBelow(s, t, |s.tables|)))
  }

  ghost predicate StepProbe(s: State, s': State, t: Tid, e: Event) {
    t < |s.threads| && e == Tau
    && var th := s.threads[t];
       th.pc.Probe? && HasSlot(s, th.pc.r, th.pc.i)
       && var slot := SlotAt(s, th.pc.r, th.pc.i);
          s' == Goto(s, t, th.(pc := if slot.key == None then ProbeBelow(s, t, th.pc.r)
                                     else if slot.key == Some(t) then CheckRoot(th.pc.r, th.pc.i)
                                     else Probe(th.pc.r, NextSlot(th.pc.i, Size(s.tables[th.pc.r])))))
  }

  /** In the root the search has succeeded; an element found in an older array moves to the root. */
  ghost predicate StepCheckRoot(s: State, s': State, t: Tid, e: Event) {
    t < |s.threads|
    && var th := s.threads[t];
       th.pc.CheckRoot? && HasSlot(s, th.pc.r, th.pc.i) && SlotAt(s, th.pc.r, th.pc.i).ptr.Some?
       && var found := SlotAt(s, th.pc.r, th.pc.i).ptr.value;
          if th.pc.r == |s.tables| - 1 then
            e == Return(found, true) && s' == Goto(s, t, th.(pc := Idle, found := found, known := true))
          else
            e == Tau && s' == Goto(s, t, th.(pc := LoadInsert, found := found, known := true))
  }

  ghost predicate StepCreate(s: State, s': State, t: Tid, e: Event) {
    t < |s.threads| && s.threads[t].pc == Create && e == Tau
    && s' == Goto(s, t, s.threads[t].(pc := Ticket, own := Some(s.created), found := s.created, known := false))
             .(created := s.created + 1)
  }

  ghost predicate StepTicket(s: State, s': State, t: Tid, e: Event) {
    t < |s.threads| && s.threads[t].pc == Ticket && e == Tau
    && s' == Goto(s, t, s.threads[t].(pc := LoadForGrow, ticket := s.count + 1)).(count := s.count + 1)
  }

  /** More tickets than half the root's slots call for a larger root. */
  ghost predicate StepLoadForGrow(s: State, s': State, t: Tid, e: Event) {
    t < |s.threads| && s.threads[t].pc == LoadForGrow && e == Tau
    && var n, th := |s.tables|, s.threads[t];
       (n > 0 ==> s.tables[n - 1].lg >= 1)
       && s' == Goto(s, t, th.(pc :=
         if n == 0 then Install(None, GrowTo(th.ticket, 2))
         else if th.ticket > Size(s.tables[n - 1]) / 2 then Install(RootOf(s), GrowTo(th.ticket, s.tables[n - 1].lg))
         else LoadInsert))
  }

  /** The root is still the one seen: the new array becomes the root.  Otherwise, if the root has become large
      enough the new array is not needed, and if it has not, the thread tries again. */
  ghost predicate StepInstall(s: State, s': State, t: Tid, e: Event) {
    t < |s.threads| && e == Tau
    && var n, th := |s.tables|, s.threads[t];
       th.pc.Install?
       && if th.pc.seen == RootOf(s) then
            s' == Goto(s, t, th.(pc := LoadInsert)).(tables := s.tables + [Fresh(th.pc.lg)])
          else
            n > 0 && s' == Goto(s, t, th.(pc := if s.tables[n - 1].lg >= th.pc.lg then LoadInsert
                                                else Install(RootOf(s), th.pc.lg)))
  }

  ghost predicate StepLoadInsert(s: State, s': State, t: Tid, e: Event) {
    t < |s.threads| && s.threads[t].pc == LoadInsert && e == Tau && s.tables != []
    && var r := |s.tables| - 1;
       s' == Goto(s, t, s.threads[t].(pc := Insert(r, s.start(t, s.tables[r].lg))))
  }

  ghost predicate StepInsert(s: State, s': State, t: Tid, e: Event) {
    t < |s.threads| && e == Tau
    && var th := s.threads[t];
       th.pc.Insert? && HasSlot(s, th.pc.r, th.pc.i)
       && s' == Goto(s, t, th.(pc := if SlotAt(s, th.pc.r, th.pc.i).key == None then Claim(th.pc.r, th.pc.i)
                                     else Insert(th.pc.r, NextSlot(th.pc.i, Size(s.tables[th.pc.r])))))
  }

  ghost predicate StepClaim(s: State, s': State, t: Tid, e: Event) {
    t < |s.threads| && e == Tau
    && var th := s.threads[t];
       th.pc.Claim? && HasSlot(s, th.pc.r, th.pc.i)
       && if SlotAt(s, th.pc.r, th.pc.i).key == None then
            s' == Goto(Put(s, th.pc.r, th.pc.i, SlotAt(s, th.pc.r, th.pc.i).(key := Some(t))), t,
                       th.(pc := Store(th.pc.r, th.pc.i)))
          else
            s' == Goto(s, t, th.(pc := Insert(th.pc.r, NextSlot(th.pc.i, Size(s.tables[th.pc.r])))))
  }

  ghost predicate StepStore(s: State, s': State, t: Tid, e: Event) {
    t < |s.threads|
    && var th := s.threads[t];
       th.pc.Store? && HasSlot(s, th.pc.r, th.pc.i) && e == Return(th.found, th.known)
       && s' == Goto(Put(s, th.pc.r, th.pc.i, SlotAt(s, th.pc.r, th.pc.i).(ptr := Some(th.found))), t, th.(pc := Idle))
  }

  /** A step that a thread in a call takes. */
  ghost predicate Works(s: State, s': State, t: Tid, e: Event) {
    || StepLoadRoot(s, s', t, e) || StepProbe(s, s', t, e) || StepCheckRoot(s, s', t, e)
    || StepCreate(s, s', t, e) || StepTicket(s, s', t, e) || StepLoadForGrow(s, s', t, e)
    || StepInstall(s, s', t, e) || StepLoadInsert(s, s', t, e) || StepInsert(s, s', t, e)
    || StepClaim(s, s', t, e) || StepStore(s, s', t, e)
  }

  ghost predicate Next(s: State, s': State, t: Tid, e: Event) {
    Invoke(s, s', t, e) || Works(s, s', t, e)
  }

  /** The table is empty, and the start of every probe lies in the array. */
  ghost predicate Init(s: State) {
    && (forall t: Tid, lg: nat :: s.start(t, lg) < Pow2(lg))
    && s.tables == [] && s.count == s.created == 0
    && forall t :: 0 <= t < |s.threads| ==> s.threads[t] == Thread(Idle, None, 0, 0, false, false)
  }

  // ---------------------------------------------------------------- the invariant

  /** How many slots the probe from `a` passes before it comes to slot i. */
  function Dist(a: nat, i: nat, size: nat): (d: nat)
    requires a < size && i < size
    ensures d < size
  {
    if i >= a then i - a else i + size - a
  }

  predicate KeyAt(s: State, r: nat, i: nat, t: Tid) {
    r < |s.tables| && i < |s.tables[r].slots| && s.tables[r].slots[i].key == Some(t)
  }

  predicate Taken(s: State, r: nat, i: nat) {
    r < |s.tables| && i < |s.tables[r].slots| && s.tables[r].slots[i].key.Some?
  }

  /** t's key is in none of the arrays from number `from` on. */
  ghost predicate AbsentFrom(s: State, t: Tid, from: nat) {
    forall r, i :: from <= r ==> !KeyAt(s, r, i, t)
  }

  ghost predicate Somewhere(s: State, t: Tid) {
    exists r, i :: KeyAt(s, r, i, t)
  }

  ghost predicate Starts(s: State) {
    forall t: Tid, lg: nat :: s.start(t, lg) < Pow2(lg)
  }

  /** The slots that t's probe passes before it comes to slot i are taken. */
  ghost predicate Passed(s: State, r: nat, t: Tid, i: nat)
    requires Starts(s) && HasSlot(s, r, i)
  {
    forall j :: 0 <= j < |s.tables[r].slots| && Before(s, r, t, j, i) ==> Taken(s, r, j)
  }

  predicate Before(s: State, r: nat, t: Tid, j: nat, i: nat)
    requires HasSlot(s, r, i) && j < |s.tables[r].slots| && s.start(t, s.tables[r].lg) < |s.tables[r].slots|
  {
    var n, a := |s.tables[r].slots|, s.start(t, s.tables[r].lg);
    Dist(a, j, n) < Dist(a, i, n)
  }

  /** ... and do not hold t's key. */
  ghost predicate NotBefore(s: State, r: nat, t: Tid, i: nat)
    requires Starts(s) && HasSlot(s, r, i)
  {
    forall j :: 0 <= j < |s.tables[r].slots| && Before(s, r, t, j, i) ==> !KeyAt(s, r, j, t)
  }

  ghost predicate Fits(s: State, r: nat, ticket: nat) {
    r < |s.tables| && 1 <= ticket && 2 * ticket <= Size(s.tables[r])
  }

  /** A taken slot belongs to a thread with a ticket that the array has room for; the thread's probe
      finds it, and its element is there once it has been stored. */
  ghost predicate SlotOk(s: State, r: nat, i: nat)
    requires Starts(s) && HasSlot(s, r, i)
  {
    var slot := SlotAt(s, r, i);
    slot.key.Some? ==>
      && var t := slot.key.value;
      && t < |s.threads| && s.threads[t].own.Some? && Fits(s, r, s.threads[t].ticket)
      && Passed(s, r, t, i)
      && (s.threads[t].pc == Store(r, i) || slot.ptr == s.threads[t].own)
  }

  ghost predicate TableOk(s: State, r: nat)
    requires Starts(s) && r < |s.tables|
  {
    var a := s.tables[r];
    && a.lg >= 2 && |a.slots| == Pow2(a.lg)
    && (forall i :: 0 <= i < |a.slots| ==> SlotOk(s, r, i))
    && (forall i, j :: 0 <= i < j < |a.slots| && a.slots[i].key.Some? ==> a.slots[i].key != a.slots[j].key)
  }

  /** The thread has not yet got its element, or it has got one, and a ticket, and a slot. */
  ghost predicate Settled(s: State, t: Tid, th: Thread) {
    if th.own == None then th.ticket == 0 && AbsentFrom(s, t, 0)
    else th.ticket > 0 && Somewhere(s, t)
  }

  /** The thread has found or created its element. */
  predicate Holds(th: Thread) {
    th.own == Some(th.found) && th.known == th.had
  }

  /** A probe for inserting is at slot i of array r, which has room for the key. */
  ghost predicate Inserting(s: State, t: Tid, th: Thread, r: nat, i: nat)
    requires Starts(s)
  {
    Holds(th) && Fits(s, r, th.ticket) && HasSlot(s, r, i) && AbsentFrom(s, t, r) && Passed(s, r, t, i)
  }

  ghost predicate ThreadOk(s: State, t: Tid, th: Thread)
    requires Starts(s)
  {
    th.ticket <= s.count
    && match th.pc
       case Idle => Settled(s, t, th)
       case LoadRoot => Settled(s, t, th) && th.had == th.own.Some?
       case Probe(r, i) =>
         Settled(s, t, th) && th.had == th.own.Some? && HasSlot(s, r, i)
         && AbsentFrom(s, t, r + 1) && Passed(s, r, t, i) && NotBefore(s, r, t, i)
       case CheckRoot(r, i) =>
         th.own.Some? && th.had && HasSlot(s, r, i) && KeyAt(s, r, i, t) && AbsentFrom(s, t, r + 1)
       case Create => th.own == None && th.ticket == 0 && !th.had && AbsentFrom(s, t, 0)
       case Ticket => Holds(th) && !th.had && th.ticket == 0 && AbsentFrom(s, t, 0)
       case LoadForGrow => Holds(th) && !th.had && th.ticket > 0 && AbsentFrom(s, t, 0)
       case Install(r, lg) =>
         && Holds(th) && !th.had && th.ticket > 0 && AbsentFrom(s, t, 0)
         && lg >= 2 && th.ticket <= Pow2(lg - 1) && (lg > 2 ==> Pow2(lg - 2) < th.ticket)
         && (r.Some? ==> r.value < |s.tables| && s.tables[r.value].lg < lg)
       case LoadInsert =>
         Holds(th) && s.tables != [] && Fits(s, |s.tables| - 1, th.ticket) && AbsentFrom(s, t, |s.tables| - 1)
       case Insert(r, i) => Inserting(s, t, th, r, i)
       case Claim(r, i) => Inserting(s, t, th, r, i)
       case Store(r, i) => Holds(th) && HasSlot(s, r, i) && KeyAt(s, r, i, t)
  }

  /** Arrays grow from each to the next. */
  ghost predicate Growing(s: State) {
    forall q, r :: 0 <= q < r < |s.tables| ==> s.tables[q].lg < s.tables[r].lg
  }

  ghost predicate TicketsOk(s: State) {
    && (forall t, u :: 0 <= t < u < |s.threads| && s.threads[t].ticket > 0 ==> s.threads[t].ticket != s.threads[u].ticket)
    && (forall t :: 0 <= t < |s.threads| && s.threads[t].own.Some? ==> s.threads[t].own.value < s.created)
    && (forall t, u :: 0 <= t < u < |s.threads| && s.threads[t].own.Some? ==> s.threads[t].own != s.threads[u].own)
  }

  ghost predicate Inv(s: State) {
    && Starts(s) && Growing(s) && TicketsOk(s)
    && (forall r :: 0 <= r < |s.tables| ==> TableOk(s, r))
    && (forall t :: 0 <= t < |s.threads| ==> ThreadOk(s, t, s.threads[t]))
  }
}
