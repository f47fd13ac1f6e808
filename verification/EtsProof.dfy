/** Every step of the table of enumerable_thread_specific keeps its invariant. */
module EtsProof {
  import opened Options
  import opened HashPaths
  import opened Pigeonhole
  import opened EtsTable

  // ---------------------------------------------------------------- probing

  /** The slot at distance d of a probe that starts at slot a. */
  function SlotAtDist(a: nat, d: nat, size: nat): (i: nat)
    requires a < size && d < size
    ensures i < size && Dist(a, i, size) == d
  {
    if a + d < size then a + d else a + d - size
  }

  function KeyOf(s: State, r: nat, i: nat): Tid
    requires HasSlot(s, r, i) && SlotAt(s, r, i).key.Some?
  {
    SlotAt(s, r, i).key.value
  }

  /** A run of taken slots is at most half the array, because the tickets of their owners differ and
      are at most half the size. */
  lemma RunIsShort(s: State, r: nat, t: Tid, i: nat)
    requires Starts(s) && TicketsOk(s) && r < |s.tables| && TableOk(s, r) && HasSlot(s, r, i)
    requires Passed(s, r, t, i)
    ensures var n := |s.tables[r].slots|; var d := Dist(s.start(t, s.tables[r].lg), i, n);
            d <= n / 2 && (Taken(s, r, i) ==> d + 1 <= n / 2)
  {
    var n, a := |s.tables[r].slots|, s.start(t, s.tables[r].lg);
    var d := Dist(a, i, n);
    TicketsDistinct(s, r, t, i, d);
    if Taken(s, r, i) {
      TicketsDistinct(s, r, t, i, d + 1);
    }
  }

  lemma TicketsDistinct(s: State, r: nat, t: Tid, i: nat, d: nat)
    requires Starts(s) && TicketsOk(s) && r < |s.tables| && TableOk(s, r) && HasSlot(s, r, i)
    requires Passed(s, r, t, i)
    requires var n := |s.tables[r].slots|; var e := Dist(s.start(t, s.tables[r].lg), i, n);
             d == e || (d == e + 1 && Taken(s, r, i))
    ensures d <= |s.tables[r].slots| / 2
  {
    var n, a := |s.tables[r].slots|, s.start(t, s.tables[r].lg);
    forall k | 0 <= k < d ensures k < n && Taken(s, r, SlotAtDist(a, k, n)) {
      var j := SlotAtDist(a, k, n);
      if k == Dist(a, i, n) {
        assert j == i;
      } else {
        assert Before(s, r, t, j, i);
      }
    }
    forall k | 0 <= k < d ensures TicketAt(s, r, a, k) < n / 2 {
      assert SlotOk(s, r, SlotAtDist(a, k, n));
    }
    var list := seq(d, k requires 0 <= k < d => TicketAt(s, r, a, k));
    forall k, l | 0 <= k < l < d ensures list[k] != list[l] {
      var i, j := SlotAtDist(a, k, n), SlotAtDist(a, l, n);
      assert SlotOk(s, r, i) && SlotOk(s, r, j);
      assert KeyOf(s, r, i) != KeyOf(s, r, j);
    }
    DistinctBound(list, n / 2);
  }

  /** The ticket of the owner of the slot at distance k, counted from 0. */
  function TicketAt(s: State, r: nat, a: nat, k: nat): nat {
    if r < |s.tables| && a < |s.tables[r].slots| && k < |s.tables[r].slots|
       && s.tables[r].slots[SlotAtDist(a, k, |s.tables[r].slots|)].key.Some?
       && s.tables[r].slots[SlotAtDist(a, k, |s.tables[r].slots|)].key.value < |s.threads|
       && s.threads[s.tables[r].slots[SlotAtDist(a, k, |s.tables[r].slots|)].key.value].ticket > 0
    then s.threads[s.tables[r].slots[SlotAtDist(a, k, |s.tables[r].slots|)].key.value].ticket - 1
    else 0
  }

  /** Past a taken slot the probe goes on to a slot of the array that it has not yet seen. */
  lemma ProbeOn(s: State, r: nat, t: Tid, i: nat)
    requires Starts(s) && TicketsOk(s) && r < |s.tables| && TableOk(s, r) && HasSlot(s, r, i)
    requires Passed(s, r, t, i) && Taken(s, r, i)
    ensures var j := NextSlot(i, Size(s.tables[r]));
            && HasSlot(s, r, j) && Passed(s, r, t, j)
            && (NotBefore(s, r, t, i) && !KeyAt(s, r, i, t) ==> NotBefore(s, r, t, j))
  {
    RunIsShort(s, r, t, i);
    var j := NextSlot(i, Size(s.tables[r]));
    forall k | 0 <= k < |s.tables[r].slots| && Before(s, r, t, k, j) ensures k == i || Before(s, r, t, k, i) {
    }
  }

  /** A probe that comes to an empty slot has shown that the key is not in the array. */
  lemma NotInTable(s: State, r: nat, t: Tid, i: nat)
    requires Starts(s) && r < |s.tables| && TableOk(s, r) && HasSlot(s, r, i)
    requires NotBefore(s, r, t, i) && !Taken(s, r, i)
    ensures forall j :: !KeyAt(s, r, j, t)
  {
    forall j: nat ensures !KeyAt(s, r, j, t) {
      FoundBefore(s, r, t, i, j);
    }
  }

  /** A stored key is found before the first empty slot of its probe. */
  lemma FoundBefore(s: State, r: nat, t: Tid, i: nat, j: nat)
    requires Starts(s) && r < |s.tables| && TableOk(s, r) && HasSlot(s, r, i) && !Taken(s, r, i)
    ensures KeyAt(s, r, j, t) ==> Before(s, r, t, j, i)
  {
    if KeyAt(s, r, j, t) {
      assert SlotOk(s, r, j);
      assert Before(s, r, t, i, j) ==> Taken(s, r, i);
    }
  }

  lemma StartsProbe(s: State, t: Tid, r: nat)
    requires Starts(s) && r < |s.tables| && TableOk(s, r)
    ensures var i := s.start(t, s.tables[r].lg); HasSlot(s, r, i) && Passed(s, r, t, i) && NotBefore(s, r, t, i)
  {
  }

  // ---------------------------------------------------------------- what a step leaves alone

  /** The table has only grown, and u's key is where it was. */
  ghost predicate Extends(s: State, s': State, u: Tid) {
    && s'.start == s.start && |s.tables| <= |s'.tables| && s.count <= s'.count
    && (forall r :: 0 <= r < |s.tables| ==>
          s'.tables[r].lg == s.tables[r].lg && |s'.tables[r].slots| == |s.tables[r].slots|)
    && (forall r, i :: Taken(s, r, i) ==> Taken(s', r, i))
    && (forall r, i :: KeyAt(s', r, i, u) <==> KeyAt(s, r, i, u))
  }

  lemma PassedKept(s: State, s': State, u: Tid, r: nat, t: Tid, i: nat)
    requires Starts(s) && Extends(s, s', u) && HasSlot(s, r, i) && Passed(s, r, t, i)
    ensures Starts(s') && HasSlot(s', r, i) && Passed(s', r, t, i)
    ensures t == u && NotBefore(s, r, t, i) ==> NotBefore(s', r, t, i)
  {
    forall j | 0 <= j < |s'.tables[r].slots| && Before(s', r, t, j, i) ensures Before(s, r, t, j, i) { }
  }

  lemma FitsLater(s: State, r: nat, r': nat, ticket: nat)
    requires Growing(s) && Fits(s, r, ticket) && r <= r' < |s.tables|
    ensures Fits(s, r', ticket)
  {
    Pow2Monotone(s.tables[r].lg, s.tables[r'].lg);
  }

  lemma SettledKept(s: State, s': State, u: Tid, th: Thread)
    requires Extends(s, s', u) && Settled(s, u, th)
    ensures Settled(s', u, th)
  {
    if th.own.Some? {
      var r, i :| KeyAt(s, r, i, u);
      assert KeyAt(s', r, i, u);
    }
  }

  lemma ThreadKept(s: State, s': State, u: Tid, th: Thread)
    requires Starts(s) && ThreadOk(s, u, th) && Extends(s, s', u) && Growing(s')
    ensures Starts(s') && ThreadOk(s', u, th)
  {
    assert s'.start == s.start;
    match th.pc
    case Idle => SettledKept(s, s', u, th);
    case LoadRoot => SettledKept(s, s', u, th);
    case Probe(r, i) =>
      SettledKept(s, s', u, th);
      PassedKept(s, s', u, r, u, i);
    case Insert(r, i) => PassedKept(s, s', u, r, u, i);
    case Claim(r, i) => PassedKept(s, s', u, r, u, i);
    case LoadInsert => FitsLater(s', |s.tables| - 1, |s'.tables| - 1, th.ticket);
    case _ =>
  }

  /** The owner of a slot has kept its element and ticket, and a pending store is still pending. */
  predicate SameOwner(s: State, s': State, u: Tid) {
    && u < |s.threads| && u < |s'.threads|
    && s'.threads[u].own == s.threads[u].own && s'.threads[u].ticket == s.threads[u].ticket
    && (s.threads[u].pc.Store? ==> s'.threads[u].pc == s.threads[u].pc)
  }

  lemma TableKept(s: State, s': State, r: nat)
    requires Starts(s) && r < |s.tables| && TableOk(s, r) && s'.start == s.start
    requires r < |s'.tables| && s'.tables[r] == s.tables[r]
    requires forall i :: 0 <= i < |s.tables[r].slots| && s.tables[r].slots[i].key.Some? ==>
               SameOwner(s, s', s.tables[r].slots[i].key.value)
    ensures Starts(s') && TableOk(s', r)
  {
    forall i | 0 <= i < |s'.tables[r].slots| ensures SlotOk(s', r, i) {
      assert SlotOk(s, r, i);
      if s.tables[r].slots[i].key.Some? {
        var u := s.tables[r].slots[i].key.value;
        forall j | 0 <= j < |s'.tables[r].slots| && Before(s', r, u, j, i) ensures Taken(s', r, j) {
          assert Before(s, r, u, j, i);
        }
      }
    }
  }

  // ---------------------------------------------------------------- steps that leave the arrays alone

  ghost predicate LocalTo(s: State, s': State, t: Tid) {
    && t < |s.threads| == |s'.threads| && s'.tables == s.tables && s'.start == s.start
    && s.count <= s'.count && s'.threads == s.threads[t := s'.threads[t]]
  }

  lemma OthersKept(s: State, s': State, t: Tid)
    requires Inv(s) && LocalTo(s, s', t) && ThreadOk(s', t, s'.threads[t])
    requires SameOwner(s, s', t) || AbsentFrom(s, t, 0)
    ensures forall r :: 0 <= r < |s'.tables| ==> TableOk(s', r)
    ensures forall u :: 0 <= u < |s'.threads| ==> ThreadOk(s', u, s'.threads[u])
  {
    forall r | 0 <= r < |s'.tables| ensures TableOk(s', r) {
      assert TableOk(s, r);
      forall i | 0 <= i < |s.tables[r].slots| && s.tables[r].slots[i].key.Some?
        ensures SameOwner(s, s', s.tables[r].slots[i].key.value)
      {
        assert SlotOk(s, r, i);
        assert KeyAt(s, r, i, s.tables[r].slots[i].key.value);
      }
      TableKept(s, s', r);
    }
    forall u | 0 <= u < |s'.threads| ensures ThreadOk(s', u, s'.threads[u]) {
      if u != t { ThreadKept(s, s', u, s.threads[u]); }
    }
  }

  /** A step that changes only where its thread is and what it has found. */
  lemma LocalStep(s: State, s': State, t: Tid)
    requires Inv(s) && LocalTo(s, s', t) && s'.created == s.created
    requires s'.threads[t].own == s.threads[t].own && s'.threads[t].ticket == s.threads[t].ticket
    requires !s.threads[t].pc.Store? && ThreadOk(s', t, s'.threads[t])
    ensures Inv(s')
  {
    OthersKept(s, s', t);
  }

  lemma InvokeKeeps(s: State, s': State, t: Tid, e: Event)
    requires Inv(s) && Invoke(s, s', t, e)
    ensures Inv(s')
  {
    assert ThreadOk(s, t, s.threads[t]);
    SameTables(s, s', t);
    LocalStep(s, s', t);
  }

  lemma SameTables(s: State, s': State, t: Tid)
    requires LocalTo(s, s', t)
    ensures Extends(s, s', t)
    ensures forall th: Thread :: Settled(s, t, th) ==> Settled(s', t, th)
  {
    forall th: Thread | Settled(s, t, th) ensures Settled(s', t, th) { SettledKept(s, s', t, th); }
  }

  lemma LoadRootKeeps(s: State, s': State, t: Tid, e: Event)
    requires Inv(s) && StepLoadRoot(s, s', t, e)
    ensures Inv(s')
  {
    var n := |s.tables|;
    assert ThreadOk(s, t, s.threads[t]);
    SameTables(s, s', t);
    ProbeBelowOk(s, s', t, n);
    LocalStep(s, s', t);
  }

  /** The search goes on with an older array, or ends when there is none. */
  lemma ProbeBelowOk(s: State, s': State, t: Tid, n: nat)
    requires Inv(s) && LocalTo(s, s', t) && n <= |s.tables| && AbsentFrom(s, t, n)
    requires Settled(s, t, s.threads[t]) && s.threads[t].had == s.threads[t].own.Some? && s.threads[t].ticket <= s.count
    requires s'.threads[t] == s.threads[t].(pc := ProbeBelow(s, t, n))
    ensures ThreadOk(s', t, s'.threads[t])
  {
    SameTables(s, s', t);
    if n > 0 {
      assert TableOk(s, n - 1);
      StartsProbe(s, t, n - 1);
      PassedKept(s, s', t, n - 1, t, s.start(t, s.tables[n - 1].lg));
    }
  }

  lemma ProbeKeeps(s: State, s': State, t: Tid, e: Event)
    requires Inv(s) && StepProbe(s, s', t, e)
    ensures Inv(s')
  {
    var th := s.threads[t];
    var r, i := th.pc.r, th.pc.i;
    assert ThreadOk(s, t, th) && TableOk(s, r);
    SameTables(s, s', t);
    if !Taken(s, r, i) {
      NotInTable(s, r, t, i);
      ProbeBelowOk(s, s', t, r);
    } else if KeyAt(s, r, i, t) {
      assert SlotOk(s, r, i);
    } else {
      ProbeOn(s, r, t, i);
      PassedKept(s, s', t, r, t, NextSlot(i, Size(s.tables[r])));
    }
    LocalStep(s, s', t);
  }

  lemma CheckRootKeeps(s: State, s': State, t: Tid, e: Event)
    requires Inv(s) && StepCheckRoot(s, s', t, e)
    ensures Inv(s') && (e.Return? ==> s.threads[t].own == Some(e.elem) && e.known == s.threads[t].had)
  {
    var th := s.threads[t];
    assert ThreadOk(s, t, th) && TableOk(s, th.pc.r) && SlotOk(s, th.pc.r, th.pc.i);
    assert KeyAt(s', th.pc.r, th.pc.i, t);
    FitsLater(s, th.pc.r, |s.tables| - 1, th.ticket);
    SameTables(s, s', t);
    LocalStep(s, s', t);
  }

  lemma LoadForGrowKeeps(s: State, s': State, t: Tid, e: Event)
    requires Inv(s) && StepLoadForGrow(s, s', t, e)
    ensures Inv(s')
  {
    var n := |s.tables|;
    assert ThreadOk(s, t, s.threads[t]);
    if n > 0 {
      assert TableOk(s, n - 1);
      assert Pow2(s.tables[n - 1].lg) == 2 * Pow2(s.tables[n - 1].lg - 1);
    }
    SameTables(s, s', t);
    LocalStep(s, s', t);
  }

  lemma LoadInsertKeeps(s: State, s': State, t: Tid, e: Event)
    requires Inv(s) && StepLoadInsert(s, s', t, e)
    ensures Inv(s')
  {
    var r := |s.tables| - 1;
    assert ThreadOk(s, t, s.threads[t]) && TableOk(s, r);
    StartsProbe(s, t, r);
    SameTables(s, s', t);
    PassedKept(s, s', t, r, t, s.start(t, s.tables[r].lg));
    LocalStep(s, s', t);
  }

  lemma InsertKeeps(s: State, s': State, t: Tid, e: Event)
    requires Inv(s) && StepInsert(s, s', t, e)
    ensures Inv(s')
  {
    InsertOn(s, s', t);
    LocalStep(s, s', t);
  }

  /** The probe for inserting stays at an empty slot, and goes on past a taken one. */
  lemma InsertOn(s: State, s': State, t: Tid)
    requires Inv(s) && LocalTo(s, s', t) && (s.threads[t].pc.Insert? || s.threads[t].pc.Claim?)
    requires var th := s.threads[t];
             HasSlot(s, th.pc.r, th.pc.i)
             && s'.threads[t] == th.(pc := if SlotAt(s, th.pc.r, th.pc.i).key == None then Claim(th.pc.r, th.pc.i)
                                           else Insert(th.pc.r, NextSlot(th.pc.i, Size(s.tables[th.pc.r]))))
    ensures ThreadOk(s', t, s'.threads[t])
  {
    var th := s.threads[t];
    var r, i := th.pc.r, th.pc.i;
    assert ThreadOk(s, t, th) && TableOk(s, r);
    SameTables(s, s', t);
    PassedKept(s, s', t, r, t, i);
    if Taken(s, r, i) {
      ProbeOn(s, r, t, i);
      PassedKept(s, s', t, r, t, NextSlot(i, Size(s.tables[r])));
    }
  }

  lemma CreateKeeps(s: State, s': State, t: Tid, e: Event)
    requires Inv(s) && StepCreate(s, s', t, e)
    ensures Inv(s') && s.threads[t].own == None
  {
    assert ThreadOk(s, t, s.threads[t]);
    SameTables(s, s', t);
    OthersKept(s, s', t);
  }

  lemma TicketKeeps(s: State, s': State, t: Tid, e: Event)
    requires Inv(s) && StepTicket(s, s', t, e)
    ensures Inv(s')
  {
    assert ThreadOk(s, t, s.threads[t]);
    forall u | 0 <= u < |s.threads| ensures s.threads[u].ticket <= s.count { assert ThreadOk(s, u, s.threads[u]); }
    SameTables(s, s', t);
    OthersKept(s, s', t);
  }

  // ---------------------------------------------------------------- steps that change the arrays

  lemma InstallFails(s: State, s': State, t: Tid, e: Event)
    requires Inv(s) && StepInstall(s, s', t, e) && s.threads[t].pc.seen != RootOf(s)
    ensures Inv(s')
  {
    var th, n := s.threads[t], |s.tables|;
    assert ThreadOk(s, t, th);
    if s.tables[n - 1].lg >= th.pc.lg { Pow2Monotone(th.pc.lg, s.tables[n - 1].lg); }
    SameTables(s, s', t);
    LocalStep(s, s', t);
  }

  lemma InstallKeeps(s: State, s': State, t: Tid, e: Event)
    requires Inv(s) && StepInstall(s, s', t, e) && s.threads[t].pc.seen == RootOf(s)
    ensures Inv(s')
  {
    var th, n := s.threads[t], |s.tables|;
    assert ThreadOk(s, t, th);
    assert Growing(s') by {
      forall q, r | 0 <= q < r < |s'.tables| ensures s'.tables[q].lg < s'.tables[r].lg {
        if r == n && q < n - 1 { assert s.tables[q].lg < s.tables[n - 1].lg; }
      }
    }
    forall r | 0 <= r < |s'.tables| ensures TableOk(s', r) {
      if r < n {
        assert TableOk(s, r);
        forall i | 0 <= i < |s.tables[r].slots| && s.tables[r].slots[i].key.Some?
          ensures SameOwner(s, s', s.tables[r].slots[i].key.value) { assert SlotOk(s, r, i); }
        TableKept(s, s', r);
      }
    }
    hide TableOk, Growing;
    forall u | 0 <= u < |s'.threads| ensures ThreadOk(s', u, s'.threads[u]) { InstallThread(s, s', t, e, u); }
  }

  lemma InstallThread(s: State, s': State, t: Tid, e: Event, u: Tid)
    requires Inv(s) && StepInstall(s, s', t, e) && s.threads[t].pc.seen == RootOf(s) && u < |s.threads|
    ensures Starts(s') && ThreadOk(s', u, s'.threads[u])
  {
    assert ThreadOk(s, t, s.threads[t]) && ThreadOk(s, u, s.threads[u]);
    hide TableOk, Growing;
    assert Extends(s, s', u);
    if u != t { ThreadKept(s, s', u, s.threads[u]); }
  }

  /** The claimed slot was empty, so nothing that was known about taken slots changes. */
  lemma ClaimExtends(s: State, s': State, t: Tid, u: Tid)
    requires StepClaim(s, s', t, Tau) && u != t
    requires SlotAt(s, s.threads[t].pc.r, s.threads[t].pc.i).key == None
    ensures Extends(s, s', u)
  {
  }

  lemma ClaimFails(s: State, s': State, t: Tid, e: Event)
    requires Inv(s) && StepClaim(s, s', t, e) && Taken(s, s.threads[t].pc.r, s.threads[t].pc.i)
    ensures Inv(s')
  {
    InsertOn(s, s', t);
    LocalStep(s, s', t);
  }

  lemma ClaimKeeps(s: State, s': State, t: Tid, e: Event)
    requires Inv(s) && StepClaim(s, s', t, e) && !Taken(s, s.threads[t].pc.r, s.threads[t].pc.i)
    ensures Inv(s')
  {
    var th := s.threads[t];
    assert ThreadOk(s, t, th);
    assert Growing(s');
    forall u | 0 <= u < |s'.threads| ensures ThreadOk(s', u, s'.threads[u]) {
      if u != t {
        ClaimExtends(s, s', t, u);
        ThreadKept(s, s', u, s.threads[u]);
      }
    }
    forall q | 0 <= q < |s'.tables| ensures TableOk(s', q) {
      assert TableOk(s, q);
      forall j | 0 <= j < |s.tables[q].slots| ensures SlotOk(s', q, j) { ClaimSlot(s, s', t, q, j); }
      var a, a' := s.tables[q], s'.tables[q];
      forall i, j | 0 <= i < j < |a'.slots| && a'.slots[i].key.Some? ensures a'.slots[i].key != a'.slots[j].key {
        if q == th.pc.r { assert !KeyAt(s, q, i, t) && !KeyAt(s, q, j, t); }
      }
    }
  }

  lemma ClaimSlot(s: State, s': State, t: Tid, q: nat, j: nat)
    requires Inv(s) && StepClaim(s, s', t, Tau) && !Taken(s, s.threads[t].pc.r, s.threads[t].pc.i)
    requires HasSlot(s, q, j)
    ensures Starts(s') && HasSlot(s', q, j) && SlotOk(s', q, j)
  {
    var th := s.threads[t];
    var r, i := th.pc.r, th.pc.i;
    assert ThreadOk(s, t, th) && TableOk(s, q) && SlotOk(s, q, j);
    ClaimExtends(s, s', t, t + 1);
    if q == r && j == i {
      PassedKept(s, s', t + 1, r, t, i);
    } else if Taken(s, q, j) {
      PassedKept(s, s', t + 1, q, KeyOf(s, q, j), j);
    }
  }

  lemma StoreKeeps(s: State, s': State, t: Tid, e: Event)
    requires Inv(s) && StepStore(s, s', t, e)
    ensures Inv(s') && e.Return? && s.threads[t].own == Some(e.elem) && e.known == s.threads[t].had
  {
    assert ThreadOk(s, t, s.threads[t]);
    assert Growing(s');
    forall u | 0 <= u < |s'.threads| ensures ThreadOk(s', u, s'.threads[u]) { StoreThread(s, s', t, e, u); }
    forall q | 0 <= q < |s'.tables| ensures TableOk(s', q) {
      assert TableOk(s, q);
      forall j | 0 <= j < |s.tables[q].slots| ensures SlotOk(s', q, j) { StoreSlot(s, s', t, e, q, j); }
    }
  }

  lemma StoreThread(s: State, s': State, t: Tid, e: Event, u: Tid)
    requires Inv(s) && StepStore(s, s', t, e) && u < |s.threads|
    ensures Starts(s') && ThreadOk(s', u, s'.threads[u])
  {
    var th := s.threads[t];
    assert ThreadOk(s, t, th) && ThreadOk(s, u, s.threads[u]);
    assert Extends(s, s', u);
    if u != t {
      assert Growing(s');
      ThreadKept(s, s', u, s.threads[u]);
    } else {
      assert TableOk(s, th.pc.r) && SlotOk(s, th.pc.r, th.pc.i);
      assert KeyAt(s', th.pc.r, th.pc.i, t);
    }
  }

  lemma StoreSlot(s: State, s': State, t: Tid, e: Event, q: nat, j: nat)
    requires Inv(s) && StepStore(s, s', t, e) && HasSlot(s, q, j)
    ensures Starts(s') && HasSlot(s', q, j) && SlotOk(s', q, j)
  {
    assert ThreadOk(s, t, s.threads[t]) && TableOk(s, q) && SlotOk(s, q, j);
    assert Extends(s, s', t);
    if Taken(s, q, j) { PassedKept(s, s', t, q, KeyOf(s, q, j), j); }
  }

  /** Every step keeps the invariant. */
  lemma WorkKeeps(s: State, s': State, t: Tid, e: Event)
    requires Inv(s) && Works(s, s', t, e)
    ensures Inv(s')
  {
    hide Inv;
    if StepLoadRoot(s, s', t, e) { LoadRootKeeps(s, s', t, e); }
    else if StepProbe(s, s', t, e) { ProbeKeeps(s, s', t, e); }
    else if StepCheckRoot(s, s', t, e) { CheckRootKeeps(s, s', t, e); }
    else if StepCreate(s, s', t, e) { CreateKeeps(s, s', t, e); }
    else if StepTicket(s, s', t, e) { TicketKeeps(s, s', t, e); }
    else if StepLoadForGrow(s, s', t, e) { LoadForGrowKeeps(s, s', t, e); }
    else if StepInstall(s, s', t, e) {
      if s.threads[t].pc.seen == RootOf(s) { InstallKeeps(s, s', t, e); } else { InstallFails(s, s', t, e); }
    }
    else if StepLoadInsert(s, s', t, e) { LoadInsertKeeps(s, s', t, e); }
    else if StepInsert(s, s', t, e) { InsertKeeps(s, s', t, e); }
    else if StepClaim(s, s', t, e) {
      if Taken(s, s.threads[t].pc.r, s.threads[t].pc.i) { ClaimFails(s, s', t, e); } else { ClaimKeeps(s, s', t, e); }
    }
    else { StoreKeeps(s, s', t, e); }
  }
}
