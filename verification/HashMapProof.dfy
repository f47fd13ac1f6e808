/** The hash table protocol refines a finite map, in every interleaving. */
module HashMapProof {
  import opened Options
  import opened HashPaths
  import opened HashMapProtocol
  import opened HashMapInvariant

  // ---------------------------------------------------------------- locks

  ghost predicate LockOk(s: State, t: Tid, th: Thread) {
    TopHeld(th.pc) ==> if th.mode == Wr then NoOtherHolder(s, t, th.top) else NoOtherWriter(s, t, th.top)
  }

  lemma HeldExcludes(s: State, t: Tid)
    requires t in s.threads && Mutex(s)
    ensures LockOk(s, t, s.threads[t])
    ensures forall j | j in s.threads[t].work :: NoOtherHolder(s, t, j)
  {
  }

  /** Changing one thread without touching its work list keeps mutual exclusion if the new lock of
      `top` excludes the others. */
  lemma MutexKept(s: State, s': State, t: Tid, th': Thread)
    requires t in s.threads && Mutex(s) && s'.threads == s.threads[t := th']
    requires th'.work == s.threads[t].work && LockOk(s, t, th')
    ensures Mutex(s')
  {
    HeldExcludes(s, t);
    forall u, w, j | u in s'.threads && w in s'.threads && u != w && HoldsForWriting(s'.threads[u], j)
      ensures !Holds(s'.threads[w], j)
    {
      if u == t {
        assert !Holds(s.threads[w], j);
      } else if w == t {
        assert HoldsForWriting(s.threads[u], j);
        if Holds(th', j) {
          assert Holds(s.threads[u], j);
          assert false;
        }
      }
    }
  }

  lemma DoneKept(s: State, s': State, t: Tid, th': Thread)
    requires t in s.threads && s'.threads == s.threads[t := th'] && s'.buckets == s.buckets
    requires th'.work == s.threads[t].work
    ensures Done(s') == Done(s)
  {
    forall j ensures j in Done(s') <==> j in Done(s) {
      if NobodyFills(s, j) { assert NobodyFills(s', j); }
      if NobodyFills(s', j) {
        forall u | u in s.threads ensures j !in s.threads[u].work { assert u in s'.threads; }
      }
    }
  }

  /** A step that changes nothing but one thread's own record, and not its work list. */
  lemma LocalStep(s: State, s': State, t: Tid, th': Thread, a: Abs)
    requires Inv(s, a) && t in s.threads
    requires s' == Put(s, t, th').(size := s'.size)
    requires th'.work == s.threads[t].work && th'.grow == s.threads[t].grow
    requires ThreadOk(ViewOf(s), th') && LockOk(s, t, th')
    requires s.threads[t].pc == Recheck ==> IsChain(s.buckets, s.threads[t].top)
    requires th'.pc == Lock ==> IsChain(s.buckets, th'.top) || (Marker(s, th'.top) && s.threads[t].pc != Recheck)
    ensures Inv(s', a)
  {
    hide ThreadOk, Stored, Placed, Settled, Mutex, Marked, OneGrower, LockOk, Done;
    DoneKept(s, s', t, th');
    OneGrowerKept(s, s', t, th');
    assert ViewOf(s') == ViewOf(s);
    MutexKept(s, s', t, th');
    MarkedKept(s, s', t, th');
  }

  lemma MarkedKept(s: State, s': State, t: Tid, th': Thread)
    requires Marked(s) && t in s.threads && s'.buckets == s.buckets && s'.threads == s.threads[t := th']
    requires s.threads[t].pc == Recheck ==> IsChain(s.buckets, s.threads[t].top)
    requires th'.pc == Lock ==> IsChain(s.buckets, th'.top) || (Marker(s, th'.top) && s.threads[t].pc != Recheck)
    ensures Marked(s')
  {
    forall u | u in s'.threads && s'.threads[u].pc == Lock
      ensures IsChain(s'.buckets, s'.threads[u].top) || Marker(s', s'.threads[u].top)
    {
      var j := s'.threads[u].top;
      if !IsChain(s.buckets, j) {
        assert Marker(s, j);
        var w :| w in s.threads && s.threads[w].pc == Recheck && s.threads[w].top == j;
        assert w != t;
        assert w in s'.threads && s'.threads[w].pc == Recheck;
      }
    }
  }

  // ---------------------------------------------------------------- the abstract map's steps

  /** What a committed operation means for the map, and what it may answer. */
  ghost predicate SpecStep(c: map<Key, Val>, e: Event, c': map<Key, Val>) {
    match e
    case Tau => c' == c
    case Commit(Find(key), Found(val)) => key in c && c[key] == val && c' == c
    case Commit(Insert(key, val), Inserted) => key !in c && c' == c[key := val]
    case Commit(Insert(key, val), Exists) => key in c && c' == c
    case Commit(Erase(key), Erased) => key in c && c' == c - {key}
    case Commit(op, NotFound) => !op.Insert? && op.key !in c && c' == c
    case _ => false
  }

  /** A bucket whose lock a thread holds is either about to be marked by it or finished. */
  lemma HeldIsDone(s: State, t: Tid)
    requires t in s.threads && Mutex(s) && TopHeld(s.threads[t].pc)
    requires s.threads[t].top !in s.threads[t].work && IsChain(s.buckets, s.threads[t].top)
    ensures s.threads[t].top in Done(s)
  {
    var j := s.threads[t].top;
    assert Holds(s.threads[t], j);
    forall u | u in s.threads ensures j !in s.threads[u].work {
      assert HoldsForWriting(s.threads[u], j) ==> u == t;
    }
    assert NobodyFills(s, j);
  }

  lemma StoredMeansKey(s: State, a: Abs, j: nat, key: Key)
    requires Stored(s.buckets, a) && IsChain(s.buckets, j) && HasKey(s.buckets[j].nodes, key)
    ensures key in a.loc && a.loc[key] == j && key in a.contents
  {
    var i :| 0 <= i < |s.buckets[j].nodes| && s.buckets[j].nodes[i].key == key;
    assert NodeAt(s.buckets[j].nodes[i], j, a);
  }

  /** The heart of the protocol: a key that is missing from a locked bucket, no deeper bucket of its
      path being finished, is missing from the whole table. */
  lemma AbsentEverywhere(s: State, t: Tid, a: Abs)
    requires Inv(s, a) && t in s.threads
    requires var th := s.threads[t];
             TopHeld(th.pc) && !Acquiring(th.pc) && !Outside(th.pc)
             && !Present(ViewOf(s), th) && Deepest(ViewOf(s), th)
    ensures s.threads[t].op.key !in a.contents
  {
    var th := s.threads[t];
    ThreadAt(s, a, t);
    HeldIsDone(s, t);
    if th.op.key in a.loc {
      var j := a.loc[th.op.key];
      DeeperIsUnfinished(ViewOf(s), a, th);
      HolderExcludesFillers(s, t, j);
      FillerHoldsParent(s, j, a);
      assert false;
    }
  }

  /** Whoever fills a bucket has its parent locked for writing. */
  lemma HolderExcludesFillers(s: State, t: Tid, j: nat)
    requires Mutex(s) && t in s.threads && TopHeld(s.threads[t].pc) && !Acquiring(s.threads[t].pc)
    requires j >= 2 ==> Parent(j) in Done(s) ==> Parent(j) == s.threads[t].top
    ensures forall u | u in s.threads :: !Fills(s, u, j)
  {
    forall u | u in s.threads ensures !Fills(s, u, j) {
      if u != t { assert HoldsForWriting(s.threads[u], s.threads[t].top) ==> !Holds(s.threads[t], s.threads[t].top); }
    }
  }

  lemma NoneUnderOwn(done: set<nat>, h: nat, top: nat, j: nat)
    requires NoneDoneUnder(done, h, top) && j in done && OnPath(j, h)
    ensures j <= top
  {
    OwnPath(j);
  }

  lemma DeeperIsUnfinished(v: View, a: Abs, th: Thread)
    requires Stored(v.buckets, a) && Placed(v, a)
    requires th.op.key in a.loc && th.top in v.done && OnPath(th.top, KeyHash(v, th))
    requires !Present(v, th) && Deepest(v, th)
    ensures var j := a.loc[th.op.key];
            j !in v.done && IsChain(v.buckets, j) && v.buckets[j].nodes != []
            && (j >= 2 ==> Parent(j) in v.done ==> Parent(j) == th.top)
  {
    var j := a.loc[th.op.key];
    var h := KeyHash(v, th);
    assert IsChain(v.buckets, j) && HasKey(v.buckets[j].nodes, th.op.key);
    NoneUnderOwn(v.done, h, j, th.top);
    assert th.top < j;
    PathBetween(th.top, j, h);
    PathParent(j, h);
    if j in v.done { NoneUnderOwn(v.done, h, th.top, j); }
    if Parent(j) in v.done { NoneUnderOwn(v.done, h, th.top, Parent(j)); }
  }

  ghost predicate Fills(s: State, u: Tid, j: nat)
    requires u in s.threads
  {
    var th := s.threads[u];
    j >= 2 && j in th.work && th.top == Parent(j) && th.pc.Scan? && th.mode == Wr && Parent(j) in Done(s)
  }

  /** A bucket that holds nodes but is not finished is being filled from its parent, under the
      parent's write lock. */
  lemma FillerHoldsParent(s: State, j: nat, a: Abs)
    requires Inv(s, a) && IsChain(s.buckets, j) && j !in Done(s) && s.buckets[j].nodes != []
    ensures j >= 2
    ensures exists u :: u in s.threads && Fills(s, u, j)
  {
    assert !NobodyFills(s, j);
    var u :| u in s.threads && j in s.threads[u].work;
    var w := s.threads[u];
    assert ThreadOk(ViewOf(s), w);
    var i :| 0 <= i < |w.work| && w.work[i] == j;
    assert !EmptyAt(s.buckets, w.work[i]);
    assert j == Child(w);
    HeldIsDone(s, u);
    assert Fills(s, u, j);
  }

  // ---------------------------------------------------------------- steps of one thread

  lemma ThreadAt(s: State, a: Abs, t: Tid)
    requires Inv(s, a) && t in s.threads
    ensures ThreadOk(ViewOf(s), s.threads[t]) && LockOk(s, t, s.threads[t])
    ensures Shape(s) && Mutex(s) && Marked(s) && AllThreads(s)
  {
    HeldExcludes(s, t);
  }

  lemma InvokeStep(s: State, s': State, t: Tid, e: Event, a: Abs)
    requires Inv(s, a) && t in s.threads && Invoke(s, s', t, e, s.threads[t])
    ensures Inv(s', a) && e == Tau
  {
    LocalStep(s, s', t, s'.threads[t], a);
  }

  lemma StillAcquiring(v: View, th: Thread, th': Thread)
    requires AcquiringOk(v, th) && !th.pc.Scan?
    requires th' == th.(pc := th'.pc, mode := th'.mode)
    requires th'.pc == TryLock || th'.pc == Lock || (th'.pc == Recheck && th'.mode == Wr)
    ensures ThreadOk(v, th')
  {
    assert WorkOk(v, th');
  }

  lemma ProbeStep(s: State, s': State, t: Tid, e: Event, a: Abs)
    requires Inv(s, a) && t in s.threads && StepProbe(s, s', t, e, s.threads[t])
    ensures Inv(s', a) && e == Tau
  {
    ThreadAt(s, a, t);
    StillAcquiring(ViewOf(s), s.threads[t], s'.threads[t]);
    LocalStep(s, s', t, s'.threads[t], a);
  }

  /** No bucket's parent is beyond the newest mask. */
  lemma ParentsWithin(s: State)
    requires |s.buckets| == Pow2(s.k)
    ensures ParentsDone(Done(s), s.k)
  {
  }

  /** A thread that starts over goes for the bucket its mask selects. */
  lemma FreshOk(v: View, th: Thread, m: nat)
    requires 1 <= m <= v.k && |v.buckets| == Pow2(v.k) && ParentsDone(v.done, m)
    requires th.work == [] && th.pc == Probe && th.m == m && th.res == None && th.grow == None
    requires th.top == KeyHash(v, th) % Pow2(m)
    ensures ThreadOk(v, th)
  {
    MaskOnPath(KeyHash(v, th), m);
    Pow2Monotone(m, v.k);
  }

  lemma LoadMaskStep(s: State, s': State, t: Tid, e: Event, a: Abs)
    requires Inv(s, a) && t in s.threads && StepLoadMask(s, s', t, e, s.threads[t])
    ensures Inv(s', a) && e == Tau
  {
    ThreadAt(s, a, t);
    ParentsWithin(s);
    FreshOk(ViewOf(s), s'.threads[t], s.k);
    LocalStep(s, s', t, s'.threads[t], a);
  }

  lemma TryLockStep(s: State, s': State, t: Tid, e: Event, a: Abs)
    requires Inv(s, a) && t in s.threads && StepTryLock(s, s', t, e, s.threads[t])
    ensures Inv(s', a) && e == Tau
  {
    hide Stored, Placed, Settled, Mutex, Marked, OneGrower, Done, UsingOk, WorkOk, ParentsDone, Pow2, OnPath;
    ThreadAt(s, a, t);
    if !NoOtherHolder(s, t, s.threads[t].top) { TryLockFailed(s, t); }
    StillAcquiring(ViewOf(s), s.threads[t], s'.threads[t]);
    LocalStep(s, s', t, s'.threads[t], a);
  }

  /** Getting hold of a rehashed bucket continues the innermost rehash or the operation. */
  lemma AcquiredOk(v: View, th: Thread, th': Thread)
    requires AcquiringOk(v, th) && IsChain(v.buckets, th.top)
    requires th.pc == Lock || th.pc == Recheck || th.pc == Relock
    requires th' == th.(pc := Acquired(th.work), mode := th'.mode)
    ensures ThreadOk(v, th')
  {
    if th.work == [] { MaskOnPath(KeyHash(v, th), th.m); } else { assert WorkOk(v, th'); }
  }

  lemma LockStep(s: State, s': State, t: Tid, e: Event, a: Abs)
    requires Inv(s, a) && t in s.threads && StepLock(s, s', t, e, s.threads[t])
    ensures Inv(s', a) && e == Tau
  {
    ThreadAt(s, a, t);
    ReadLockedIsChain(s, t);
    AcquiredOk(ViewOf(s), s.threads[t], s'.threads[t]);
    LocalStep(s, s', t, s'.threads[t], a);
  }

  lemma RelockStep(s: State, s': State, t: Tid, e: Event, a: Abs)
    requires Inv(s, a) && t in s.threads && StepRelock(s, s', t, e, s.threads[t])
    ensures Inv(s', a) && e == Tau
  {
    ThreadAt(s, a, t);
    AcquiredOk(ViewOf(s), s.threads[t], s'.threads[t]);
    LocalStep(s, s', t, s'.threads[t], a);
  }

  lemma HolderMarks(v: View, th: Thread, j: nat)
    requires ThreadOk(v, th) && Holds(th, j)
    ensures IsChain(v.buckets, j) || (th.pc == Recheck && th.top == j)
  {
  }

  /** Whoever keeps a thread from trying the lock of an unmarked bucket is about to mark it. */
  lemma TryLockFailed(s: State, t: Tid)
    requires t in s.threads && s.threads[t].pc == TryLock
    requires AllThreads(s)
    requires !NoOtherHolder(s, t, s.threads[t].top)
    ensures IsChain(s.buckets, s.threads[t].top) || Marker(s, s.threads[t].top)
  {
    hide Done, ThreadOk, Holds;
    var j := s.threads[t].top;
    var u :| u in s.threads && u != t && Holds(s.threads[u], j);
    HolderMarks(ViewOf(s), s.threads[u], j);
  }

  lemma ReadLockedIsChain(s: State, t: Tid)
    requires t in s.threads && s.threads[t].pc == Lock && Marked(s)
    requires AllThreads(s)
    requires NoOtherWriter(s, t, s.threads[t].top)
    ensures IsChain(s.buckets, s.threads[t].top)
  {
    var j := s.threads[t].top;
    if Marker(s, j) {
      var u :| u in s.threads && s.threads[u].pc == Recheck && s.threads[u].top == j;
      assert ThreadOk(ViewOf(s), s.threads[u]);
      assert HoldsForWriting(s.threads[u], j);
    }
  }

  lemma ScanOnOk(v: View, th: Thread)
    requires AcquiringOk(v, th) && th.pc.Scan? && th.pc.pos < |v.buckets[th.top].nodes|
    requires !OnPath(Child(th), v.hash(v.buckets[th.top].nodes[th.pc.pos].key))
    ensures ThreadOk(v, th.(pc := Scan(th.pc.pos + 1)))
  {
    var th' := th.(pc := Scan(th.pc.pos + 1));
    assert WorkOk(v, th');
    assert ScanOk(v, th');
  }

  lemma ScanStep(s: State, s': State, t: Tid, e: Event, a: Abs)
    requires Inv(s, a) && t in s.threads && StepScan(s, s', t, e, s.threads[t])
    ensures Inv(s', a) && e == Tau
  {
    hide Stored, Placed, Settled, Mutex, Marked, OneGrower, Done, UsingOk, WorkOk, Inv;
    ThreadAt(s, a, t);
    ScanOnOk(ViewOf(s), s.threads[t]);
    LocalStep(s, s', t, s'.threads[t], a);
  }

  lemma ScanUpgradeStep(s: State, s': State, t: Tid, e: Event, a: Abs)
    requires Inv(s, a) && t in s.threads && StepScanUpgrade(s, s', t, e, s.threads[t])
    ensures Inv(s', a) && e == Tau
  {
    ThreadAt(s, a, t);
    ScanUpgradeOk(ViewOf(s), s.threads[t], s'.threads[t]);
    LocalStep(s, s', t, s'.threads[t], a);
  }

  lemma ScanUpgradeOk(v: View, th: Thread, th': Thread)
    requires AcquiringOk(v, th) && th.pc.Scan? && th.mode == Rd
    requires th' == th.(mode := Wr) || th' == th.(pc := Relock)
    ensures ThreadOk(v, th')
  {
    assert WorkOk(v, th');
  }

  /** Someone else had already rehashed the bucket. */
  lemma RecheckKeeps(s: State, s': State, t: Tid, e: Event, a: Abs)
    requires Inv(s, a) && t in s.threads
    requires StepRecheck(s, s', t, e, s.threads[t]) && s.buckets[s.threads[t].top].Chain?
    ensures Inv(s', a) && e == Tau
  {
    ThreadAt(s, a, t);
    AcquiredOk(ViewOf(s), s.threads[t], s'.threads[t]);
    LocalStep(s, s', t, s'.threads[t], a);
  }

  lemma SearchStep(s: State, s': State, t: Tid, e: Event, a: Abs)
    requires Inv(s, a) && t in s.threads && StepSearch(s, s', t, e, s.threads[t])
    ensures Inv(s', a) && SpecStep(a.contents, e, a.contents)
  {
    hide Stored, Placed, Settled, Mutex, Marked, OneGrower, Done, AcquiringOk, WorkOk;
    HeldExcludes(s, t);
    var th := s.threads[t];
    if e.Commit? {
      StoredMeansKey(s, a, th.top, th.op.key);
      HitAgrees(s, a, th.top, th.op, e.res);
    }
    LocalStep(s, s', t, s'.threads[t], a);
  }

  lemma HitAgrees(s: State, a: Abs, j: nat, op: Op, r: Result)
    requires Stored(s.buckets, a) && IsChain(s.buckets, j) && IsHit(op, s.buckets[j].nodes, r)
    requires op.key in a.loc
    ensures SpecStep(a.contents, Commit(op, r), a.contents)
  {
    if op.Find? {
      var i :| 0 <= i < |s.buckets[j].nodes| && s.buckets[j].nodes[i] == Node(op.key, r.val);
      assert NodeAt(s.buckets[j].nodes[i], j, a);
    }
  }

  lemma UpgradeOk(v: View, th: Thread, th': Thread)
    requires UsingOk(v, th) && th.pc == Upgrade
    requires th' == th.(pc := if th.op.Erase? then Unlink else CheckMask(Absent), mode := Wr)
             || th' == th.(pc := UpgradeWait)
    ensures ThreadOk(v, th')
  {
  }

  lemma UpgradeStep(s: State, s': State, t: Tid, e: Event, a: Abs)
    requires Inv(s, a) && t in s.threads && StepUpgrade(s, s', t, e, s.threads[t])
    ensures Inv(s', a) && e == Tau
  {
    ThreadAt(s, a, t);
    UpgradeOk(ViewOf(s), s.threads[t], s'.threads[t]);
    LocalStep(s, s', t, s'.threads[t], a);
  }

  lemma UpgradeWaitStep(s: State, s': State, t: Tid, e: Event, a: Abs)
    requires Inv(s, a) && t in s.threads && StepUpgradeWait(s, s', t, e, s.threads[t])
    ensures Inv(s', a) && e == Tau
  {
    hide Stored, Placed, Settled, Mutex, Marked, OneGrower, AllThreads, Done, AcquiringOk, ParentsDone, NoneDoneUnder,
         NoneDoneBetween, LockOk, Pow2, OnPath;
    ThreadAt(s, a, t);
    UpgradedOk(s, t, ViewOf(s), s.threads[t], s'.threads[t]);
    LocalStep(s, s', t, s'.threads[t], a);
  }

  lemma UpgradedOk(s: State, t: Tid, v: View, th: Thread, th': Thread)
    requires ThreadOk(v, th) && th.pc == UpgradeWait && NoOtherHolder(s, t, th.top)
    requires th' == th.(pc := if th.op.Erase? then CheckMask(Contended) else Search, mode := Wr)
    ensures ThreadOk(v, th') && LockOk(s, t, th')
  {
    hide ParentsDone, NoneDoneUnder, NoneDoneBetween, Pow2, OnPath, IsChain, NoOtherHolder, NoOtherWriter;
  }

  lemma CountOk(v: View, th: Thread, size: int)
    requires UsingOk(v, th) && th.pc == Count
    ensures ThreadOk(v, th.(pc := Link(size)))
  {
  }

  lemma CountStep(s: State, s': State, t: Tid, e: Event, a: Abs)
    requires Inv(s, a) && t in s.threads && StepCount(s, s', t, e, s.threads[t])
    ensures Inv(s', a) && e == Tau
  {
    ThreadAt(s, a, t);
    CountOk(ViewOf(s), s.threads[t], s.size + 1);
    LocalStep(s, s', t, s'.threads[t], a);
  }

  lemma ReleaseStep(s: State, s': State, t: Tid, e: Event, a: Abs)
    requires Inv(s, a) && t in s.threads && StepRelease(s, s', t, e, s.threads[t])
    ensures Inv(s', a) && e == Tau
  {
    hide Stored, Placed, Settled, Mutex, Marked, OneGrower, Done, AcquiringOk, ParentsDone, Guard, Pow2, OnPath;
    LocalStep(s, s', t, s'.threads[t], a);
  }

  // ---------------------------------------------------------------- the mask race

  /** If the new mask cuts the hash code as the old one did, the guard extends to the new mask. */
  lemma GuardSameCut(v: View, th: Thread)
    requires 1 <= th.m <= v.k && Guard(v, th)
    requires KeyHash(v, th) % Pow2(th.m) == KeyHash(v, th) % Pow2(v.k)
    ensures Guard(v, th.(m := v.k))
  {
    var h := KeyHash(v, th);
    if th.top != h % Pow2(th.m) {
      forall p: nat, x: nat | x in v.done && OnPath(p, x) && OnPath(p, h) && th.top < p ensures Pow2(v.k) <= p {
        SameCutNoBetween(h, th.m, v.k, p);
      }
    }
  }

  lemma GuardIsDeepest(v: View, th: Thread)
    requires th.m == v.k >= 1 && |v.buckets| == Pow2(v.k) && Guard(v, th)
    requires forall j | j in v.done :: j < |v.buckets|
    ensures Deepest(v, th)
  {
    var h := KeyHash(v, th);
    forall p: nat, x: nat | x in v.done && OnPath(p, x) && OnPath(p, h) ensures p <= th.top {
      PathIsBelow(p, x);
      MaskIsLast(p, h, v.k);
    }
  }

  /** A finished bucket has finished ancestors beyond the thread's mask. */
  lemma {:induction false} DoneBelow(done: set<nat>, m: nat, i: nat, j: nat, h: nat)
    requires ParentsDone(done, m) && Pow2(m) <= i && j in done && OnPath(i, h) && OnPath(j, h) && i <= j
    ensures i in done
    decreases j
  {
    if i < j {
      PathBetween(i, j, h);
      PathParent(j, h);
      DoneBelow(done, m, i, Parent(j), h);
    }
  }

  lemma ParentsDoneOn(done: set<nat>, m: nat, m': nat)
    requires ParentsDone(done, m) && m <= m'
    ensures ParentsDone(done, m')
  {
    Pow2Monotone(m, m');
  }

  lemma BeyondMask(v: View, th: Thread, p: nat, x: nat)
    requires th.m >= 1 && Guard(v, th) && x in v.done && OnPath(p, x) && OnPath(p, KeyHash(v, th)) && th.top < p
    ensures Pow2(th.m) <= p
  {
    if p < Pow2(th.m) { MaskIsLast(p, KeyHash(v, th), th.m); }
  }

  lemma PathThrough(i: nat, p: nat, x: nat)
    requires OnPath(i, p) && OnPath(p, x)
    ensures OnPath(i, x) && OnPath(x, x) && i <= p <= x
  {
    OwnPath(x);
    PathIsBelow(i, p);
    PathIsBelow(p, x);
    LevelMonotone(i, p);
    ModMod(x, Level(i), Level(p));
  }

  /** The bucket check: if the next bucket of the path is still unmarked, no deeper one is finished. */
  lemma GuardUnmarkedNext(v: View, th: Thread, hi: nat)
    requires 1 <= th.m < hi && Guard(v, th) && ParentsDone(v.done, th.m)
    requires KeyHash(v, th) % Pow2(th.m) != KeyHash(v, th) % Pow2(hi)
    requires OnPath(th.top, KeyHash(v, th))
    requires NextOnPath(KeyHash(v, th), th.m, hi) !in v.done
    ensures Deepest(v, th)
  {
    hide Guard, ParentsDone, OnPath, Level, Pow2, Parent, NextOnPath;
    var h := KeyHash(v, th);
    var next := NextOnPath(h, th.m, hi);
    NextOnPathIsNext(h, th.m, hi);
    if next < Pow2(th.m) { MaskIsLast(next, h, th.m); }
    forall p: nat, x: nat | x in v.done && OnPath(p, x) && OnPath(p, h) ensures p <= th.top {
      if th.top < p {
        BeyondMask(v, th, p, x);
        PathOfPath(next, p, h);
        PathThrough(next, p, x);
        DoneBelow(v.done, th.m, next, x, x);
      }
    }
  }

  /** With no deeper bucket finished, a passed check lets the operation go on. */
  lemma PassedOk(v: View, th: Thread, th': Thread, why: Why, m: nat)
    requires UsingOk(v, th) && CheckOk(v, th, why) && Deepest(v, th) && th.m <= m <= v.k
    requires th.pc == CheckMask(why) || (th.pc.CheckBucket? && th.pc.why == why)
    requires var th1 := th.(m := m);
             if why == Contended then th' == th1.(pc := Search)
             else if th.op.Insert? then th' == th1.(pc := Count)
             else th' == th1.(pc := Release, res := Some(NotFound))
    ensures ThreadOk(v, th')
  {
    assert th'.top == th.top && KeyHash(v, th') == KeyHash(v, th);
    ParentsDoneOn(v.done, th.m, m);
    if why == Contended {
      assert NoneDoneBetween(v, KeyHash(v, th), th.top, Pow2(m));
    }
  }

  lemma PassedStep(s: State, s': State, t: Tid, e: Event, a: Abs, why: Why, m: nat)
    requires Inv(s, a) && t in s.threads
    requires var th := s.threads[t];
             (th.pc == CheckMask(why) || (th.pc.CheckBucket? && th.pc.why == why))
             && th.m <= m <= s.k && Deepest(ViewOf(s), th) && Passed(s, s', t, e, th.(m := m), why)
    ensures Inv(s', a) && SpecStep(a.contents, e, a.contents)
  {
    var th := s.threads[t];
    ThreadAt(s, a, t);
    if e.Commit? { AbsentEverywhere(s, t, a); }
    PassedOk(ViewOf(s), th, s'.threads[t], why, m);
    LocalStep(s, s', t, s'.threads[t], a);
  }

  lemma ToCheckBucketOk(v: View, th: Thread, why: Why)
    requires UsingOk(v, th) && th.pc == CheckMask(why) && th.m != v.k
    requires KeyHash(v, th) % Pow2(th.m) != KeyHash(v, th) % Pow2(v.k)
    ensures ThreadOk(v, th.(pc := CheckBucket(NextOnPath(KeyHash(v, th), th.m, v.k), v.k, why)))
  {
    assert Guard(v, th.(pc := CheckBucket(NextOnPath(KeyHash(v, th), th.m, v.k), v.k, why)));
  }

  lemma CheckMaskStep(s: State, s': State, t: Tid, e: Event, a: Abs)
    requires Inv(s, a) && t in s.threads && StepCheckMask(s, s', t, e, s.threads[t])
    ensures Inv(s', a) && SpecStep(a.contents, e, a.contents)
  {
    var th := s.threads[t];
    var v := ViewOf(s);
    ThreadAt(s, a, t);
    if KeyHash(v, th) % Pow2(th.m) == KeyHash(v, th) % Pow2(s.k) {
      GuardSameCut(v, th);
      GuardIsDeepest(v, th.(m := s.k));
      PassedStep(s, s', t, e, a, th.pc.why, s.k);
    } else {
      ToCheckBucketOk(v, th, th.pc.why);
      LocalStep(s, s', t, s'.threads[t], a);
    }
  }

  lemma CheckBucketStep(s: State, s': State, t: Tid, e: Event, a: Abs)
    requires Inv(s, a) && t in s.threads && StepCheckBucket(s, s', t, e, s.threads[t])
    ensures Inv(s', a) && SpecStep(a.contents, e, a.contents)
  {
    hide Inv, Stored, Placed, Settled, Mutex, Marked, OneGrower, AllThreads, Deepest, AcquiringOk;
    var th := s.threads[t];
    var v := ViewOf(s);
    ThreadAt(s, a, t);
    if s.buckets[th.pc.next].RehashReq? {
      assert th.pc.next !in v.done;
      GuardUnmarkedNext(v, th, th.pc.mask);
      hide Done;
      PassedStep(s, s', t, e, a, th.pc.why, th.pc.mask);
    } else {
      hide Done;
      ParentsDoneOn(v.done, th.m, th.pc.mask);
      FreshOk(v, s'.threads[t], th.pc.mask);
      LocalStep(s, s', t, s'.threads[t], a);
    }
  }

  // ---------------------------------------------------------------- steps that change buckets

  /** Finishing bucket j does not invalidate what a writer knows about the deeper buckets. */
  ghost predicate FinishHarmless(v: View, th: Thread, j: nat) {
    TopHeld(th.pc) && !Acquiring(th.pc) && th.mode == Wr ==>
      forall p: nat :: OnPath(p, j) && OnPath(p, KeyHash(v, th)) && th.top < p ==>
        && !Deepest(v, th)
        && (NoneDoneBetween(v, KeyHash(v, th), th.top, Pow2(th.m)) ==> Pow2(th.m) <= p)
  }

  /** Buckets are finished after their parents, and stay so. */
  ghost predicate MoreDone(done: set<nat>, done': set<nat>) {
    done <= done' && forall j | j in done' && j !in done :: j >= 2 && Parent(j) in done
  }

  /** What other threads rely on: the buckets they hold, the marks, and which buckets are finished. */
  lemma OtherThread(v: View, v': View, th: Thread)
    requires ThreadOk(v, th)
    requires v'.hash == v.hash && v.k <= v'.k && |v.buckets| <= |v'.buckets|
    requires forall j | IsChain(v.buckets, j) :: IsChain(v'.buckets, j)
    requires forall j: nat | IsChain(v.buckets, j) && Holds(th, j) :: v'.buckets[j] == v.buckets[j]
    requires MoreDone(v.done, v'.done)
    requires forall j | j in v'.done && j !in v.done :: FinishHarmless(v, th, j)
    ensures ThreadOk(v', th)
  {
    if Acquiring(th.pc) {
      assert WorkOk(v', th);
    } else if !Outside(th.pc) {
      if th.pc != UpgradeWait {
        assert Holds(th, th.top);
        OtherGuard(v, v', th);
      }
    }
  }

  lemma OtherGuard(v: View, v': View, th: Thread)
    requires v'.hash == v.hash
    requires forall j | j in v'.done && j !in v.done :: FinishHarmless(v, th, j)
    requires TopHeld(th.pc) && !Acquiring(th.pc)
    ensures Guard(v, th) ==> Guard(v', th)
    ensures th.mode == Wr && Deepest(v, th) ==> Deepest(v', th)
  {
  }

  /** The other threads keep their local invariants if no bucket they hold changes and no bucket
      that some writer relies on being unfinished gets finished. */
  lemma OthersKept(s: State, s': State, t: Tid)
    requires t in s.threads && s'.threads.Keys == s.threads.Keys
    requires AllThreads(s)
    requires forall u | u in s.threads && u != t :: s'.threads[u] == s.threads[u]
    requires s'.hash == s.hash && s.k <= s'.k && |s.buckets| <= |s'.buckets|
    requires forall j | IsChain(s.buckets, j) :: IsChain(s'.buckets, j)
    requires forall u, j: nat | u in s.threads && u != t && IsChain(s.buckets, j) && Holds(s.threads[u], j) ::
               s'.buckets[j] == s.buckets[j]
    requires MoreDone(Done(s), Done(s'))
    requires forall u, j | u in s.threads && u != t && j in Done(s') && j !in Done(s) ::
               FinishHarmless(ViewOf(s), s.threads[u], j)
    ensures forall u | u in s'.threads && u != t :: ThreadOk(ViewOf(s'), s'.threads[u])
  {
    forall u | u in s'.threads && u != t ensures ThreadOk(ViewOf(s'), s'.threads[u]) {
      assert forall j | j in Done(s') && j !in Done(s) :: FinishHarmless(ViewOf(s), s.threads[u], j);
      OtherThread(ViewOf(s), ViewOf(s'), s.threads[u]);
    }
  }

  /** After a step of t, a thread that waits for an unmarked bucket still has a marker to wait for,
      if t did not leave one unmarked. */
  lemma MarkedAfter(s: State, s': State, t: Tid)
    requires Marked(s) && t in s.threads && t in s'.threads && s'.threads == s.threads[t := s'.threads[t]]
    requires forall j | IsChain(s.buckets, j) :: IsChain(s'.buckets, j)
    requires s.threads[t].pc == Recheck ==> IsChain(s'.buckets, s.threads[t].top)
    requires s'.threads[t].pc != Lock
    ensures Marked(s')
  {
    forall u | u in s'.threads && s'.threads[u].pc == Lock
      ensures IsChain(s'.buckets, s'.threads[u].top) || Marker(s', s'.threads[u].top)
    {
      var j := s'.threads[u].top;
      if !IsChain(s'.buckets, j) {
        assert u in s.threads && s.threads[u].pc == Lock && Marker(s, j);
        var w :| w in s.threads && s.threads[w].pc == Recheck && s.threads[w].top == j;
        assert w in s'.threads && s'.threads[w].pc == Recheck;
      }
    }
  }

  /** A thread that holds no more than before keeps mutual exclusion. */
  lemma MutexShrinks(s: State, s': State, t: Tid, th': Thread)
    requires t in s.threads && Mutex(s) && s'.threads == s.threads[t := th']
    requires forall j | Holds(th', j) :: Holds(s.threads[t], j)
    requires forall j | HoldsForWriting(th', j) :: HoldsForWriting(s.threads[t], j)
    ensures Mutex(s')
  {
    forall u, w, j | u in s'.threads && w in s'.threads && u != w && HoldsForWriting(s'.threads[u], j)
      ensures !Holds(s'.threads[w], j)
    {
      assert HoldsForWriting(s.threads[u], j);
      assert !Holds(s.threads[w], j);
    }
  }

  lemma OneGrowerKept(s: State, s': State, t: Tid, th': Thread)
    requires OneGrower(s) && t in s.threads && s'.threads == s.threads[t := th']
    requires s'.k == s.k && s'.claimed == s.claimed && th'.grow == s.threads[t].grow
    ensures OneGrower(s')
  {
    if s.k in s.claimed {
      var u :| u in s.threads && s.threads[u].grow.Some?;
      assert u in s'.threads && s'.threads[u].grow.Some?;
    }
  }

  lemma SameDone(s: State, s': State, a: Abs)
    requires Placed(ViewOf(s), a) && Settled(ViewOf(s))
    requires Done(s') == Done(s) && s'.hash == s.hash && s'.k == s.k
    ensures Placed(ViewOf(s'), a) && Settled(ViewOf(s'))
  {
    hide Done, NoneDoneUnder, InLast, OnPath;
  }

  // Marking a bucket.

  lemma MarkDone(s: State, s': State, t: Tid)
    requires t in s.threads && s.threads[t].top < |s.buckets| && s.buckets[s.threads[t].top].RehashReq?
    requires StepRecheck(s, s', t, Tau, s.threads[t])
    ensures Done(s') == Done(s)
  {
    var top := s.threads[t].top;
    assert top in s'.threads[t].work;
    forall j ensures IsDone(s', j) <==> IsDone(s, j) {
      if NobodyFills(s, j) && j != top { assert NobodyFills(s', j); }
      if NobodyFills(s', j) {
        forall u | u in s.threads ensures j !in s.threads[u].work {
          assert j !in s'.threads[u].work;
        }
      }
    }
  }

  lemma MarkOk(v: View, v': View, th: Thread)
    requires AcquiringOk(v, th) && th.pc == Recheck && v.buckets[th.top].RehashReq? && th.top >= 2
    requires v' == v.(buckets := v.buckets[th.top := Chain([])])
    ensures ThreadOk(v', th.(pc := Probe, work := th.work + [th.top], top := Parent(th.top)))
  {
    hide ParentsDone, ScanOk, UsingOk, OnPath, Pow2, Parent;
    var th' := th.(pc := Probe, work := th.work + [th.top], top := Parent(th.top));
    forall i | 0 <= i < |th'.work|
      ensures th'.work[i] >= 2 && th'.top < th'.work[i] && EmptyAt(v'.buckets, th'.work[i])
    {
      if i < |th.work| {
        assert th'.work[i] == th.work[i];
        assert EmptyAt(v.buckets, th.work[i]);
      }
    }
    forall i, j | 0 <= i < j < |th'.work| ensures th'.work[j] < th'.work[i] {
      assert th'.work[i] == th.work[i];
    }
    forall i | 0 <= i < |th'.work| - 1 ensures th'.work[i + 1] == Parent(th'.work[i]) {
      assert th'.work[i] == th.work[i];
    }
    assert WorkOk(v', th');
  }

  lemma StoredWithEmpty(buckets: seq<Bucket>, a: Abs, j: nat)
    requires Stored(buckets, a) && j < |buckets| && buckets[j].RehashReq?
    ensures Stored(buckets[j := Chain([])], a)
  {
  }

  lemma MarkThreads(s: State, s': State, t: Tid)
    requires AllThreads(s) && Mutex(s) && t in s.threads
    requires s.threads[t].top < |s.buckets| && s.buckets[s.threads[t].top].RehashReq?
    requires StepRecheck(s, s', t, Tau, s.threads[t])
    ensures AllThreads(s')
  {
    hide Done, UsingOk, Mutex, FinishHarmless, ScanOk, Pow2, OnPath, WorkOk;
    MarkDone(s, s', t);
    MarkOk(ViewOf(s), ViewOf(s'), s.threads[t]);
    OthersKept(s, s', t);
  }

  lemma MarkMutex(s: State, s': State, t: Tid)
    requires Mutex(s) && t in s.threads && StepRecheck(s, s', t, Tau, s.threads[t])
    requires s.threads[t].top < |s.buckets| && s.buckets[s.threads[t].top].RehashReq?
    requires HoldsForWriting(s.threads[t], s.threads[t].top)
    ensures Mutex(s')
  {
    hide Mutex;
    MutexShrinks(s, s', t, s'.threads[t]);
  }

  lemma MarkStep(s: State, s': State, t: Tid, e: Event, a: Abs)
    requires Inv(s, a) && t in s.threads
    requires StepRecheck(s, s', t, e, s.threads[t]) && s.buckets[s.threads[t].top].RehashReq?
    ensures Inv(s', a) && e == Tau
  {
    hide Done, Settled, Placed, ScanOk, UsingOk, Mutex, OneGrower, Stored;
    MarkDone(s, s', t);
    SameDone(s, s', a);
    MarkThreads(s, s', t);
    MarkMutex(s, s', t);
    MarkedAfter(s, s', t);
    OneGrowerKept(s, s', t, s'.threads[t]);
    StoredWithEmpty(s.buckets, a, s.threads[t].top);
  }

  // Moving a node from the parent to the bucket being filled.

  lemma {:induction false} WithoutHas(nodes: seq<Node>, i: nat, key: Key)
    requires i < |nodes|
    requires forall p, q :: 0 <= p < q < |nodes| ==> nodes[p].key != nodes[q].key
    ensures HasKey(Without(nodes, i), key) <==> HasKey(nodes, key) && key != nodes[i].key
  {
    var rest := Without(nodes, i);
    if HasKey(nodes, key) && key != nodes[i].key {
      var p :| 0 <= p < |nodes| && nodes[p].key == key;
      assert rest[if p < i then p else p - 1].key == key;
    }
    if HasKey(rest, key) {
      var p :| 0 <= p < |rest| && rest[p].key == key;
      assert rest[p] == nodes[if p < i then p else p + 1];
    }
  }

  lemma StoredRemoved(buckets: seq<Bucket>, a: Abs, j: nat, i: nat, a': Abs)
    requires Stored(buckets, a) && IsChain(buckets, j) && i < |buckets[j].nodes|
    requires var key := buckets[j].nodes[i].key; a' == Abs(a.contents - {key}, a.loc - {key})
    ensures Stored(buckets[j := Chain(Without(buckets[j].nodes, i))], a')
  {
    var nodes := buckets[j].nodes;
    var key := nodes[i].key;
    var rest := Without(nodes, i);
    var buckets' := buckets[j := Chain(rest)];
    assert NodeAt(nodes[i], j, a);
    forall x: nat, p | IsChain(buckets', x) && 0 <= p < |buckets'[x].nodes|
      ensures NodeAt(buckets'[x].nodes[p], x, a')
    {
      if x == j {
        var q := if p < i then p else p + 1;
        assert rest[p] == nodes[q] && NodeAt(nodes[q], j, a);
      } else {
        assert NodeAt(buckets[x].nodes[p], x, a);
      }
    }
    forall key' | key' in a'.loc
      ensures IsChain(buckets', a'.loc[key']) && HasKey(buckets'[a'.loc[key']].nodes, key')
    {
      WithoutHas(nodes, i, key');
    }
  }

  lemma StoredAdded(buckets: seq<Bucket>, a: Abs, j: nat, n: Node, a': Abs)
    requires Stored(buckets, a) && IsChain(buckets, j) && n.key !in a.loc
    requires a' == Abs(a.contents[n.key := n.val], a.loc[n.key := j])
    ensures Stored(buckets[j := Chain([n] + buckets[j].nodes)], a')
  {
    var nodes := buckets[j].nodes;
    var buckets' := buckets[j := Chain([n] + nodes)];
    forall x: nat, p | IsChain(buckets', x) && 0 <= p < |buckets'[x].nodes|
      ensures NodeAt(buckets'[x].nodes[p], x, a')
    {
      if x == j {
        if p > 0 { assert buckets'[x].nodes[p] == nodes[p - 1] && NodeAt(nodes[p - 1], j, a); }
      } else {
        assert NodeAt(buckets[x].nodes[p], x, a);
      }
    }
    forall x: nat, p, q | IsChain(buckets', x) && 0 <= p < q < |buckets'[x].nodes|
      ensures buckets'[x].nodes[p].key != buckets'[x].nodes[q].key
    {
      if x == j {
        assert buckets'[x].nodes[q] == nodes[q - 1] && NodeAt(nodes[q - 1], j, a);
      }
    }
    forall key | key in a'.loc
      ensures IsChain(buckets', a'.loc[key]) && HasKey(buckets'[a'.loc[key]].nodes, key)
    {
      AddedHas(nodes, n, key);
    }
  }

  lemma AddedHas(nodes: seq<Node>, n: Node, key: Key)
    ensures HasKey([n] + nodes, key) <==> key == n.key || HasKey(nodes, key)
  {
    if HasKey(nodes, key) {
      var p :| 0 <= p < |nodes| && nodes[p].key == key;
      assert ([n] + nodes)[p + 1].key == key;
    }
    if key == n.key { assert ([n] + nodes)[0].key == key; }
  }

  lemma MoveDone(s: State, s': State, t: Tid)
    requires t in s.threads && AtNode(s, s.threads[t], true) && s' == s.(buckets := Moved(s, s.threads[t]))
    ensures Done(s') == Done(s)
  {
    forall j ensures IsDone(s', j) <==> IsDone(s, j) {
      assert NobodyFills(s', j) <==> NobodyFills(s, j);
    }
  }

  lemma MoveOk(v: View, v': View, th: Thread)
    requires AcquiringOk(v, th) && th.pc.Scan? && th.mode == Wr
    requires th.pc.pos < |v.buckets[th.top].nodes|
    requires |v'.buckets| == |v.buckets| && v' == v.(buckets := v'.buckets)
    requires forall j: nat | j < |v.buckets| && j != th.top && j != Child(th) :: v'.buckets[j] == v.buckets[j]
    requires v'.buckets[th.top] == Chain(Without(v.buckets[th.top].nodes, th.pc.pos))
    requires v'.buckets[Child(th)].Chain?
    ensures ThreadOk(v', th)
  {
    forall i | 0 <= i < |th.work|
      ensures IsChain(v'.buckets, th.work[i]) && (i < |th.work| - 1 ==> EmptyAt(v'.buckets, th.work[i]))
    {
      if i < |th.work| - 1 {
        assert EmptyAt(v.buckets, th.work[i]) && th.work[i] != Child(th);
      }
    }
    assert WorkOk(v', th);
    assert ScanOk(v', th);
  }

  lemma MoveThreads(s: State, s': State, t: Tid)
    requires AllThreads(s) && Mutex(s) && t in s.threads && StepMove(s, s', t, Tau, s.threads[t])
    ensures AllThreads(s')
  {
    var th := s.threads[t];
    MoveDone(s, s', t);
    MoveOk(ViewOf(s), ViewOf(s'), th);
    assert HoldsForWriting(th, th.top) && HoldsForWriting(th, Child(th));
    OthersKept(s, s', t);
  }

  function MovedAbs(a: Abs, key: Key, child: nat): Abs {
    a.(loc := a.loc[key := child])
  }

  lemma MoveStored(s: State, th: Thread, a: Abs)
    requires Stored(s.buckets, a) && AtNode(s, th, true) && th.top != Child(th)
    ensures Stored(Moved(s, th), MovedAbs(a, s.buckets[th.top].nodes[th.pc.pos].key, Child(th)))
  {
    var n := s.buckets[th.top].nodes[th.pc.pos];
    assert NodeAt(n, th.top, a);
    var a1 := Abs(a.contents - {n.key}, a.loc - {n.key});
    var b1 := s.buckets[th.top := Chain(Without(s.buckets[th.top].nodes, th.pc.pos))];
    assert Stored(b1, a1) by { StoredRemoved(s.buckets, a, th.top, th.pc.pos, a1); }
    var a2 := Abs(a1.contents[n.key := n.val], a1.loc[n.key := Child(th)]);
    MoveIsRemoveAndAdd(a, n, Child(th));
    assert Stored(b1[Child(th) := Chain([n] + b1[Child(th)].nodes)], a2) by {
      StoredAdded(b1, a1, Child(th), n, a2);
    }
  }

  lemma MoveIsRemoveAndAdd(a: Abs, n: Node, child: nat)
    requires n.key in a.contents && a.contents[n.key] == n.val
    ensures Abs((a.contents - {n.key})[n.key := n.val], (a.loc - {n.key})[n.key := child]) == MovedAbs(a, n.key, child)
  {
    assert (a.contents - {n.key})[n.key := n.val] == a.contents;
    assert (a.loc - {n.key})[n.key := child] == a.loc[n.key := child];
  }

  lemma MoveFacts(s: State, t: Tid, a: Abs)
    requires t in s.threads && ThreadOk(ViewOf(s), s.threads[t]) && Stored(s.buckets, a) && AtNode(s, s.threads[t], true)
    ensures var th := s.threads[t];
            th.top < Child(th) && NodeAt(s.buckets[th.top].nodes[th.pc.pos], th.top, a)
  {
    hide Done, UsingOk, ScanOk, OnPath, Pow2;
  }

  lemma MoveStep(s: State, s': State, t: Tid, e: Event, a: Abs) returns (a': Abs)
    requires Inv(s, a) && t in s.threads && StepMove(s, s', t, e, s.threads[t])
    ensures Inv(s', a') && e == Tau && a'.contents == a.contents
  {
    hide Done, Placed, Settled, Stored, AllThreads, Mutex, OneGrower, Marked, ThreadOk, LockOk, Moved, NodeAt, OnPath, Pow2;
    ThreadAt(s, a, t);
    MoveFacts(s, t, a);
    var th := s.threads[t];
    var n := s.buckets[th.top].nodes[th.pc.pos];
    a' := MovedAbs(a, n.key, Child(th));
    MoveDone(s, s', t);
    SameDone(s, s', a);
    MovePlaced(ViewOf(s), ViewOf(s'), a, th, n);
    MoveStored(s, th, a);
    MoveThreads(s, s', t);
    MoveRest(s, s', t);
  }

  lemma MoveRest(s: State, s': State, t: Tid)
    requires Shape(s) && Marked(s) && Mutex(s) && OneGrower(s) && t in s.threads && AtNode(s, s.threads[t], true)
    requires s' == s.(buckets := Moved(s, s.threads[t])) && s.threads[t].pc != Lock
    ensures Shape(s') && Marked(s') && Mutex(s') && OneGrower(s')
  {
    assert s'.threads == s.threads[t := s.threads[t]];
    OneGrowerKept(s, s', t, s.threads[t]);
    MarkedAfter(s, s', t);
  }

  lemma MovePlaced(v: View, v': View, a: Abs, th: Thread, n: Node)
    requires Placed(v, a) && v'.hash == v.hash && v'.done == v.done && th.work != []
    requires NodeAt(n, th.top, a) && th.top < Child(th) && OnPath(Child(th), v.hash(n.key))
    ensures Placed(v', MovedAbs(a, n.key, Child(th)))
  {
  }

  // Finishing a bucket: its whole parent has been scanned.

  lemma ChildGone(s: State, s': State, t: Tid)
    requires AllThreads(s) && Mutex(s) && t in s.threads && StepScanned(s, s', t, Tau, s.threads[t])
    ensures IsChain(s'.buckets, Child(s.threads[t])) && NobodyFills(s', Child(s.threads[t]))
  {
    var th, child := s.threads[t], Child(s.threads[t]);
    assert ThreadOk(ViewOf(s), th);
    hide AllThreads, ViewOf, UsingOk, ScanOk;
    assert HoldsForWriting(th, child);
    forall u | u in s'.threads ensures child !in s'.threads[u].work {
      if u != t { assert !Holds(s.threads[u], child); }
    }
  }

  lemma ScannedDone(s: State, s': State, t: Tid)
    requires AllThreads(s) && Mutex(s) && t in s.threads && StepScanned(s, s', t, Tau, s.threads[t])
    ensures Done(s') == Done(s) + {Child(s.threads[t])}
  {
    hide AllThreads, Mutex, Done, NobodyFills;
    var th := s.threads[t];
    var th' := s'.threads[t];
    assert th.work == th'.work + [Child(th)];
    ChildGone(s, s', t);
    OneMoreDone(s, s', t, Child(th));
  }

  lemma OneMoreDone(s: State, s': State, t: Tid, child: nat)
    requires t in s.threads && t in s'.threads && s'.threads == s.threads[t := s'.threads[t]] && s'.buckets == s.buckets
    requires s.threads[t].work == s'.threads[t].work + [child]
    requires IsChain(s'.buckets, child) && NobodyFills(s', child)
    ensures Done(s') == Done(s) + {child}
  {
    var work, work' := s.threads[t].work, s'.threads[t].work;
    assert forall j :: j in work <==> j in work' || j == child;
    forall j ensures IsDone(s', j) <==> IsDone(s, j) || j == child {
      if NobodyFills(s, j) { assert NobodyFills(s', j); }
      if NobodyFills(s', j) && j != child {
        forall u | u in s.threads ensures j !in s.threads[u].work { assert j !in s'.threads[u].work; }
      }
    }
  }

  lemma ScannedOk(v: View, v': View, th: Thread, th': Thread)
    requires AcquiringOk(v, th) && th.pc.Scan? && v' == v.(done := v'.done) && MoreDone(v.done, v'.done)
    requires var n := |th.work| - 1;
             th' == th.(pc := Acquired(th.work[..n]), work := th.work[..n], top := Child(th), mode := Wr)
    ensures ThreadOk(v', th')
  {
    if th'.work == [] {
      MaskOnPath(KeyHash(v, th), th.m);
      assert th'.top == Home(th);
    } else {
      assert th.work[|th.work| - 1] == Parent(th.work[|th.work| - 2]);
      assert WorkOk(v', th');
    }
  }

  /** A bucket of h's path that j lies under has j's parent under it, if it is not j itself; and then the parent
      is on h's path, above what is locked. */
  lemma ParentUnder(p: nat, j: nat, h: nat, top: nat)
    requires j >= 2 && OnPath(p, j) && OnPath(p, h) && OnPath(top, h) && top < p && Parent(j) != top
    ensures exists q: nat :: top < q <= p && OnPath(q, h) && OnPath(q, Parent(j))
  {
    PathIsBelow(p, j);
    OwnPath(j);
    PathParent(j, j);
    if p == j {
      PathBetween(top, j, h);
      PathParent(j, h);
      OwnPath(Parent(j));
    } else {
      PathBetween(p, j, j);
      PathOfPath(p, Parent(j), j);
    }
  }

  /** While a thread holds the write lock of the deepest finished bucket of its path, the next one
      cannot be finished: that takes a scan of the locked bucket. */
  lemma FinishIsHarmless(s: State, t: Tid, u: Tid)
    requires AllThreads(s) && Mutex(s) && t in s.threads && u in s.threads && u != t
    requires CanScan(s, s.threads[t])
    ensures FinishHarmless(ViewOf(s), s.threads[u], Child(s.threads[t]))
  {
    var th, other, v := s.threads[t], s.threads[u], ViewOf(s);
    var j, h := Child(th), KeyHash(v, other);
    assert ThreadOk(v, other) && ThreadOk(v, th);
    if TopHeld(other.pc) && !Acquiring(other.pc) && other.mode == Wr {
      HeldIsDone(s, t);
      assert HoldsForWriting(other, other.top) && Holds(th, th.top);
      assert OnPath(other.top, h) && th.top != other.top && th.top == Parent(j) && th.top in v.done;
      hide ThreadOk, AllThreads, Mutex, Done;
      forall p: nat | OnPath(p, j) && OnPath(p, h) && other.top < p
        ensures !Deepest(v, other) && (NoneDoneBetween(v, h, other.top, Pow2(other.m)) ==> Pow2(other.m) <= p)
      {
        ParentUnder(p, j, h, other.top);
      }
    }
  }

  lemma ScannedThreads(s: State, s': State, t: Tid)
    requires AllThreads(s) && Mutex(s) && t in s.threads && StepScanned(s, s', t, Tau, s.threads[t])
    ensures AllThreads(s')
  {
    hide Done, UsingOk, Mutex, FinishHarmless, ScanOk, Pow2, OnPath;
    ScannedDone(s, s', t);
    assert ThreadOk(ViewOf(s), s.threads[t]);
    HeldIsDone(s, t);
    ScannedOk(ViewOf(s), ViewOf(s'), s.threads[t], s'.threads[t]);
    forall u, j | u in s.threads && u != t && j in Done(s') && j !in Done(s)
      ensures FinishHarmless(ViewOf(s), s.threads[u], j)
    {
      FinishIsHarmless(s, t, u);
    }
    OthersKept(s, s', t);
  }

  /** A key of the finished bucket's path is in that bucket or deeper by now. */
  lemma ScannedPlaced(v: View, v': View, th: Thread, a: Abs)
    requires Placed(v, a) && Stored(v.buckets, a) && ScanOk(v, th) && th.pc.pos == |v.buckets[th.top].nodes|
    requires Child(th) >= 2 && th.top == Parent(Child(th)) && th.top in v.done
    requires v' == v.(done := v.done + {Child(th)})
    ensures Placed(v', a)
  {
    var child := Child(th);
    forall key | key in a.loc ensures NoneDoneUnder(v'.done, v.hash(key), a.loc[key]) {
      forall p: nat | OnPath(p, child) && OnPath(p, v.hash(key)) ensures p <= a.loc[key] {
        ScannedUnder(v, th, a, key, p);
      }
    }
  }

  lemma ScannedUnder(v: View, th: Thread, a: Abs, key: Key, p: nat)
    requires Placed(v, a) && Stored(v.buckets, a) && ScanOk(v, th) && th.pc.pos == |v.buckets[th.top].nodes|
    requires Child(th) >= 2 && th.top == Parent(Child(th)) && th.top in v.done
    requires key in a.loc && OnPath(p, Child(th)) && OnPath(p, v.hash(key))
    ensures p <= a.loc[key]
  {
    var child, j, h := Child(th), a.loc[key], v.hash(key);
    assert OnPath(j, h) && NoneDoneUnder(v.done, h, j);
    assert IsChain(v.buckets, j) && HasKey(v.buckets[j].nodes, key);
    hide OnPath, Parent, ScanOk, Stored, Placed, HasKey;
    NoneBelongs(v, th, key);
    if j < p {
      if th.top == j { ScannedAway(p, child, h, j); } else { ParentUnder(p, child, h, j); }
    }
  }

  lemma ScannedAway(p: nat, child: nat, h: nat, j: nat)
    requires child >= 2 && j == Parent(child) < p && OnPath(p, child) && OnPath(p, h)
    ensures OnPath(child, h)
  {
    PathIsBelow(p, child);
    OwnPath(child);
    if p < child { PathBetween(p, child, child); }
  }

  /** After a whole scan no node of the parent belongs to the child. */
  lemma NoneBelongs(v: View, th: Thread, key: Key)
    requires ScanOk(v, th) && th.pc.pos == |v.buckets[th.top].nodes|
    ensures HasKey(v.buckets[th.top].nodes, key) ==> !OnPath(Child(th), v.hash(key))
  {
    if HasKey(v.buckets[th.top].nodes, key) {
      var i :| 0 <= i < |v.buckets[th.top].nodes| && v.buckets[th.top].nodes[i].key == key;
      assert !OnPath(Child(th), v.hash(v.buckets[th.top].nodes[i].key));
    }
  }

  lemma ScannedStep(s: State, s': State, t: Tid, e: Event, a: Abs)
    requires Inv(s, a) && t in s.threads && StepScanned(s, s', t, e, s.threads[t])
    ensures Inv(s', a) && e == Tau
  {
    var th := s.threads[t];
    ThreadAt(s, a, t);
    HeldIsDone(s, t);
    ScannedDone(s, s', t);
    ScannedThreads(s, s', t);
    ScannedPlaced(ViewOf(s), ViewOf(s'), th, a);
    ScannedLocks(s, s', t);
    MarkedAfter(s, s', t);
    OneGrowerKept(s, s', t, s'.threads[t]);
  }

  lemma ScannedLocks(s: State, s': State, t: Tid)
    requires Mutex(s) && t in s.threads && StepScanned(s, s', t, Tau, s.threads[t])
    ensures Mutex(s')
  {
    var th, th' := s.threads[t], s'.threads[t];
    assert th.work == th'.work + [Child(th)];
    assert forall j :: j in th.work <==> j in th'.work || j == Child(th);
    MutexShrinks(s, s', t, th');
  }

  // Putting a node into the locked bucket, and taking one out.

  /** The operation replaces the chain of the bucket it has locked for writing. */
  ghost predicate ReplacesTop(s: State, s': State, t: Tid, th': Thread) {
    && t in s.threads && IsChain(s.buckets, s.threads[t].top) && HoldsForWriting(s.threads[t], s.threads[t].top)
    && s'.threads == s.threads[t := th'] && th'.work == s.threads[t].work
    && |s'.buckets| == |s.buckets| && s'.k == s.k && s'.hash == s.hash && s'.claimed == s.claimed
    && IsChain(s'.buckets, s.threads[t].top)
    && (forall j: nat | j < |s.buckets| && j != s.threads[t].top :: s'.buckets[j] == s.buckets[j])
  }

  lemma ReplaceDone(s: State, s': State, t: Tid, th': Thread)
    requires ReplacesTop(s, s', t, th')
    ensures Done(s') == Done(s)
  {
    forall j ensures IsDone(s', j) <==> IsDone(s, j) {
      if NobodyFills(s, j) { assert NobodyFills(s', j); }
      if NobodyFills(s', j) {
        forall u | u in s.threads ensures j !in s.threads[u].work { assert u in s'.threads; }
      }
    }
  }

  lemma ReplaceThreads(s: State, s': State, t: Tid, th': Thread)
    requires AllThreads(s) && Mutex(s) && ReplacesTop(s, s', t, th') && ThreadOk(ViewOf(s'), th')
    ensures AllThreads(s')
  {
    ReplaceDone(s, s', t, th');
    OthersKept(s, s', t);
  }

  lemma ReplaceRest(s: State, s': State, t: Tid, th': Thread)
    requires Shape(s) && Mutex(s) && Marked(s) && OneGrower(s) && ReplacesTop(s, s', t, th')
    requires LockOk(s, t, th') && th'.grow == s.threads[t].grow && th'.pc != Lock
    ensures Shape(s') && Mutex(s') && Marked(s') && OneGrower(s')
  {
    MutexKept(s, s', t, th');
    MarkedAfter(s, s', t);
    OneGrowerKept(s, s', t, th');
  }

  function LinkedAbs(a: Abs, op: Op, j: nat): Abs
    requires op.Insert?
  {
    Abs(a.contents[op.key := op.val], a.loc[op.key := j])
  }

  lemma LinkPlaced(v: View, v': View, th: Thread, a: Abs)
    requires Placed(v, a) && th.op.Insert? && Deepest(v, th) && OnPath(th.top, KeyHash(v, th))
    requires v'.hash == v.hash && v'.done == v.done
    ensures Placed(v', LinkedAbs(a, th.op, th.top))
  {
  }

  /** What the thread that links a node has found, and what it changes. */
  lemma LinkFacts(s: State, s': State, t: Tid, e: Event)
    requires t in s.threads && ThreadOk(ViewOf(s), s.threads[t]) && LockOk(s, t, s.threads[t])
    requires StepLink(s, s', t, e, s.threads[t])
    ensures var th := s.threads[t]; var th' := s'.threads[t];
      && TopHeld(th.pc) && !Acquiring(th.pc) && !Outside(th.pc) && th.op.Insert?
      && !Present(ViewOf(s), th) && Deepest(ViewOf(s), th) && OnPath(th.top, KeyHash(ViewOf(s), th))
      && e == Commit(th.op, Inserted) && ReplacesTop(s, s', t, th')
      && s'.buckets == s.buckets[th.top := Chain([Node(th.op.key, th.op.val)] + s.buckets[th.top].nodes)]
      && LockOk(s, t, th') && th'.grow == th.grow && th'.pc != Lock
  {
    hide Done, Deepest, NoOtherHolder, NoOtherWriter, OnPath;
  }

  lemma LinkStep(s: State, s': State, t: Tid, e: Event, a: Abs) returns (a': Abs)
    requires Inv(s, a) && t in s.threads && StepLink(s, s', t, e, s.threads[t])
    ensures Inv(s', a') && SpecStep(a.contents, e, a'.contents)
  {
    var th, th' := s.threads[t], s'.threads[t];
    ThreadAt(s, a, t);
    LinkFacts(s, s', t, e);
    AbsentEverywhere(s, t, a);
    a' := LinkedAbs(a, th.op, th.top);
    hide Done, Settled, Mutex, OneGrower, AllThreads, Marked, Stored, Placed, LockOk, Deepest, OnPath;
    ReplaceDone(s, s', t, th');
    SameDone(s, s', a);
    LinkPlaced(ViewOf(s), ViewOf(s'), th, a);
    StoredAdded(s.buckets, a, th.top, Node(th.op.key, th.op.val), a');
    LinkedOk(s, s', t, e);
    hide ThreadOk, StepLink;
    ReplaceThreads(s, s', t, th');
    ReplaceRest(s, s', t, th');
  }

  lemma LinkedOk(s: State, s': State, t: Tid, e: Event)
    requires t in s.threads && ThreadOk(ViewOf(s), s.threads[t]) && StepLink(s, s', t, e, s.threads[t])
    requires Done(s') == Done(s)
    ensures ThreadOk(ViewOf(s'), s'.threads[t])
  {
    hide Done, Deepest, OnPath;
  }

  function UnlinkedAbs(a: Abs, key: Key): Abs {
    Abs(a.contents - {key}, a.loc - {key})
  }

  lemma UnlinkPlaced(v: View, v': View, key: Key, a: Abs)
    requires Placed(v, a) && v'.hash == v.hash && v'.done == v.done
    ensures Placed(v', UnlinkedAbs(a, key))
  {
  }

  /** What the thread that takes a node out has found, and what it changes. */
  lemma UnlinkFacts(s: State, s': State, t: Tid, e: Event)
    requires t in s.threads && ThreadOk(ViewOf(s), s.threads[t]) && LockOk(s, t, s.threads[t])
    requires StepUnlink(s, s', t, e, s.threads[t])
    ensures t in s'.threads
    ensures var th := s.threads[t]; var th' := s'.threads[t];
      && IsChain(s.buckets, th.top) && HasKey(s.buckets[th.top].nodes, th.op.key) && th.op.Erase?
      && e == Commit(th.op, Erased) && ReplacesTop(s, s', t, th')
      && LockOk(s, t, th') && th'.grow == th.grow && th'.pc != Lock
      && ThreadOk(ViewOf(s'), th')
  {
    hide Done, Deepest, NoOtherHolder, NoOtherWriter, OnPath;
    assert ReplacesTop(s, s', t, s'.threads[t]);
    ReplaceDone(s, s', t, s'.threads[t]);
  }

  lemma UnlinkStep(s: State, s': State, t: Tid, e: Event, a: Abs) returns (a': Abs)
    requires Inv(s, a) && t in s.threads && StepUnlink(s, s', t, e, s.threads[t])
    ensures Inv(s', a') && SpecStep(a.contents, e, a'.contents)
  {
    hide Done, Settled, Mutex, OneGrower, AllThreads, Marked, Stored, Placed, LockOk, ThreadOk, OnPath, StepUnlink, HasKey,
         Shape;
    var th := s.threads[t];
    ThreadAt(s, a, t);
    UnlinkFacts(s, s', t, e);
    var th' := s'.threads[t];
    UnlinkStored(s, s', t, e, a);
    StoredMeansKey(s, a, th.top, th.op.key);
    a' := UnlinkedAbs(a, th.op.key);
    ReplaceDone(s, s', t, th');
    SameDone(s, s', a);
    UnlinkPlaced(ViewOf(s), ViewOf(s'), th.op.key, a);
    ReplaceThreads(s, s', t, th');
    ReplaceRest(s, s', t, th');
  }

  lemma UnlinkStored(s: State, s': State, t: Tid, e: Event, a: Abs)
    requires Stored(s.buckets, a) && t in s.threads && StepUnlink(s, s', t, e, s.threads[t])
    ensures Stored(s'.buckets, UnlinkedAbs(a, s.threads[t].op.key))
  {
    var th := s.threads[t];
    var nodes := s.buckets[th.top].nodes;
    var i :| 0 <= i < |nodes| && nodes[i].key == th.op.key
             && s'.buckets == s.buckets[th.top := Chain(Without(nodes, i))];
    StoredRemoved(s.buckets, a, th.top, i, UnlinkedAbs(a, th.op.key));
  }

  // Growing the table.

  /** Segments 1 to 7 come together, later ones one by one: how many buckets there are then. */
  lemma BucketsAfter(k: nat)
    requires k == 1 || k >= 8
    ensures Pow2(NextMask(k)) == if Pow2(k) < 256 then 256 else 2 * Pow2(k)
  {
    assert Pow2(1) == 2 && Pow2(8) == 256;
    if k >= 8 { Pow2Monotone(8, k); }
  }

  lemma GrowStep(s: State, s': State, t: Tid, e: Event, a: Abs)
    requires Inv(s, a) && t in s.threads && StepGrow(s, s', t, e, s.threads[t])
    ensures Inv(s', a) && e == Tau
  {
    hide Stored, Placed, Settled, Mutex, Marked, OneGrower, Done, AcquiringOk, WorkOk, AllThreads;
    var th, th' := s.threads[t], s'.threads[t];
    ThreadAt(s, a, t);
    DoneKept(s, s', t, th');
    GrowThreads(s, s', t);
    MutexKept(s, s', t, th');
    MarkedKept(s, s', t, th');
    GrowClaims(s, s', t);
    hide ThreadOk, LockOk;
  }

  lemma GrowThreads(s: State, s': State, t: Tid)
    requires AllThreads(s) && t in s.threads && StepGrow(s, s', t, Tau, s.threads[t]) && Done(s') == Done(s)
    ensures AllThreads(s')
  {
    hide Done, ThreadOk;
    assert ViewOf(s') == ViewOf(s);
    assert s'.threads == s.threads[t := s'.threads[t]];
    assert ThreadOk(ViewOf(s), s.threads[t]);
    GrowsOk(s, s', t, ViewOf(s));
    hide ViewOf, StepGrow;
  }

  lemma GrowsOk(s: State, s': State, t: Tid, v: View)
    requires t in s.threads && ThreadOk(v, s.threads[t]) && StepGrow(s, s', t, Tau, s.threads[t])
    ensures t in s'.threads && ThreadOk(v, s'.threads[t])
  {
    hide AcquiringOk, Guard, CheckOk, Deepest, Present, OnPath, Pow2;
  }

  /** Only the newest mask has an unclaimed segment, so there is one grower. */
  lemma GrowClaims(s: State, s': State, t: Tid)
    requires OneGrower(s) && t in s.threads && ThreadOk(ViewOf(s), s.threads[t])
    requires StepGrow(s, s', t, Tau, s.threads[t])
    ensures OneGrower(s')
  {
    if s'.threads[t].grow.Some? {
      assert s.threads[t].m == s.k;
    } else if s.k in s.claimed {
      var u :| u in s.threads && s.threads[u].grow.Some?;
      assert u in s'.threads && s'.threads[u].grow.Some?;
    }
  }

  lemma PublishDone(s: State, s': State, t: Tid)
    requires t in s.threads && StepPublish(s, s', t, Tau, s.threads[t])
    ensures Done(s') == Done(s)
  {
    forall j ensures IsDone(s', j) <==> IsDone(s, j) {
      if NobodyFills(s, j) { assert NobodyFills(s', j); }
      if NobodyFills(s', j) {
        forall u | u in s.threads ensures j !in s.threads[u].work { assert j !in s'.threads[u].work; }
      }
    }
  }

  lemma PublishStored(buckets: seq<Bucket>, n: nat, a: Abs)
    requires Stored(buckets, a) && |buckets| <= n
    ensures Stored(Extended(buckets, n), a)
  {
    var buckets' := Extended(buckets, n);
    forall j: nat | IsChain(buckets', j) ensures IsChain(buckets, j) && buckets'[j] == buckets[j] {
    }
  }

  lemma PublishThreads(s: State, s': State, t: Tid)
    requires AllThreads(s) && Mutex(s) && t in s.threads && StepPublish(s, s', t, Tau, s.threads[t])
    requires s.k <= s'.k
    ensures AllThreads(s')
  {
    hide Done, AcquiringOk, UsingOk, Mutex, FinishHarmless, Below, Pow2;
    PublishDone(s, s', t);
    assert ThreadOk(ViewOf(s), s.threads[t]);
    OthersKept(s, s', t);
  }

  lemma PublishStep(s: State, s': State, t: Tid, e: Event, a: Abs)
    requires Inv(s, a) && t in s.threads && StepPublish(s, s', t, e, s.threads[t])
    ensures Inv(s', a) && e == Tau
  {
    hide Done, Placed, Settled, Stored;
    var th := s.threads[t];
    ThreadAt(s, a, t);
    assert th.pc.segment == s.k;
    PublishDone(s, s', t);
    PublishThreads(s, s', t);
    PublishStored(s.buckets, |s'.buckets|, a);
    PublishSettled(s, s', a);
    MutexShrinks(s, s', t, s'.threads[t]);
    MarkedAfter(s, s', t);
    PublishClaims(s, s', t);
  }

  lemma PublishSettled(s: State, s': State, a: Abs)
    requires Placed(ViewOf(s), a) && Done(s') == Done(s) && s'.hash == s.hash && |s.buckets| == Pow2(s.k) && s.k < s'.k
    ensures Placed(ViewOf(s'), a) && Settled(ViewOf(s'))
  {
    Pow2Monotone(s.k, s'.k - 1);
    forall j: nat | InLast(s'.k, j) ensures j !in Done(s) { }
    hide Done, NoneDoneUnder, InLast, OnPath, Pow2;
  }

  lemma PublishClaims(s: State, s': State, t: Tid)
    requires OneGrower(s) && t in s.threads && StepPublish(s, s', t, Tau, s.threads[t])
    requires s.threads[t].grow == Some(s.k) && s.threads[t].pc == Publish(s.k)
    ensures OneGrower(s')
  {
  }
}
