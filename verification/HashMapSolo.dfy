/** An operation that runs alone completes, with the answer of the map: from any state that concurrent operations
    can reach, once the others have returned.  And it grows the table exactly when that is full. */
module HashMapSolo {
  import opened Options
  import opened HashPaths
  import opened HashMapProtocol
  import opened HashMapInvariant
  import opened HashMapProof
  import opened HashMapTheorems

  ghost predicate Alone(s: State, t: Tid) {
    t in s.threads && forall u | u in s.threads && u != t :: s.threads[u].pc == Idle
  }

  /** What an operation answers on a map, and what it makes of it. */
  function Answer(c: map<Key, Val>, op: Op): Result {
    match op
    case Find(key) => if key in c then Found(c[key]) else NotFound
    case Insert(key, _) => if key in c then Exists else Inserted
    case Erase(key) => if key in c then Erased else NotFound
  }

  function Applied(c: map<Key, Val>, op: Op): map<Key, Val> {
    match op
    case Find(_) => c
    case Insert(key, val) => if key in c then c else c[key := val]
    case Erase(key) => if key in c then c - {key} else c
  }

  lemma SpecAnswers(c: map<Key, Val>, e: Event, c': map<Key, Val>)
    requires SpecStep(c, e, c')
    ensures if e.Commit? then e.res == Answer(c, e.op) && c' == Applied(c, e.op) else c' == c
  {
  }

  // ---------------------------------------------------------------- how far a thread is from its return

  /** By how many levels the mask that the thread works with is behind; reading it again comes first of all. */
  function Behind(s: State, th: Thread): nat {
    if th.pc.LoadMask? then s.k + 1
    else if Rank(th) >= 7 && th.m <= s.k then s.k - th.m
    else 0
  }

  function Rank(th: Thread): nat {
    match th.pc
    case Idle => 0
    case Publish(_) => 1
    case Release => 2
    case Grow(_) => 3
    case Link(_) => 4
    case Count => 5
    case Unlink => 5
    case CheckBucket(_, _, why) => if why == Absent then 7 else 10
    case CheckMask(why) => if why == Absent then 8 else 11
    case Search => if th.mode == Wr then 9 else 14
    case UpgradeWait => 12
    case Upgrade => 13
    case _ => 20
  }

  /** Going up to a rehashed ancestor, ... */
  predicate Climbs(pc: Pc) { pc.Probe? || pc.TryLock? || pc.Lock? || pc.Recheck? }

  function Phase(pc: Pc): nat { if Climbs(pc) then 1 else 0 }

  /** ... and then filling bucket after bucket from its parent: first as a reader of the parent, then, maybe after
      having waited for that, as its writer. */
  function Depth(th: Thread): nat { if Climbs(th.pc) then th.top else |th.work| }

  function Stage(th: Thread): nat {
    match th.pc
    case Probe => 3
    case TryLock => 2
    case Lock => 1
    case Recheck => 1
    case Scan(_) => if th.mode == Rd then 2 else 0
    case Relock => 1
    case _ => 0
  }

  function ToScan(s: State, th: Thread): nat {
    if th.pc.Scan? && th.top < |s.buckets| && s.buckets[th.top].Chain? then |s.buckets[th.top].nodes| else 0
  }

  function Rest(s: State, th: Thread): nat {
    if th.pc.Scan? && th.pc.pos <= ToScan(s, th) then ToScan(s, th) - th.pc.pos else 0
  }

  ghost predicate LessThan(a: nat, b: nat, rest: bool) { a < b || (a == b && rest) }

  ghost predicate Closer(s: State, s': State, t: Tid) {
    && t in s.threads && t in s'.threads
    && var th, th' := s.threads[t], s'.threads[t];
       LessThan(Behind(s', th'), Behind(s, th), LessThan(Rank(th'), Rank(th), Nearer(s, s', th, th')))
  }

  ghost predicate Nearer(s: State, s': State, th: Thread, th': Thread) {
    LessThan(Phase(th'.pc), Phase(th.pc), LessThan(Depth(th'), Depth(th), LessThan(Stage(th'), Stage(th),
      LessThan(ToScan(s', th'), ToScan(s, th), Rest(s', th') < Rest(s, th)))))
  }

  /** A lookup has found its node, but cannot have the item, and begins again. */
  ghost predicate Restarts(s: State, s': State, t: Tid) {
    t in s.threads && t in s'.threads && s.threads[t].pc == Search && s'.threads[t].pc == LoadMask
  }

  lemma ClimbCloser(s: State, s': State, t: Tid, e: Event)
    requires t in s.threads && ThreadOk(ViewOf(s), s.threads[t])
    requires var th := s.threads[t];
             StepProbe(s, s', t, e, th) || StepTryLock(s, s', t, e, th) || StepLock(s, s', t, e, th) || StepRecheck(s, s', t, e, th)
    ensures Closer(s, s', t)
  {
    hide Done, WorkOk, ScanOk, UsingOk, OnPath, Pow2, NoOtherHolder, NoOtherWriter, ParentsDone;
  }

  lemma FillCloser(s: State, s': State, t: Tid, e: Event)
    requires t in s.threads && ThreadOk(ViewOf(s), s.threads[t])
    requires var th := s.threads[t];
             || StepScan(s, s', t, e, th) || StepScanUpgrade(s, s', t, e, th) || StepRelock(s, s', t, e, th)
             || StepMove(s, s', t, e, th) || StepScanned(s, s', t, e, th)
    ensures Closer(s, s', t)
  {
    hide Done, UsingOk, OnPath, Pow2, NoOtherHolder, NoOtherWriter, ParentsDone;
    if StepMove(s, s', t, e, s.threads[t]) { MoveShortens(s, t); }
  }

  lemma MoveShortens(s: State, t: Tid)
    requires t in s.threads && ThreadOk(ViewOf(s), s.threads[t]) && AtNode(s, s.threads[t], true)
    ensures var th := s.threads[t]; var b := Moved(s, th);
      th.top < |b| && b[th.top].Chain? && |b[th.top].nodes| == |s.buckets[th.top].nodes| - 1
  {
    hide Done, UsingOk, OnPath, Pow2, ParentsDone;
    assert s.threads[t].top < Child(s.threads[t]);
  }

  lemma UseCloser(s: State, s': State, t: Tid, e: Event)
    requires t in s.threads && ThreadOk(ViewOf(s), s.threads[t])
    requires var th := s.threads[t];
             StepSearch(s, s', t, e, th) || StepUpgrade(s, s', t, e, th) || StepUpgradeWait(s, s', t, e, th)
    ensures Restarts(s, s', t) || Closer(s, s', t)
  {
    hide Done, Guard, ParentsDone, Deepest, OnPath, Pow2, NoOtherHolder, HasKey, Nearer;
  }

  lemma CheckMaskCloser(s: State, s': State, t: Tid, e: Event)
    requires t in s.threads && ThreadOk(ViewOf(s), s.threads[t]) && StepCheckMask(s, s', t, e, s.threads[t])
    ensures Closer(s, s', t)
  {
    hide Done, Guard, ParentsDone, Deepest, Present, OnPath, Pow2, NextOnPath;
  }

  lemma CheckBucketCloser(s: State, s': State, t: Tid, e: Event)
    requires t in s.threads && ThreadOk(ViewOf(s), s.threads[t]) && StepCheckBucket(s, s', t, e, s.threads[t])
    ensures Closer(s, s', t)
  {
    hide Done, Guard, ParentsDone, Deepest, Present, OnPath, Pow2, NextOnPath;
  }

  lemma ChangeCloser(s: State, s': State, t: Tid, e: Event)
    requires t in s.threads
    requires var th := s.threads[t];
             || StepUnlink(s, s', t, e, th) || StepCount(s, s', t, e, th) || StepLink(s, s', t, e, th)
             || StepGrow(s, s', t, e, th) || StepRelease(s, s', t, e, th)
             || StepPublish(s, s', t, e, th) || StepLoadMask(s, s', t, e, th)
    ensures Closer(s, s', t)
  {
    hide Pow2, Nearer, Below, Extended;
  }

  /** Every step of a call brings it nearer to its return, whatever the others do meanwhile, unless a lookup cannot
      have its item and begins again. */
  lemma OwnStepNears(s: State, s': State, t: Tid, e: Event, a: Abs)
    requires Inv(s, a) && Next(s, s', t, e) && t in s.threads && s.threads[t].pc != Idle
    ensures Restarts(s, s', t) || Closer(s, s', t)
  {
    hide Done, Inv, ThreadOk, Closer, Restarts, StepLoadMask, StepProbe, StepTryLock, StepLock, StepRecheck, StepScan,
         StepScanUpgrade, StepRelock, StepMove, StepScanned, StepSearch, StepUpgrade, StepUpgradeWait, StepCheckMask,
         StepCheckBucket, StepUnlink, StepCount, StepLink, StepGrow, StepRelease, StepPublish;
    ThreadAt(s, a, t);
    var th := s.threads[t];
    if StepProbe(s, s', t, e, th) || StepTryLock(s, s', t, e, th) || StepLock(s, s', t, e, th) || StepRecheck(s, s', t, e, th) {
      ClimbCloser(s, s', t, e);
    } else if StepSearch(s, s', t, e, th) || StepUpgrade(s, s', t, e, th) || StepUpgradeWait(s, s', t, e, th) {
      UseCloser(s, s', t, e);
    } else if StepCheckMask(s, s', t, e, th) {
      CheckMaskCloser(s, s', t, e);
    } else if StepCheckBucket(s, s', t, e, th) {
      CheckBucketCloser(s, s', t, e);
    } else if StepScan(s, s', t, e, th) || StepScanUpgrade(s, s', t, e, th) || StepRelock(s, s', t, e, th)
              || StepMove(s, s', t, e, th) || StepScanned(s, s', t, e, th) {
      FillCloser(s, s', t, e);
    } else {
      ChangeCloser(s, s', t, e);
    }
  }

  /** And no step of another call takes it back, unless that makes the table larger. */
  lemma OthersKeepPace(s: State, s': State, u: Tid, e: Event, a: Abs, t: Tid)
    requires Inv(s, a) && Next(s, s', u, e) && t in s.threads && t != u && s'.k == s.k
    ensures t in s'.threads && s'.threads[t] == s.threads[t] && Behind(s', s'.threads[t]) == Behind(s, s.threads[t])
    ensures ToScan(s', s'.threads[t]) == ToScan(s, s.threads[t]) && Rest(s', s'.threads[t]) == Rest(s, s.threads[t])
  {
    hide Done, Next, CommitDiscipline, Stored, Placed, Settled, Marked, OneGrower;
    StepCommits(s, s', u, e, a);
    OtherStays(s, s', u, e, t);
    StepWritesHeld(s, s', u, e, a);
    var th := s.threads[t];
    if th.pc.Scan? {
      ThreadAt(s, a, t);
      ScansChain(ViewOf(s), th);
      assert !HoldsForWriting(s.threads[u], th.top);
    }
    hide Inv, Mutex;
  }

  lemma ScansChain(v: View, th: Thread)
    requires ThreadOk(v, th) && th.pc.Scan?
    ensures th.top < |v.buckets| && Holds(th, th.top)
  {
  }

  lemma OthersHoldNothing(s: State, t: Tid, a: Abs)
    requires Inv(s, a) && Alone(s, t)
    ensures forall j :: NoOtherHolder(s, t, j)
  {
    hide Done, AcquiringOk, UsingOk, Stored, Placed, Settled;
    forall u, j | u in s.threads && u != t ensures !Holds(s.threads[u], j) {
      assert ThreadOk(ViewOf(s), s.threads[u]);
    }
  }

  lemma WriterIsHolder(s: State, t: Tid, j: nat)
    requires NoOtherHolder(s, t, j)
    ensures NoOtherWriter(s, t, j)
  {
  }

  /** Up to the bucket that is rehashed already. */
  lemma ClimbAlone(s: State, t: Tid) returns (s': State)
    requires t in s.threads && Climbs(s.threads[t].pc) && ThreadOk(ViewOf(s), s.threads[t]) && Shape(s)
    requires NoOtherHolder(s, t, s.threads[t].top) && NoOtherWriter(s, t, s.threads[t].top)
    ensures AccessStep(s, s', t, Tau, s.threads[t])
  {
    hide Done, WorkOk, ScanOk, UsingOk, OnPath, Pow2, NoOtherHolder, NoOtherWriter;
    var th := s.threads[t];
    match th.pc {
      case Probe => s' := Put(s, t, th.(pc := if s.buckets[th.top].RehashReq? then TryLock else Lock));
      case TryLock => s' := Put(s, t, th.(pc := Recheck, mode := Wr));
      case Lock => s' := Put(s, t, th.(pc := Acquired(th.work), mode := Rd));
      case Recheck =>
        if s.buckets[th.top].RehashReq? {
          s' := Put(s, t, th.(pc := Probe, work := th.work + [th.top], top := Parent(th.top)))
                .(buckets := s.buckets[th.top := Chain([])]);
        } else {
          s' := Put(s, t, th.(pc := Acquired(th.work)));
        }
    }
  }

  /** The node or its absence is found, and the operation goes on with that. */
  lemma SearchAlone(s: State, t: Tid) returns (s': State, e: Event)
    requires t in s.threads && ThreadOk(ViewOf(s), s.threads[t]) && s.threads[t].pc == Search
    ensures StepSearch(s, s', t, e, s.threads[t]) && !Restarts(s, s', t)
  {
    hide Done, Guard, ParentsDone;
    var th := s.threads[t];
    var nodes := s.buckets[th.top].nodes;
    e := Tau;
    if HasKey(nodes, th.op.key) && !th.op.Erase? {
      var i :| 0 <= i < |nodes| && nodes[i].key == th.op.key;
      var r := if th.op.Find? then Found(nodes[i].val) else Exists;
      assert nodes[i] == Node(th.op.key, nodes[i].val) && IsHit(th.op, nodes, r);
      e := Commit(th.op, r);
      s' := Put(s, t, th.(pc := Release, res := Some(r), mode := Rd));
    } else {
      s' := Put(s, t, th.(pc := if HasKey(nodes, th.op.key) then (if th.mode == Wr then Unlink else Upgrade)
                                else if th.op.Insert? && th.mode == Rd then Upgrade
                                else CheckMask(Absent)));
    }
  }

  /** With nobody else at work the call can step without beginning again. */
  lemma StepAlone(s: State, t: Tid, a: Abs) returns (s': State, e: Event)
    requires Inv(s, a) && Alone(s, t) && s.threads[t].pc != Idle
    ensures Next(s, s', t, e) && Closer(s, s', t)
  {
    hide Inv, Done, ThreadOk, Closer, NoOtherHolder, NoOtherWriter, Shape, StepProbe, StepTryLock, StepLock, StepRecheck,
         StepScan, StepScanUpgrade, StepRelock, StepMove, StepScanned, StepLoadMask, StepSearch, StepUpgrade, StepUpgradeWait,
         StepCheckMask, StepCheckBucket, StepUnlink, StepCount, StepLink, StepGrow, StepRelease, StepPublish;
    OthersHoldNothing(s, t, a);
    WriterIsHolder(s, t, s.threads[t].top);
    ThreadAt(s, a, t);
    var pc := s.threads[t].pc;
    e := Tau;
    if Climbs(pc) {
      s' := ClimbAlone(s, t);
    } else if Acquiring(pc) {
      s' := AccessRuns(s, t);
    } else if Outside(pc) {
      s' := OutsideStep(s, t, a);
    } else if pc.Search? {
      s', e := SearchAlone(s, t);
    } else {
      s', e := UsingRuns(s, t);
    }
    OwnStepNears(s, s', t, e, a);
  }

  lemma OutsideStep(s: State, t: Tid, a: Abs) returns (s': State)
    requires Inv(s, a) && t in s.threads && Outside(s.threads[t].pc) && s.threads[t].pc != Idle
    ensures Next(s, s', t, Tau)
  {
    hide Inv, Next;
    OutsideRuns(s, t, a);
    s' :| Next(s, s', t, Tau);
  }

  // ---------------------------------------------------------------- what holds a call up

  /** A call looks at the table again only if it has found its key and cannot have the item, or if a bucket of its
      path that its mask does not cover has been rehashed, so that its key may have moved there. */
  lemma StartsOverFor(s: State, s': State, t: Tid, e: Event)
    requires Reachable(s) && Next(s, s', t, e) && t in s.threads && t in s'.threads
    requires !Acquiring(s.threads[t].pc) && !Outside(s.threads[t].pc)
    requires s'.threads[t].pc == LoadMask || s'.threads[t].pc == Probe
    ensures var th := s.threads[t];
      || (th.pc == Search && !th.op.Erase? && th.top < |s.buckets| && HasKey(NodesOf(s.buckets[th.top]), th.op.key))
      || exists j: nat :: OnPath(j, HashOf(s, th)) && Pow2(th.m) <= j && IsChain(s.buckets, j)
  {
    hide Done, Inv, Reachable, ThreadOk, HasKey, OnPath, Pow2, Next;
    var a := ReachableInv(s);
    ThreadAt(s, a, t);
    var th := s.threads[t];
    LooksAgain(s, s', t, e);
    if th.pc.CheckBucket? { NextIsBeyond(ViewOf(s), th); }
  }

  lemma LooksAgain(s: State, s': State, t: Tid, e: Event)
    requires Next(s, s', t, e) && t in s.threads && t in s'.threads
    requires !Acquiring(s.threads[t].pc) && !Outside(s.threads[t].pc)
    requires s'.threads[t].pc == LoadMask || s'.threads[t].pc == Probe
    ensures var th := s.threads[t];
      || (th.pc == Search && !th.op.Erase? && th.top < |s.buckets| && HasKey(NodesOf(s.buckets[th.top]), th.op.key))
      || (th.pc.CheckBucket? && IsChain(s.buckets, th.pc.next))
  {
    hide HasKey, OnPath, Pow2, Below, Moved, NoOtherHolder, NoOtherWriter, NextOnPath, Extended, Parent;
  }

  lemma NextIsBeyond(v: View, th: Thread)
    requires ThreadOk(v, th) && th.pc.CheckBucket?
    ensures OnPath(th.pc.next, KeyHash(v, th)) && Pow2(th.m) <= th.pc.next
  {
    var h := KeyHash(v, th);
    NextOnPathIsNext(h, th.m, th.pc.mask);
    if th.pc.next < Pow2(th.m) { MaskIsLast(th.pc.next, h, th.m); }
  }

  /** Readers of a rehashed bucket do not exclude one another. */
  lemma ReadersShare(s: State, t: Tid) returns (s1: State, s2: State)
    requires t in s.threads && s.threads[t].pc == Probe && IsChain(s.buckets, s.threads[t].top)
    requires NoOtherWriter(s, t, s.threads[t].top)
    ensures Next(s, s1, t, Tau) && Next(s1, s2, t, Tau) && s2.buckets == s.buckets
    ensures t in s2.threads && s2.threads[t] == s.threads[t].(pc := Acquired(s.threads[t].work), mode := Rd)
  {
    var th := s.threads[t];
    s1 := Put(s, t, th.(pc := Lock));
    s2 := Put(s1, t, th.(pc := Acquired(th.work), mode := Rd));
    assert StepProbe(s, s1, t, Tau, th);
    assert StepLock(s1, s2, t, Tau, s1.threads[t]);
  }

  // ---------------------------------------------------------------- the call so far

  /** What a call has come to: before it commits it has changed nothing in the map; it commits to the map's own
      answer, and after that nothing changes any more. */
  ghost predicate Came(c: map<Key, Val>, th: Thread, c': map<Key, Val>, th': Thread) {
    && th'.op == th.op
    && if th.res.Some? || th'.res == None then c' == c && th'.res == th.res
       else th'.res == Some(Answer(c, th.op)) && c' == Applied(c, th.op)
  }

  lemma CameOn(s: State, s': State, t: Tid, e: Event, c0: map<Key, Val>, th0: Thread, c: map<Key, Val>, c': map<Key, Val>)
    requires t in s.threads && s.threads[t].pc != Idle && CommitDiscipline(s, s', t, e) && SpecStep(c, e, c')
    requires Came(c0, th0, c, s.threads[t])
    ensures Came(c0, th0, c', s'.threads[t])
  {
    hide SpecStep;
    SpecAnswers(c, e, c');
  }

  lemma StaysAlone(s: State, s': State, t: Tid, e: Event)
    requires Alone(s, t) && CommitDiscipline(s, s', t, e)
    ensures Alone(s', t)
  {
  }

  // ---------------------------------------------------------------- growing

  /** The thread works with the newest mask, and with the size that it has counted itself. */
  ghost predicate Fresh(s: State, t: Tid)
    requires t in s.threads
  {
    var th := s.threads[t];
    && (Acquiring(th.pc) || !Outside(th.pc) ==> th.m == s.k)
    && (th.pc.Link? || th.pc.Grow? ==> th.pc.size == s.size)
  }

  /** How many buckets the table will have when the call returns: twice as many, or 256, if the new entry fills it. */
  ghost function Goal(s: State, t: Tid, c: map<Key, Val>): nat
    requires t in s.threads
  {
    var th, n := s.threads[t], |s.buckets|;
    var more: nat := if n < 256 then 256 else 2 * n;
    match th.pc
    case Idle => n
    case Publish(_) => if th.grow.Some? then more else n
    case Release => if th.grow.Some? then more else n
    case Grow(_) => if s.size >= n - 1 then more else n
    case Link(_) => if s.size >= n - 1 then more else n
    case _ => if th.op.Insert? && th.op.key !in c && s.size + 1 >= n - 1 then more else n
  }

  predicate Before(pc: Pc) {
    !pc.Idle? && !pc.Publish? && !pc.Release? && !pc.Grow? && !pc.Link?
  }

  lemma AccessGoal(s: State, s': State, t: Tid, e: Event, c: map<Key, Val>)
    requires t in s.threads && AccessStep(s, s', t, e, s.threads[t]) && ThreadOk(ViewOf(s), s.threads[t]) && Fresh(s, t)
    ensures e == Tau && t in s'.threads && Fresh(s', t) && Goal(s', t, c) == Goal(s, t, c)
  {
    hide Done, WorkOk, ScanOk, UsingOk, NoOtherHolder, NoOtherWriter, OnPath, Pow2, ParentsDone;
  }

  lemma QuietGoal(s: State, s': State, t: Tid, e: Event, a: Abs, c': map<Key, Val>)
    requires Inv(s, a) && t in s.threads && QuietStep(s, s', t, e, s.threads[t]) && s.threads[t].pc != Idle && Fresh(s, t)
    requires SpecStep(a.contents, e, c')
    ensures t in s'.threads && Fresh(s', t) && Goal(s', t, c') == Goal(s, t, a.contents)
  {
    hide Done, Inv, QuietStep, Invoke, StepLoadMask, StepSearch, StepUpgrade, StepUpgradeWait, StepCheckMask, StepCheckBucket,
         StepCount, StepRelease, ThreadOk, SpecStep, Fresh, Goal;
    ThreadAt(s, a, t);
    var th := s.threads[t];
    if th.pc.CheckMask? || th.pc.CheckBucket? {
      CheckGoal(s, s', t, e, a.contents, c');
    } else if th.pc.Count? || th.pc.Release? {
      if th.pc.Count? { CountMeansAbsent(s, t, a); }
      CountGoal(s, s', t, e, a.contents, c');
    } else {
      LockGoal(s, s', t, e, a.contents, c');
    }
  }

  lemma CheckGoal(s: State, s': State, t: Tid, e: Event, c: map<Key, Val>, c': map<Key, Val>)
    requires t in s.threads && QuietStep(s, s', t, e, s.threads[t]) && ThreadOk(ViewOf(s), s.threads[t]) && Fresh(s, t)
    requires s.threads[t].pc.CheckMask? || s.threads[t].pc.CheckBucket?
    requires SpecStep(c, e, c')
    ensures t in s'.threads && Fresh(s', t) && Goal(s', t, c') == Goal(s, t, c)
  {
    hide Done, Guard, ParentsDone, Deepest, Present, OnPath, Pow2, NextOnPath, AcquiringOk;
  }

  lemma CountGoal(s: State, s': State, t: Tid, e: Event, c: map<Key, Val>, c': map<Key, Val>)
    requires t in s.threads && QuietStep(s, s', t, e, s.threads[t]) && ThreadOk(ViewOf(s), s.threads[t]) && Fresh(s, t)
    requires s.threads[t].pc.Release? || (s.threads[t].pc.Count? && s.threads[t].op.key !in c)
    requires SpecStep(c, e, c')
    ensures t in s'.threads && Fresh(s', t) && Goal(s', t, c') == Goal(s, t, c)
  {
    hide Done, Guard, ParentsDone, Deepest, Present, OnPath, Pow2, NextOnPath, AcquiringOk;
  }

  lemma LockGoal(s: State, s': State, t: Tid, e: Event, c: map<Key, Val>, c': map<Key, Val>)
    requires t in s.threads && QuietStep(s, s', t, e, s.threads[t]) && ThreadOk(ViewOf(s), s.threads[t]) && Fresh(s, t)
    requires var pc := s.threads[t].pc;
             !pc.Idle? && !pc.CheckMask? && !pc.CheckBucket? && !pc.Count? && !pc.Release?
    requires SpecStep(c, e, c')
    ensures t in s'.threads && Fresh(s', t) && Goal(s', t, c') == Goal(s, t, c)
  {
    hide Done, Guard, ParentsDone, Deepest, Present, OnPath, Pow2, NextOnPath, AcquiringOk, HasKey, NoOtherHolder;
  }

  lemma NobodyGrows(s: State, t: Tid, a: Abs)
    requires Inv(s, a) && Alone(s, t) && s.threads[t].grow == None
    ensures s.k !in s.claimed
  {
    hide Done, Stored, Placed, Settled, Mutex, Marked, Shape, AcquiringOk, UsingOk;
    forall u | u in s.threads ensures s.threads[u].grow == None {
      if u != t { assert ThreadOk(ViewOf(s), s.threads[u]); }
    }
  }

  lemma ChangeGoal(s: State, s': State, t: Tid, e: Event, a: Abs, c': map<Key, Val>)
    requires Inv(s, a) && Alone(s, t) && ChangeStep(s, s', t, e, s.threads[t]) && Fresh(s, t)
    requires SpecStep(a.contents, e, c')
    ensures t in s'.threads && Fresh(s', t) && Goal(s', t, c') == Goal(s, t, a.contents)
  {
    hide Done, Inv, ChangeStep, StepUnlink, StepLink, StepGrow, StepPublish, ThreadOk, SpecStep, Fresh, Goal, Shape;
    ThreadAt(s, a, t);
    GrowerIsNewest(s, t, a);
    if s.threads[t].grow == None { NobodyGrows(s, t, a); }
    ChangesGoal(s, s', t, e, a.contents, c');
  }

  lemma GrowerIsNewest(s: State, t: Tid, a: Abs)
    requires Inv(s, a) && t in s.threads
    ensures s.threads[t].grow.Some? ==> s.threads[t].grow == Some(s.k)
    ensures |s.buckets| == Pow2(s.k) && (s.k == 1 || s.k >= 8)
  {
    hide Done, Stored, Placed, Settled, Mutex, Marked, AllThreads, Pow2;
  }

  lemma ChangesGoal(s: State, s': State, t: Tid, e: Event, c: map<Key, Val>, c': map<Key, Val>)
    requires t in s.threads && ChangeStep(s, s', t, e, s.threads[t]) && ThreadOk(ViewOf(s), s.threads[t]) && Fresh(s, t)
    requires |s.buckets| == Pow2(s.k) && (s.k == 1 || s.k >= 8)
    requires if s.threads[t].grow == None then s.k !in s.claimed else s.threads[t].grow == Some(s.k)
    requires SpecStep(c, e, c')
    ensures t in s'.threads && Fresh(s', t) && Goal(s', t, c') == Goal(s, t, c)
  {
    BucketsAfter(s.k);
    hide Done, Guard, ParentsDone, Deepest, Present, OnPath, Pow2, AcquiringOk, HasKey, Below;
  }

  lemma GoalKept(s: State, s': State, t: Tid, e: Event, a: Abs, c': map<Key, Val>)
    requires Inv(s, a) && Alone(s, t) && Next(s, s', t, e) && s.threads[t].pc != Idle && Fresh(s, t)
    requires SpecStep(a.contents, e, c')
    ensures t in s'.threads && Fresh(s', t) && Goal(s', t, c') == Goal(s, t, a.contents)
  {
    hide Done, Inv, ThreadOk, Fresh, Goal, Invoke, StepLoadMask, StepProbe, StepTryLock, StepLock, StepRecheck, StepScan,
         StepScanUpgrade, StepRelock, StepMove, StepScanned, StepSearch, StepUpgrade, StepUpgradeWait, StepCheckMask,
         StepCheckBucket, StepUnlink, StepCount, StepLink, StepGrow, StepRelease, StepPublish;
    var th := s.threads[t];
    ThreadAt(s, a, t);
    if AccessStep(s, s', t, e, th) {
      AccessGoal(s, s', t, e, a.contents);
    } else if QuietStep(s, s', t, e, th) {
      QuietGoal(s, s', t, e, a, c');
    } else {
      assert ChangeStep(s, s', t, e, th);
      ChangeGoal(s, s', t, e, a, c');
    }
  }

  // ---------------------------------------------------------------- results

  /** Steps of one call: t moves and nobody else, until it returns. */
  ghost predicate OneCall(states: seq<State>, moves: seq<Move>, t: Tid) {
    && Follows(states, moves)
    && forall i :: 0 <= i < |moves| ==> moves[i].tid == t && t in states[i].threads && states[i].threads[t].pc != Idle
  }

  lemma {:induction false} AloneAnswers(states: seq<State>, moves: seq<Move>, t: Tid, a: Abs) returns (a': Abs)
    requires OneCall(states, moves, t) && Inv(states[0], a) && Sized(states[0], a) && Alone(states[0], t)
    ensures Inv(states[|moves|], a') && Sized(states[|moves|], a') && Alone(states[|moves|], t)
    ensures Came(a.contents, states[0].threads[t], a'.contents, states[|moves|].threads[t])
    ensures moves != [] && states[|moves|].threads[t].pc == Idle ==> states[|moves|].threads[t].res.Some?
    ensures Fresh(states[0], t) ==> Fresh(states[|moves|], t)
    ensures Fresh(states[0], t) ==> Goal(states[|moves|], t, a'.contents) == Goal(states[0], t, a.contents)
    decreases |moves|
  {
    hide Inv, Sized, SpecStep, Next, Came, Fresh, Goal, CommitDiscipline;
    if moves == [] {
      a' := a;
      CameNowhere(a.contents, states[0].threads[t]);
    } else {
      var n := |moves| - 1;
      var a1 := AloneAnswers(states[..|states| - 1], moves[..n], t, a);
      var s, s', e := states[n], states[n + 1], moves[n].event;
      assert Next(s, s', t, e);
      a' := StepRefines(s, s', t, e, a1);
      SizeStep(s, s', t, e, a1, a');
      StepCommits(s, s', t, e, a1);
      Returned(s, s', t, e);
      StaysAlone(s, s', t, e);
      CameOn(s, s', t, e, a.contents, states[0].threads[t], a1.contents, a'.contents);
      if Fresh(s, t) { GoalKept(s, s', t, e, a1, a'.contents); }
    }
  }

  lemma Returned(s: State, s': State, t: Tid, e: Event)
    requires t in s.threads && CommitDiscipline(s, s', t, e)
    ensures t in s'.threads && (s'.threads[t].pc == Idle ==> s'.threads[t].res.Some?)
  {
  }

  lemma CameNowhere(c: map<Key, Val>, th: Thread)
    ensures Came(c, th, c, th)
  {
  }

  lemma AllIdle(s: State, t: Tid)
    requires Alone(s, t) && s.threads[t].pc == Idle
    ensures forall u | u in s.threads :: s.threads[u].pc == Idle
  {
  }

  /** However a call that runs alone proceeds: when it returns it has given the map's answer, unless it had one
      before, and the map is what its operation makes of it. */
  lemma ReturnsAnswer(states: seq<State>, moves: seq<Move>, t: Tid) returns (c: map<Key, Val>, c': map<Key, Val>)
    requires OneCall(states, moves, t) && Reachable(states[0]) && Alone(states[0], t) && states[0].threads[t].pc != Idle
    requires t in states[|moves|].threads && states[|moves|].threads[t].pc == Idle
    ensures Represents(states[0], c) && Represents(states[|moves|], c') && states[|moves|].size == |c'|
    ensures var th, th' := states[0].threads[t], states[|moves|].threads[t];
            if th.res.Some? then th'.res == th.res && c' == c
            else th'.res == Some(Answer(c, th.op)) && c' == Applied(c, th.op)
    ensures states[0].threads[t].pc == LoadMask ==>
              |states[|moves|].buckets| == Buckets(|states[0].buckets|, c, states[0].threads[t].op)
  {
    hide Inv, Represents, Next, Fresh, Goal, StartsWith, Reachable, Sized, Answer, Applied;
    var a := ReachableInv(states[0]);
    var a' := AloneAnswers(states, moves, t, a);
    var last := states[|moves|];
    InvRepresents(states[0], a);
    InvRepresents(last, a');
    AllIdle(last, t);
    AtRest(last, a');
    RestingSize(last, a');
    c, c' := a.contents, a'.contents;
    if states[0].threads[t].pc == LoadMask { GoalAtStart(states[0], last, t, a, a'); }
  }

  lemma RestingSize(s: State, a: Abs)
    requires StartsWith(s, a)
    ensures s.size == |a.contents|
  {
  }

  /** A full table gets twice the buckets, the first time 256. */
  function Buckets(n: nat, c: map<Key, Val>, op: Op): nat {
    if |Applied(c, op)| <= |c| || |Applied(c, op)| < n - 1 then n else if n < 256 then 256 else 2 * n
  }

  lemma GoalAtStart(s: State, last: State, t: Tid, a: Abs, a': Abs)
    requires Alone(s, t) && s.threads[t].pc == LoadMask && Sized(s, a)
    requires t in last.threads && last.threads[t].pc == Idle
    requires Fresh(s, t) ==> Goal(last, t, a'.contents) == Goal(s, t, a.contents)
    ensures |last.buckets| == Buckets(|s.buckets|, a.contents, s.threads[t].op)
  {
    hide Applied, Sized;
    NobodyLinks(s, t, a);
    AppliedSize(a.contents, s.threads[t].op);
  }

  lemma NobodyLinks(s: State, t: Tid, a: Abs)
    requires Alone(s, t) && s.threads[t].pc == LoadMask && Sized(s, a)
    ensures s.size == |a.contents|
  {
    assert Linkers(s) == {};
  }

  lemma AppliedSize(c: map<Key, Val>, op: Op)
    ensures if op.Insert? && op.key !in c then |Applied(c, op)| == |c| + 1 else |Applied(c, op)| <= |c|
  {
    if op.Insert? && op.key !in c {
      assert Applied(c, op).Keys == c.Keys + {op.key};
    } else if op.Erase? && op.key in c {
      assert c.Keys == Applied(c, op).Keys + {op.key};
    }
    assert |c| == |c.Keys| && |Applied(c, op)| == |Applied(c, op).Keys|;
  }

  lemma {:induction false} RunAlone(s: State, t: Tid, a: Abs) returns (states: seq<State>, moves: seq<Move>)
    requires Inv(s, a) && Alone(s, t)
    ensures OneCall(states, moves, t) && states[0] == s
    ensures t in states[|moves|].threads && states[|moves|].threads[t].pc == Idle
    decreases Behind(s, s.threads[t]), Rank(s.threads[t]), Phase(s.threads[t].pc), Depth(s.threads[t]), Stage(s.threads[t]),
              ToScan(s, s.threads[t]), Rest(s, s.threads[t])
  {
    hide Inv, Next, SpecStep, CommitDiscipline, Behind, Rank, Phase, Depth, Stage, ToScan, Rest;
    states, moves := [s], [];
    if s.threads[t].pc != Idle {
      var s', e := StepAlone(s, t, a);
      var a' := StepRefines(s, s', t, e, a);
      StepCommits(s, s', t, e, a);
      StaysAlone(s, s', t, e);
      var states', moves' := RunAlone(s', t, a');
      states, moves := [s] + states', [Move(t, e)] + moves';
      Prepended(s, Move(t, e), states', moves', t);
    }
  }

  lemma Prepended(s: State, m: Move, states: seq<State>, moves: seq<Move>, t: Tid)
    requires OneCall(states, moves, t) && m.tid == t && t in s.threads && s.threads[t].pc != Idle
    requires Next(s, states[0], t, m.event)
    ensures OneCall([s] + states, [m] + moves, t)
  {
    hide Next;
  }

  /** From every state that concurrent operations can reach a call can return by its own steps, if the others have
      returned: nobody has left anything behind that it would have to wait for, or search for ever. */
  lemma Completes(s: State, t: Tid) returns (states: seq<State>, moves: seq<Move>)
    requires Reachable(s) && Alone(s, t)
    ensures OneCall(states, moves, t) && states[0] == s
    ensures t in states[|moves|].threads && states[|moves|].threads[t].pc == Idle
  {
    var a := ReachableInv(s);
    states, moves := RunAlone(s, t, a);
  }
}
