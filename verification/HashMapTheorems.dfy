/** The main results about the hash table protocol: over every run it is a map whose operations take
    effect one at a time, each between its call and its return, and it cannot deadlock. */
module HashMapTheorems {
  import opened Options
  import opened HashPaths
  import opened HashMapProtocol
  import opened HashMapInvariant
  import opened HashMapProof

  /** A new table is one that operations may begin on. */
  lemma InitStarts(s: State)
    requires Init(s)
    ensures StartsWith(s, Abs(map[], map[]))
  {
    assert Pow2(s.k) >= 2 by { Pow2Monotone(1, s.k); }
  }

  /** With nobody at work the finished buckets are those that are not marked. */
  lemma RestDone(s: State)
    requires forall t | t in s.threads :: s.threads[t].work == []
    ensures forall j: nat :: j in Done(s) <==> IsChain(s.buckets, j)
  {
    forall j: nat ensures NobodyFills(s, j) { }
  }

  lemma RestPlaced(s: State, a: Abs)
    requires forall j: nat :: j in Done(s) <==> IsChain(s.buckets, j)
    requires Stored(s.buckets, a)
    ensures Placed(ViewOf(s), a) <==> InPlace(s.hash, s.buckets, a) && KeysClear(s.hash, s.buckets, a)
    ensures Settled(ViewOf(s)) <==> LastSettled(s.buckets, s.k)
  {
    hide Done, Stored, OnPath, InLast, IsChain, NoneDoneUnder, ClearBelow, DeepestFor;
    forall key | key in a.loc
      ensures NoneDoneUnder(Done(s), s.hash(key), a.loc[key])
              <==> DeepestFor(s.buckets, s.hash(key), a.loc[key]) && ClearBelow(s.buckets, s.hash(key), a.loc[key])
    {
      NoneDoneAtRest(Done(s), s.buckets, s.hash(key), a.loc[key]);
    }
  }

  lemma NoneDoneAtRest(done: set<nat>, buckets: seq<Bucket>, h: nat, loc: nat)
    requires forall j: nat :: j in done <==> IsChain(buckets, j)
    ensures NoneDoneUnder(done, h, loc) <==> DeepestFor(buckets, h, loc) && ClearBelow(buckets, h, loc)
  {
    hide OnPath, IsChain;
    forall j: nat ensures OnPath(j, j) { OwnPath(j); }
  }

  lemma StartInv(s: State, a: Abs)
    requires StartsWith(s, a)
    ensures Inv(s, a) && Sized(s, a)
  {
    hide Done, Stored, InPlace, KeysClear, LastSettled, Placed, Settled, ThreadOk, Below;
    RestDone(s);
    RestPlaced(s, a);
    assert Linkers(s) == {};
    forall t | t in s.threads ensures ThreadOk(ViewOf(s), s.threads[t]) { IdleOk(ViewOf(s), s.threads[t]); }
    IdleLocks(s);
  }

  lemma IdleOk(v: View, th: Thread)
    requires Idles(th)
    ensures ThreadOk(v, th)
  {
  }

  lemma IdleLocks(s: State)
    requires s.claimed == Below(s.k) && forall t | t in s.threads :: Idles(s.threads[t])
    ensures Mutex(s) && Marked(s) && OneGrower(s)
  {
  }

  // ---------------------------------------------------------------- steps

  /** The steps of the bucket accessor and of lazy rehashing. */
  ghost predicate AccessStep(s: State, s': State, t: Tid, e: Event, th: Thread) {
    || StepProbe(s, s', t, e, th) || StepTryLock(s, s', t, e, th) || StepLock(s, s', t, e, th)
    || StepRecheck(s, s', t, e, th) || StepScan(s, s', t, e, th) || StepScanUpgrade(s, s', t, e, th)
    || StepRelock(s, s', t, e, th) || StepMove(s, s', t, e, th) || StepScanned(s, s', t, e, th)
  }

  lemma AccessRefines(s: State, s': State, t: Tid, e: Event, a: Abs) returns (a': Abs)
    requires Inv(s, a) && t in s.threads && AccessStep(s, s', t, e, s.threads[t])
    ensures Inv(s', a') && SpecStep(a.contents, e, a'.contents)
  {
    a' := a;
    var th := s.threads[t];
    if StepProbe(s, s', t, e, th) { ProbeStep(s, s', t, e, a); }
    else if StepTryLock(s, s', t, e, th) { TryLockStep(s, s', t, e, a); }
    else if StepLock(s, s', t, e, th) { LockStep(s, s', t, e, a); }
    else if StepRecheck(s, s', t, e, th) {
      if s.buckets[th.top].RehashReq? { MarkStep(s, s', t, e, a); } else { RecheckKeeps(s, s', t, e, a); }
    }
    else if StepScan(s, s', t, e, th) { ScanStep(s, s', t, e, a); }
    else if StepScanUpgrade(s, s', t, e, th) { ScanUpgradeStep(s, s', t, e, a); }
    else if StepRelock(s, s', t, e, th) { RelockStep(s, s', t, e, a); }
    else if StepMove(s, s', t, e, th) { a' := MoveStep(s, s', t, e, a); }
    else { ScannedStep(s, s', t, e, a); }
  }

  /** The other steps that leave the table's contents and mask alone. */
  ghost predicate QuietStep(s: State, s': State, t: Tid, e: Event, th: Thread) {
    || Invoke(s, s', t, e, th) || StepLoadMask(s, s', t, e, th) || StepSearch(s, s', t, e, th)
    || StepUpgrade(s, s', t, e, th) || StepUpgradeWait(s, s', t, e, th) || StepCheckMask(s, s', t, e, th)
    || StepCheckBucket(s, s', t, e, th) || StepCount(s, s', t, e, th) || StepRelease(s, s', t, e, th)
  }

  lemma QuietRefines(s: State, s': State, t: Tid, e: Event, a: Abs)
    requires Inv(s, a) && t in s.threads && QuietStep(s, s', t, e, s.threads[t])
    ensures Inv(s', a) && SpecStep(a.contents, e, a.contents)
  {
    var th := s.threads[t];
    if Invoke(s, s', t, e, th) { InvokeStep(s, s', t, e, a); }
    else if StepLoadMask(s, s', t, e, th) { LoadMaskStep(s, s', t, e, a); }
    else if StepSearch(s, s', t, e, th) { SearchStep(s, s', t, e, a); }
    else if StepUpgrade(s, s', t, e, th) { UpgradeStep(s, s', t, e, a); }
    else if StepUpgradeWait(s, s', t, e, th) { UpgradeWaitStep(s, s', t, e, a); }
    else if StepCheckMask(s, s', t, e, th) { CheckMaskStep(s, s', t, e, a); }
    else if StepCheckBucket(s, s', t, e, th) { CheckBucketStep(s, s', t, e, a); }
    else if StepCount(s, s', t, e, th) { CountStep(s, s', t, e, a); }
    else { ReleaseStep(s, s', t, e, a); }
  }

  /** Every step of every thread keeps the invariant and is a step of the abstract map. */
  lemma StepRefines(s: State, s': State, t: Tid, e: Event, a: Abs) returns (a': Abs)
    requires Inv(s, a) && Next(s, s', t, e)
    ensures Inv(s', a') && SpecStep(a.contents, e, a'.contents)
  {
    a' := a;
    var th := s.threads[t];
    if AccessStep(s, s', t, e, th) { a' := AccessRefines(s, s', t, e, a); }
    else if QuietStep(s, s', t, e, th) { QuietRefines(s, s', t, e, a); }
    else if StepUnlink(s, s', t, e, th) { a' := UnlinkStep(s, s', t, e, a); }
    else if StepLink(s, s', t, e, th) { a' := LinkStep(s, s', t, e, a); }
    else if StepGrow(s, s', t, e, th) { GrowStep(s, s', t, e, a); }
    else { PublishStep(s, s', t, e, a); }
  }

  // ---------------------------------------------------------------- the number of entries

  function Links(th: Thread): int { if th.pc.Link? then 1 else 0 }

  /** The steps that change the table's contents or mask. */
  ghost predicate ChangeStep(s: State, s': State, t: Tid, e: Event, th: Thread) {
    StepUnlink(s, s', t, e, th) || StepLink(s, s', t, e, th) || StepGrow(s, s', t, e, th) || StepPublish(s, s', t, e, th)
  }

  /** By how many entries an operation changes the map. */
  function Delta(e: Event): int {
    if e.Commit? && e.res.Inserted? then 1 else if e.Commit? && e.res.Erased? then -1 else 0
  }

  /** What a step does to my_size: the entry of an insert is counted before it is linked. */
  ghost predicate Counts(s: State, s': State, t: Tid, e: Event)
    requires t in s.threads
  {
    && t in s'.threads && s'.threads == s.threads[t := s'.threads[t]] && s'.hash == s.hash
    && s'.size - Links(s'.threads[t]) == s.size - Links(s.threads[t]) + Delta(e)
  }

  lemma AccessCounts(s: State, s': State, t: Tid, e: Event)
    requires t in s.threads && AccessStep(s, s', t, e, s.threads[t])
    ensures Counts(s, s', t, e)
  {
    hide NoOtherHolder, NoOtherWriter, OnPath, Moved;
  }

  lemma QuietCounts(s: State, s': State, t: Tid, e: Event)
    requires t in s.threads && QuietStep(s, s', t, e, s.threads[t])
    ensures Counts(s, s', t, e)
  {
    hide NoOtherHolder, NoOtherWriter, OnPath, HasKey, Pow2, NextOnPath;
  }

  lemma ChangeCounts(s: State, s': State, t: Tid, e: Event)
    requires t in s.threads && ChangeStep(s, s', t, e, s.threads[t])
    ensures Counts(s, s', t, e)
  {
    hide OnPath, HasKey, Pow2, Below, Extended;
  }

  lemma LinkersAfter(s: State, s': State, t: Tid)
    requires t in s.threads && t in s'.threads && s'.threads == s.threads[t := s'.threads[t]]
    ensures |Linkers(s')| == |Linkers(s)| - Links(s.threads[t]) + Links(s'.threads[t])
  {
    var before, after := Linkers(s), Linkers(s');
    assert before - {t} == after - {t};
    hide Linkers;
    OneOut(before, t);
    OneOut(after, t);
  }

  lemma OneOut(x: set<Tid>, t: Tid)
    ensures |x| == |x - {t}| + if t in x then 1 else 0
  {
    if t in x { assert x == (x - {t}) + {t}; } else { assert x == x - {t}; }
  }

  lemma SpecCounts(c: map<Key, Val>, e: Event, c': map<Key, Val>)
    requires SpecStep(c, e, c')
    ensures |c'| == |c| + Delta(e)
  {
    if e.Commit? && e.res.Inserted? {
      assert c'.Keys == c.Keys + {e.op.key};
    } else if e.Commit? && e.res.Erased? {
      assert c.Keys == c'.Keys + {e.op.key};
    }
    assert |c| == |c.Keys| && |c'| == |c'.Keys|;
  }

  /** my_size keeps up with the map. */
  lemma SizeStep(s: State, s': State, t: Tid, e: Event, a: Abs, a': Abs)
    requires Next(s, s', t, e) && SpecStep(a.contents, e, a'.contents) && Sized(s, a)
    ensures Sized(s', a') && s'.hash == s.hash
  {
    var th := s.threads[t];
    if AccessStep(s, s', t, e, th) { AccessCounts(s, s', t, e); }
    else if QuietStep(s, s', t, e, th) { QuietCounts(s, s', t, e); }
    else { ChangeCounts(s, s', t, e); }
    hide SpecStep, Linkers;
    SpecCounts(a.contents, e, a'.contents);
    LinkersAfter(s, s', t);
  }

  // ---------------------------------------------------------------- finished buckets

  /** Buckets are finished after their parents, and for good. */
  lemma DoneGrows(s: State, s': State, t: Tid, e: Event, a: Abs)
    requires Inv(s, a) && Next(s, s', t, e)
    ensures MoreDone(Done(s), Done(s'))
  {
    hide Done, Inv, Next, StepScanned;
    HasThread(s, s', t, e);
    if StepScanned(s, s', t, e, s.threads[t]) {
      ThreadAt(s, a, t);
      ScannedGrows(s, s', t, e);
    } else {
      DoneStays(s, s', t, e, a);
    }
  }

  lemma HasThread(s: State, s': State, t: Tid, e: Event)
    requires Next(s, s', t, e)
    ensures t in s.threads
  {
  }

  lemma ScannedGrows(s: State, s': State, t: Tid, e: Event)
    requires AllThreads(s) && Mutex(s) && t in s.threads && StepScanned(s, s', t, e, s.threads[t])
    requires ThreadOk(ViewOf(s), s.threads[t])
    ensures MoreDone(Done(s), Done(s'))
  {
    hide Done, AllThreads, Mutex, UsingOk, ScanOk;
    HeldIsDone(s, t);
    ScannedDone(s, s', t);
  }

  lemma DoneStays(s: State, s': State, t: Tid, e: Event, a: Abs)
    requires Inv(s, a) && Next(s, s', t, e) && !StepScanned(s, s', t, e, s.threads[t])
    ensures Done(s') == Done(s)
  {
    hide Done, Inv, ThreadOk, Invoke, StepLoadMask, StepProbe, StepTryLock, StepLock, StepRecheck, StepScan, StepScanUpgrade,
         StepRelock, StepMove, StepScanned, StepSearch, StepUpgrade, StepUpgradeWait, StepCheckMask, StepCheckBucket,
         StepUnlink, StepCount, StepLink, StepGrow, StepRelease, StepPublish;
    var th := s.threads[t];
    ThreadAt(s, a, t);
    if AccessStep(s, s', t, e, th) {
      AccessStays(s, s', t, e);
    } else if QuietStep(s, s', t, e, th) {
      QuietLocal(s, s', t, e);
      DoneKept(s, s', t, s'.threads[t]);
    } else {
      assert ChangeStep(s, s', t, e, th);
      ChangeStays(s, s', t, e);
    }
  }

  /** The step changes its thread's record only, and no work list. */
  ghost predicate LocalTo(s: State, s': State, t: Tid)
    requires t in s.threads
  {
    && t in s'.threads && s'.buckets == s.buckets && s'.threads == s.threads[t := s'.threads[t]]
    && s'.threads[t].work == s.threads[t].work
  }

  lemma AccessStays(s: State, s': State, t: Tid, e: Event)
    requires t in s.threads && AccessStep(s, s', t, e, s.threads[t]) && !StepScanned(s, s', t, e, s.threads[t])
    ensures Done(s') == Done(s)
  {
    hide Done, NoOtherHolder, NoOtherWriter, OnPath, Moved;
    var th := s.threads[t];
    if StepRecheck(s, s', t, e, th) && s.buckets[th.top].RehashReq? {
      MarkDone(s, s', t);
    } else if StepMove(s, s', t, e, th) {
      MoveDone(s, s', t);
    } else {
      assert LocalTo(s, s', t);
      DoneKept(s, s', t, s'.threads[t]);
    }
  }

  lemma QuietLocal(s: State, s': State, t: Tid, e: Event)
    requires t in s.threads && QuietStep(s, s', t, e, s.threads[t]) && ThreadOk(ViewOf(s), s.threads[t])
    ensures LocalTo(s, s', t)
  {
    hide Done, NoOtherHolder, NoOtherWriter, OnPath, HasKey, Pow2, NextOnPath, AcquiringOk, UsingOk;
  }

  lemma ChangeStays(s: State, s': State, t: Tid, e: Event)
    requires t in s.threads && ChangeStep(s, s', t, e, s.threads[t])
    requires ThreadOk(ViewOf(s), s.threads[t]) && LockOk(s, t, s.threads[t])
    ensures Done(s') == Done(s)
  {
    hide Done, ThreadOk, LockOk, StepLink, StepUnlink, StepPublish;
    var th := s.threads[t];
    if StepLink(s, s', t, e, th) {
      LinkFacts(s, s', t, e);
      ReplaceDone(s, s', t, s'.threads[t]);
    } else if StepUnlink(s, s', t, e, th) {
      UnlinkFacts(s, s', t, e);
      ReplaceDone(s, s', t, s'.threads[t]);
    } else if StepPublish(s, s', t, e, th) {
      PublishStays(s, s', t, e);
    } else {
      DoneKept(s, s', t, s'.threads[t]);
    }
  }

  lemma PublishStays(s: State, s': State, t: Tid, e: Event)
    requires t in s.threads && StepPublish(s, s', t, e, s.threads[t])
    ensures Done(s') == Done(s)
  {
    hide Done;
    PublishDone(s, s', t);
  }

  /** Every finished bucket's parent is finished. */
  ghost predicate Closed(done: set<nat>) {
    forall j | j in done && j >= 2 :: Parent(j) in done
  }

  // ---------------------------------------------------------------- runs

  datatype Move = Move(tid: Tid, event: Event)

  /** A run begins on any table that has been left by serial or by other concurrent operations. */
  ghost predicate Starts(s: State) { exists a :: StartsWith(s, a) }

  ghost predicate IsRun(states: seq<State>, moves: seq<Move>) {
    Follows(states, moves) && Starts(states[0])
  }

  ghost predicate Follows(states: seq<State>, moves: seq<Move>) {
    |states| == |moves| + 1
    && forall i :: 0 <= i < |moves| ==> Next(states[i], states[i + 1], moves[i].tid, moves[i].event)
  }

  /** The table stores exactly the entries of c, each in one place. */
  ghost predicate Represents(s: State, c: map<Key, Val>) {
    && (forall j: nat, i :: IsChain(s.buckets, j) && 0 <= i < |s.buckets[j].nodes| ==>
          s.buckets[j].nodes[i].key in c && c[s.buckets[j].nodes[i].key] == s.buckets[j].nodes[i].val)
    && (forall key | key in c :: StoredOnce(s, key))
  }

  ghost predicate StoredAt(s: State, key: Key, j: nat, i: nat) {
    IsChain(s.buckets, j) && i < |s.buckets[j].nodes| && s.buckets[j].nodes[i].key == key
  }

  ghost predicate StoredOnce(s: State, key: Key) {
    exists j, i :: StoredAt(s, key, j, i) && forall j', i' :: StoredAt(s, key, j', i') ==> j' == j && i' == i
  }

  lemma InvRepresents(s: State, a: Abs)
    requires Inv(s, a)
    ensures Represents(s, a.contents)
  {
    forall j: nat, i | IsChain(s.buckets, j) && 0 <= i < |s.buckets[j].nodes|
      ensures s.buckets[j].nodes[i].key in a.contents
      ensures a.contents[s.buckets[j].nodes[i].key] == s.buckets[j].nodes[i].val
    {
      assert NodeAt(s.buckets[j].nodes[i], j, a);
    }
    forall key | key in a.contents ensures StoredOnce(s, key) {
      var j := a.loc[key];
      assert IsChain(s.buckets, j) && HasKey(s.buckets[j].nodes, key);
      var i: nat :| i < |s.buckets[j].nodes| && s.buckets[j].nodes[i].key == key;
      assert StoredAt(s, key, j, i);
      forall j': nat, i': nat | StoredAt(s, key, j', i') ensures j' == j && i' == i {
        assert NodeAt(s.buckets[j'].nodes[i'], j', a);
      }
    }
  }

  /** A run of the table, seen as a sequence of maps. */
  ghost predicate IsMapHistory(moves: seq<Move>, maps: seq<map<Key, Val>>) {
    |maps| == |moves| + 1
    && forall i :: 0 <= i < |moves| ==> SpecStep(maps[i], moves[i].event, maps[i + 1])
  }

  lemma {:induction false} RunInvariant(states: seq<State>, moves: seq<Move>, start: Abs)
    returns (maps: seq<map<Key, Val>>, a: Abs)
    requires Follows(states, moves) && StartsWith(states[0], start)
    ensures Inv(states[|moves|], a) && Sized(states[|moves|], a)
    ensures IsMapHistory(moves, maps) && maps[0] == start.contents && maps[|moves|] == a.contents
    ensures Closed(Done(states[0])) ==> Closed(Done(states[|moves|]))
    ensures states[|moves|].hash == states[0].hash
    ensures forall i :: 0 <= i < |states| ==> Represents(states[i], maps[i])
    decreases |moves|
  {
    hide Inv, Represents, SpecStep, Next, StartsWith, Sized, Done;
    if moves == [] {
      a, maps := start, [start.contents];
      StartInv(states[0], a);
      InvRepresents(states[0], a);
    } else {
      var n := |moves| - 1;
      var maps0, a0 := RunInvariant(states[..|states| - 1], moves[..n], start);
      a := StepRefines(states[n], states[n + 1], moves[n].tid, moves[n].event, a0);
      DoneGrows(states[n], states[n + 1], moves[n].tid, moves[n].event, a0);
      SizeStep(states[n], states[n + 1], moves[n].tid, moves[n].event, a0, a);
      maps := maps0 + [a.contents];
      InvRepresents(states[n + 1], a);
      forall i | 0 <= i < |moves| ensures SpecStep(maps[i], moves[i].event, maps[i + 1]) {
        if i < n { assert moves[..n][i] == moves[i]; }
      }
    }
  }

  /** Linearizability: along every run the table is a map that the committed operations, in commit
      order, transform one at a time and with the answers they got.  No key is lost or doubled.  A run of a new
      table begins with the empty map. */
  lemma Linearizable(states: seq<State>, moves: seq<Move>) returns (maps: seq<map<Key, Val>>)
    requires IsRun(states, moves)
    ensures IsMapHistory(moves, maps)
    ensures forall i :: 0 <= i < |states| ==> Represents(states[i], maps[i])
    ensures Init(states[0]) ==> maps[0] == map[]
  {
    var start :| StartsWith(states[0], start);
    if Init(states[0]) {
      InitStarts(states[0]);
      start := Abs(map[], map[]);
    }
    var a;
    maps, a := RunInvariant(states, moves, start);
  }

  /** Whenever no operation is under way my_size is the number of entries, and the table is one that operations,
      concurrent or serial, may begin on: runs may follow one another.  Rehashing leaves closed under parent what is. */
  lemma RestStarts(states: seq<State>, moves: seq<Move>, start: Abs) returns (maps: seq<map<Key, Val>>, a: Abs)
    requires Follows(states, moves) && StartsWith(states[0], start)
    requires forall t | t in states[|moves|].threads :: states[|moves|].threads[t].pc == Idle
    ensures IsMapHistory(moves, maps) && forall i :: 0 <= i < |states| ==> Represents(states[i], maps[i])
    ensures maps[0] == start.contents
    ensures StartsWith(states[|moves|], a) && a.contents == maps[|moves|] && states[|moves|].size == |maps[|moves|]|
    ensures ClosedUp(states[0].buckets) ==> ClosedUp(states[|moves|].buckets)
    ensures states[|moves|].hash == states[0].hash
  {
    hide Represents, SpecStep, Next, Inv, Resting, Closed, ClosedUp, Done;
    maps, a := RunInvariant(states, moves, start);
    AtRest(states[|moves|], a);
    ClosedAtRest(states[0]);
    ClosedAtRest(states[|moves|]);
  }

  lemma ClosedAtRest(s: State)
    requires forall t | t in s.threads :: Idles(s.threads[t])
    ensures Closed(Done(s)) <==> ClosedUp(s.buckets)
  {
    hide Done;
    RestDone(s);
  }

  lemma AtRest(s: State, a: Abs)
    requires Inv(s, a) && Sized(s, a) && forall t | t in s.threads :: s.threads[t].pc == Idle
    ensures StartsWith(s, a)
  {
    hide Done, Stored, InPlace, KeysClear, LastSettled, Placed, Settled, ThreadOk, Below, Mutex, Marked, OneGrower;
    forall t | t in s.threads ensures Idles(s.threads[t]) {
      assert ThreadOk(ViewOf(s), s.threads[t]);
      IdleIdles(ViewOf(s), s.threads[t]);
    }
    RestDone(s);
    RestPlaced(s, a);
    assert Linkers(s) == {};
    NoneClaimed(s);
  }

  lemma IdleIdles(v: View, th: Thread)
    requires ThreadOk(v, th) && th.pc == Idle
    ensures Idles(th)
  {
  }

  lemma NoneClaimed(s: State)
    requires OneGrower(s) && forall t | t in s.threads :: s.threads[t].grow == None
    ensures s.claimed == Below(s.k)
  {
  }

  ghost predicate Reachable(s: State) {
    exists states, moves :: IsRun(states, moves) && states[|moves|] == s
  }

  lemma ReachableInv(s: State) returns (a: Abs)
    requires Reachable(s)
    ensures Inv(s, a) && Sized(s, a)
  {
    var states, moves :| IsRun(states, moves) && states[|moves|] == s;
    var start :| StartsWith(states[0], start);
    var maps;
    maps, a := RunInvariant(states, moves, start);
  }

  /** The thread is between the call and the return of an operation that has not committed. */
  predicate Uncommitted(th: Thread) { !th.pc.Idle? && th.res == None }

  /** What a step does to its thread's commitment, and to the other threads. */
  ghost predicate CommitDiscipline(s: State, s': State, t: Tid, e: Event)
    requires t in s.threads
  {
    && s'.threads.Keys == s.threads.Keys
    && (forall u | u in s.threads && u != t :: s'.threads[u] == s.threads[u])
    && (e.Commit? ==> Uncommitted(s.threads[t]) && e.op == s.threads[t].op && s'.threads[t].res == Some(e.res))
    && (e.Tau? && !s.threads[t].pc.Idle? ==> s'.threads[t].res == s.threads[t].res)
    && (s.threads[t].pc.Idle? ==> Uncommitted(s'.threads[t]))
    && (!s.threads[t].pc.Idle? ==> s'.threads[t].op == s.threads[t].op)
    && (s'.threads[t].pc.Idle? ==> s'.threads[t].res.Some?)
  }

  lemma AccessCommits(s: State, s': State, t: Tid, e: Event)
    requires t in s.threads && ThreadOk(ViewOf(s), s.threads[t]) && AccessStep(s, s', t, e, s.threads[t])
    ensures CommitDiscipline(s, s', t, e)
  {
    var th := s.threads[t];
    hide ThreadOk, CommitDiscipline, StepProbe, StepTryLock, StepLock, StepRecheck, StepScan, StepScanUpgrade,
         StepRelock, StepMove, StepScanned;
    if StepProbe(s, s', t, e, th) || StepTryLock(s, s', t, e, th) || StepLock(s, s', t, e, th)
       || StepRecheck(s, s', t, e, th) {
      AcquireCommits(s, s', t, e);
    } else {
      ScanCommits(s, s', t, e);
    }
  }

  lemma AcquireCommits(s: State, s': State, t: Tid, e: Event)
    requires t in s.threads && ThreadOk(ViewOf(s), s.threads[t])
    requires var th := s.threads[t];
      || StepProbe(s, s', t, e, th) || StepTryLock(s, s', t, e, th) || StepLock(s, s', t, e, th)
      || StepRecheck(s, s', t, e, th)
    ensures CommitDiscipline(s, s', t, e)
  {
    hide Done, WorkOk, UsingOk;
    assert s'.threads.Keys == s.threads.Keys;
  }

  lemma ScanCommits(s: State, s': State, t: Tid, e: Event)
    requires t in s.threads && ThreadOk(ViewOf(s), s.threads[t])
    requires var th := s.threads[t];
      || StepScan(s, s', t, e, th) || StepScanUpgrade(s, s', t, e, th) || StepRelock(s, s', t, e, th)
      || StepMove(s, s', t, e, th) || StepScanned(s, s', t, e, th)
    ensures CommitDiscipline(s, s', t, e)
  {
    hide Done, WorkOk, UsingOk;
    assert s'.threads.Keys == s.threads.Keys;
  }

  lemma QuietCommits(s: State, s': State, t: Tid, e: Event)
    requires t in s.threads && ThreadOk(ViewOf(s), s.threads[t]) && QuietStep(s, s', t, e, s.threads[t])
    ensures CommitDiscipline(s, s', t, e)
  {
    var th := s.threads[t];
    hide ThreadOk, CommitDiscipline, Invoke, StepLoadMask, StepSearch, StepUpgrade, StepUpgradeWait, StepCheckMask,
         StepCheckBucket, StepCount, StepRelease;
    if Invoke(s, s', t, e, th) || StepLoadMask(s, s', t, e, th) || StepSearch(s, s', t, e, th) {
      BeginCommits(s, s', t, e);
    } else if StepUpgrade(s, s', t, e, th) || StepUpgradeWait(s, s', t, e, th) || StepRelease(s, s', t, e, th) {
      LockCommits(s, s', t, e);
    } else {
      CheckCommits(s, s', t, e);
    }
  }

  lemma BeginCommits(s: State, s': State, t: Tid, e: Event)
    requires t in s.threads && ThreadOk(ViewOf(s), s.threads[t])
    requires var th := s.threads[t];
      Invoke(s, s', t, e, th) || StepLoadMask(s, s', t, e, th) || StepSearch(s, s', t, e, th)
    ensures CommitDiscipline(s, s', t, e)
  {
    hide Done, WorkOk, AcquiringOk;
    assert s'.threads.Keys == s.threads.Keys;
  }

  lemma LockCommits(s: State, s': State, t: Tid, e: Event)
    requires t in s.threads && ThreadOk(ViewOf(s), s.threads[t])
    requires var th := s.threads[t];
      StepUpgrade(s, s', t, e, th) || StepUpgradeWait(s, s', t, e, th) || StepRelease(s, s', t, e, th)
    ensures CommitDiscipline(s, s', t, e)
  {
    hide Done, WorkOk, AcquiringOk;
    assert s'.threads.Keys == s.threads.Keys;
  }

  lemma CheckCommits(s: State, s': State, t: Tid, e: Event)
    requires t in s.threads && ThreadOk(ViewOf(s), s.threads[t])
    requires var th := s.threads[t];
      StepCheckMask(s, s', t, e, th) || StepCheckBucket(s, s', t, e, th) || StepCount(s, s', t, e, th)
    ensures CommitDiscipline(s, s', t, e)
  {
    hide Done, WorkOk, AcquiringOk;
    assert s'.threads.Keys == s.threads.Keys;
  }

  lemma ChangeCommits(s: State, s': State, t: Tid, e: Event)
    requires t in s.threads && ThreadOk(ViewOf(s), s.threads[t]) && ChangeStep(s, s', t, e, s.threads[t])
    ensures CommitDiscipline(s, s', t, e)
  {
    assert s'.threads.Keys == s.threads.Keys;
  }

  /** An operation commits only inside its own call, at most once, and returns only after it has
      committed. */
  lemma CommitsOnce(s: State, s': State, t: Tid, e: Event)
    requires Reachable(s) && Next(s, s', t, e)
    ensures CommitDiscipline(s, s', t, e)
  {
    var a := ReachableInv(s);
    StepCommits(s, s', t, e, a);
  }

  lemma StepCommits(s: State, s': State, t: Tid, e: Event, a: Abs)
    requires Inv(s, a) && Next(s, s', t, e)
    ensures t in s.threads && CommitDiscipline(s, s', t, e)
  {
    var th := s.threads[t];
    assert ThreadOk(ViewOf(s), th);
    if AccessStep(s, s', t, e, th) {
      AccessCommits(s, s', t, e);
    } else if QuietStep(s, s', t, e, th) {
      QuietCommits(s, s', t, e);
    } else {
      ChangeCommits(s, s', t, e);
    }
  }

  /** Whenever an operation concludes at its check for a mask race that its key is missing, the key
      is missing from the whole table at that moment, also when the operation is an insert that
      still has to link its node. */
  lemma AbsentAtCheck(s: State, s': State, t: Tid, e: Event)
    requires Reachable(s) && t in s.threads && t in s'.threads
    requires StepCheckMask(s, s', t, e, s.threads[t]) || StepCheckBucket(s, s', t, e, s.threads[t])
    requires s'.threads[t].pc.Count? || e == Commit(s.threads[t].op, NotFound)
    ensures forall j, p :: !StoredAt(s', s.threads[t].op.key, j, p)
  {
    hide Stored, Placed, Settled, Mutex, Marked, OneGrower, AllThreads, NextOnPath, Pow2, Reachable, StoredAt, Shape;
    var a := ReachableInv(s);
    if StepCheckMask(s, s', t, e, s.threads[t]) { CheckMaskStep(s, s', t, e, a); } else { CheckBucketStep(s, s', t, e, a); }
    if s'.threads[t].pc.Count? {
      CountMeansAbsent(s', t, a);
    }
    NotStored(s', a, s.threads[t].op.key);
  }

  lemma CountMeansAbsent(s: State, t: Tid, a: Abs)
    requires Inv(s, a) && t in s.threads && s.threads[t].pc.Count?
    ensures s.threads[t].op.key !in a.contents
  {
    assert ThreadOk(ViewOf(s), s.threads[t]);
    AbsentEverywhere(s, t, a);
  }

  lemma NotStored(s: State, a: Abs, key: Key)
    requires Stored(s.buckets, a) && key !in a.contents
    ensures forall j, p :: !StoredAt(s, key, j, p)
  {
    forall j: nat, p: nat ensures !StoredAt(s, key, j, p) {
      StoredAtMeansKey(s, a, key, j, p);
    }
  }

  lemma StoredAtMeansKey(s: State, a: Abs, key: Key, j: nat, p: nat)
    requires Stored(s.buckets, a)
    ensures StoredAt(s, key, j, p) ==> key in a.contents && key in a.loc && a.loc[key] == j
  {
    if StoredAt(s, key, j, p) { assert NodeAt(s.buckets[j].nodes[p], j, a); }
  }

  // ---------------------------------------------------------------- growing

  /** The table has grown from the mask m on, or a thread whose entry has filled it is about to see to it. */
  ghost predicate GrowthDue(s: State, t: Tid, m: nat) {
    || m in s.claimed
    || (t in s.threads && s.threads[t].m == m && s.threads[t].pc.Grow? && s.threads[t].pc.size >= Pow2(m) - 1)
  }

  lemma ClaimedStays(s: State, s': State, t: Tid, e: Event)
    requires Next(s, s', t, e)
    ensures s.claimed <= s'.claimed
  {
    hide NoOtherHolder, NoOtherWriter, OnPath, HasKey, Pow2, NextOnPath, Below, Extended, Moved, Parent;
  }

  lemma GrowerClaims(s: State, s': State, t: Tid, e: Event)
    requires Next(s, s', t, e) && t in s.threads && s.threads[t].pc.Grow?
    requires s.threads[t].pc.size >= Pow2(s.threads[t].m) - 1
    ensures s.threads[t].m in s'.claimed
  {
    hide NoOtherHolder, NoOtherWriter, OnPath, HasKey, Pow2, NextOnPath, Below, Extended, Moved, Parent;
  }

  lemma {:induction false} GrowthStaysDue(states: seq<State>, moves: seq<Move>, i: nat, j: nat, t: Tid, m: nat)
    requires IsRun(states, moves) && i <= j <= |moves| && GrowthDue(states[i], t, m)
    ensures GrowthDue(states[j], t, m)
    decreases j
  {
    hide Next, Starts, CommitDiscipline;
    if i < j {
      var s, s', u, e := states[j - 1], states[j], moves[j - 1].tid, moves[j - 1].event;
      GrowthStaysDue(states, moves, i, j - 1, t, m);
      assert Next(s, s', u, e);
      ClaimedStays(s, s', u, e);
      if m !in s.claimed {
        assert Reachable(s) by { Prefix(states, moves, j - 1); }
        CommitsOnce(s, s', u, e);
        HasThread(s, s', u, e);
        if u == t { GrowerClaims(s, s', t, e); } else { OtherStays(s, s', u, e, t); }
      }
    }
  }

  lemma Prefix(states: seq<State>, moves: seq<Move>, i: nat)
    requires IsRun(states, moves) && i <= |moves|
    ensures Reachable(states[i])
  {
    hide Next;
    assert IsRun(states[..i + 1], moves[..i]) && states[..i + 1][|moves[..i]|] == states[i];
  }

  lemma OtherStays(s: State, s': State, u: Tid, e: Event, t: Tid)
    requires u in s.threads && CommitDiscipline(s, s', u, e) && t in s.threads && t != u
    ensures t in s'.threads && s'.threads[t] == s.threads[t]
  {
  }

  /** A full table is grown: if an insert has made the number of entries reach the mask that it works with, the mask
      is longer whenever no operation is under way after that. */
  lemma FullGrows(states: seq<State>, moves: seq<Move>, i: nat, j: nat, t: Tid)
    requires IsRun(states, moves) && i <= j <= |moves| && t in states[i].threads && states[i].threads[t].pc.Grow?
    requires states[i].threads[t].pc.size >= Pow2(states[i].threads[t].m) - 1
    requires forall u | u in states[j].threads :: states[j].threads[u].pc == Idle
    ensures states[j].k > states[i].threads[t].m
  {
    hide Next, Starts, StartsWith, Pow2;
    var m := states[i].threads[t].m;
    GrowthStaysDue(states, moves, i, j, t, m);
    Prefix(states, moves, j);
    var a := ReachableInv(states[j]);
    AtRest(states[j], a);
    assert states[j].claimed == Below(states[j].k) by { RestClaims(states[j], a); }
  }

  lemma RestClaims(s: State, a: Abs)
    requires StartsWith(s, a)
    ensures s.claimed == Below(s.k)
  {
  }

  /** A thread that has a segment to publish doubles the number of buckets, or makes it 256; the new buckets are marked,
      the others stay as they are. */
  lemma PublishDoubles(s: State, s': State, t: Tid, e: Event)
    requires Reachable(s) && Next(s, s', t, e) && t in s.threads && s.threads[t].pc.Publish?
    ensures |s'.buckets| == if |s.buckets| < 256 then 256 else 2 * |s.buckets|
    ensures s'.buckets[..|s.buckets|] == s.buckets
    ensures forall j :: |s.buckets| <= j < |s'.buckets| ==> s'.buckets[j] == RehashReq
  {
    hide Reachable, Done, Below, Next, Inv, ThreadOk, Pow2;
    var a := ReachableInv(s);
    Publishes(s, s', t, e);
    PublisherIsNewest(s, t, a);
    BucketsAfter(s.k);
  }

  lemma Publishes(s: State, s': State, t: Tid, e: Event)
    requires Next(s, s', t, e) && t in s.threads && s.threads[t].pc.Publish?
    ensures StepPublish(s, s', t, e, s.threads[t])
  {
    hide NoOtherHolder, NoOtherWriter, OnPath, HasKey, Pow2, NextOnPath, Below, Extended, Moved, Parent, StepPublish;
  }

  lemma PublisherIsNewest(s: State, t: Tid, a: Abs)
    requires Inv(s, a) && t in s.threads && s.threads[t].pc.Publish?
    ensures s.threads[t].pc.segment == s.k && |s.buckets| == Pow2(s.k) && (s.k == 1 || s.k >= 8)
  {
    hide Stored, Placed, Settled, Mutex, Marked, AcquiringOk, UsingOk, Done, Below, Pow2;
    assert ThreadOk(ViewOf(s), s.threads[t]);
  }

  // ---------------------------------------------------------------- what bucket locks give

  /** A step changes only buckets that its thread has locked for writing. */
  ghost predicate WritesHeld(s: State, s': State, t: Tid)
    requires t in s.threads
  {
    |s.buckets| <= |s'.buckets|
    && forall j: nat | j < |s.buckets| && s'.buckets[j] != s.buckets[j] :: HoldsForWriting(s.threads[t], j)
  }

  lemma StepWritesHeld(s: State, s': State, t: Tid, e: Event, a: Abs)
    requires Inv(s, a) && Next(s, s', t, e)
    ensures t in s.threads && WritesHeld(s, s', t)
  {
    hide Done, Inv, ThreadOk, Invoke, StepLoadMask, StepProbe, StepTryLock, StepLock, StepRecheck, StepScan, StepScanUpgrade,
         StepRelock, StepMove, StepScanned, StepSearch, StepUpgrade, StepUpgradeWait, StepCheckMask, StepCheckBucket,
         StepUnlink, StepCount, StepLink, StepGrow, StepRelease, StepPublish, WritesHeld;
    var th := s.threads[t];
    ThreadAt(s, a, t);
    if AccessStep(s, s', t, e, th) {
      AccessWritesHeld(s, s', t, e);
    } else if QuietStep(s, s', t, e, th) {
      QuietWritesNothing(s, s', t, e);
    } else {
      assert ChangeStep(s, s', t, e, th);
      ChangeWritesHeld(s, s', t, e);
    }
  }

  lemma AccessWritesHeld(s: State, s': State, t: Tid, e: Event)
    requires t in s.threads && AccessStep(s, s', t, e, s.threads[t]) && ThreadOk(ViewOf(s), s.threads[t])
    ensures WritesHeld(s, s', t)
  {
    hide Done, NoOtherHolder, NoOtherWriter, OnPath, WorkOk, ScanOk, UsingOk, Pow2;
  }

  lemma QuietWritesNothing(s: State, s': State, t: Tid, e: Event)
    requires t in s.threads && QuietStep(s, s', t, e, s.threads[t])
    ensures WritesHeld(s, s', t)
  {
    hide NoOtherHolder, NoOtherWriter, OnPath, HasKey, Pow2, NextOnPath;
  }

  lemma ChangeWritesHeld(s: State, s': State, t: Tid, e: Event)
    requires t in s.threads && ChangeStep(s, s', t, e, s.threads[t]) && ThreadOk(ViewOf(s), s.threads[t])
    ensures WritesHeld(s, s', t)
  {
    hide Done, OnPath, HasKey, Pow2, Below, Deepest, ParentsDone;
  }

  /** While a thread has a bucket locked, for reading or writing, no other thread changes it: a node that it has
      found there stays in the table, and in that bucket, until it lets go.  So whoever takes a node out is alone
      with the node's bucket. */
  lemma LockedBucketStays(s: State, s': State, t: Tid, e: Event, u: Tid, j: nat)
    requires Reachable(s) && Next(s, s', t, e) && u in s.threads && u != t && Holds(s.threads[u], j) && j < |s.buckets|
    ensures j < |s'.buckets| && s'.buckets[j] == s.buckets[j]
    ensures forall key, i :: StoredAt(s', key, j, i) <==> StoredAt(s, key, j, i)
    ensures e.Commit? && e.res == Erased ==>
              t in s.threads && s.threads[t].top != j && forall i :: !StoredAt(s, e.op.key, j, i)
  {
    hide Reachable, Next, Represents, SpecStep, Stored, Placed, Settled, Shape, Marked, OneGrower, AllThreads;
    var a := ReachableInv(s);
    StepWritesHeld(s, s', t, e, a);
    assert !HoldsForWriting(s.threads[t], j);
    if e.Commit? && e.res == Erased { UnlinkedElsewhere(s, s', t, e, a, j); }
  }

  lemma ErasedUnlinks(s: State, s': State, t: Tid, e: Event)
    requires Next(s, s', t, e) && e.Commit? && e.res == Erased
    ensures t in s.threads && StepUnlink(s, s', t, e, s.threads[t])
  {
    hide NoOtherHolder, NoOtherWriter, OnPath, HasKey, Pow2, NextOnPath, Below, Extended, Moved, Parent;
  }

  lemma UnlinkHeld(s: State, s': State, t: Tid, e: Event)
    requires t in s.threads && StepUnlink(s, s', t, e, s.threads[t]) && ThreadOk(ViewOf(s), s.threads[t])
    ensures HoldsForWriting(s.threads[t], s.threads[t].top)
  {
    hide Done, Deepest, ParentsDone, OnPath, HasKey;
  }

  lemma UnlinkedElsewhere(s: State, s': State, t: Tid, e: Event, a: Abs, j: nat)
    requires Inv(s, a) && Next(s, s', t, e) && t in s.threads && e.Commit? && e.res == Erased
    requires !HoldsForWriting(s.threads[t], j)
    ensures s.threads[t].top != j && forall i :: !StoredAt(s, e.op.key, j, i)
  {
    hide Done, Placed, Settled, Shape, Mutex, Marked, OneGrower, AllThreads, ThreadOk, LockOk, Next, Stored, StoredAt, IsChain,
         HasKey, StepUnlink;
    ErasedUnlinks(s, s', t, e);
    ThreadAt(s, a, t);
    UnlinkFacts(s, s', t, e);
    UnlinkHeld(s, s', t, e);
    StoredMeansKey(s, a, s.threads[t].top, e.op.key);
    forall i: nat ensures !StoredAt(s, e.op.key, j, i) { StoredAtMeansKey(s, a, e.op.key, j, i); }
  }

  // ---------------------------------------------------------------- progress

  /** The thread waits for a lock. */
  predicate Waiting(th: Thread) { th.pc.Lock? || th.pc.Relock? || th.pc.UpgradeWait? }

  /** A waiting thread whose lock is held, or any thread that waits for nothing, can step. */
  ghost predicate CanStep(s: State, t: Tid) {
    exists s', e :: Next(s, s', t, e)
  }

  lemma HolderWaitsLower(s: State, u: Tid, j: nat)
    requires AllThreads(s) && u in s.threads && Holds(s.threads[u], j) && Waiting(s.threads[u])
    ensures s.threads[u].top < j
  {
    assert ThreadOk(ViewOf(s), s.threads[u]);
  }

  /** Locks are waited for in the order of decreasing bucket indices, so from any waiting thread one
      comes to a thread that holds a lock and waits for none, or to a lock that is free. */
  lemma {:induction false} SomeoneRuns(s: State, t: Tid) returns (u: Tid)
    requires AllThreads(s) && t in s.threads && !s.threads[t].pc.Idle?
    ensures u in s.threads && !s.threads[u].pc.Idle?
    ensures Waiting(s.threads[u]) ==> NoOtherHolder(s, u, s.threads[u].top)
    decreases s.threads[t].top
  {
    u := t;
    if Waiting(s.threads[t]) && !NoOtherHolder(s, t, s.threads[t].top) {
      var w :| w in s.threads && w != t && Holds(s.threads[w], s.threads[t].top);
      assert ThreadOk(ViewOf(s), s.threads[w]);
      if Waiting(s.threads[w]) {
        HolderWaitsLower(s, w, s.threads[t].top);
        u := SomeoneRuns(s, w);
      } else {
        u := w;
      }
    }
  }

  lemma AccessRuns(s: State, t: Tid) returns (s': State)
    requires AllThreads(s) && Shape(s) && t in s.threads
    requires var th := s.threads[t]; Acquiring(th.pc) && (Waiting(th) ==> NoOtherHolder(s, t, th.top))
    ensures AccessStep(s, s', t, Tau, s.threads[t])
  {
    var th := s.threads[t];
    assert ThreadOk(ViewOf(s), th);
    match th.pc {
      case Probe => s' := Put(s, t, th.(pc := if s.buckets[th.top].RehashReq? then TryLock else Lock));
      case TryLock =>
        s' := Put(s, t, if NoOtherHolder(s, t, th.top) then th.(pc := Recheck, mode := Wr) else th.(pc := Lock));
      case Lock => s' := Put(s, t, th.(pc := Acquired(th.work), mode := Rd));
      case Recheck =>
        if s.buckets[th.top].RehashReq? {
          s' := Put(s, t, th.(pc := Probe, work := th.work + [th.top], top := Parent(th.top)))
                .(buckets := s.buckets[th.top := Chain([])]);
        } else {
          s' := Put(s, t, th.(pc := Acquired(th.work)));
        }
      case Relock => s' := Put(s, t, th.(pc := Scan(0), mode := Wr));
      case Scan(_) => s' := ScanRuns(s, t);
    }
  }

  lemma ScanRuns(s: State, t: Tid) returns (s': State)
    requires t in s.threads && ThreadOk(ViewOf(s), s.threads[t]) && s.threads[t].pc.Scan?
    ensures AccessStep(s, s', t, Tau, s.threads[t])
  {
    hide UsingOk, Done;
    var th := s.threads[t];
    assert IsChain(s.buckets, th.work[|th.work| - 1]);
    if th.pc.pos == |s.buckets[th.top].nodes| {
      s' := Put(s, t, th.(pc := Acquired(th.work[..|th.work| - 1]), work := th.work[..|th.work| - 1],
                          top := Child(th), mode := Wr));
      assert StepScanned(s, s', t, Tau, th);
    } else if AtNode(s, th, false) {
      s' := Put(s, t, th.(pc := Scan(th.pc.pos + 1)));
    } else if th.mode == Rd {
      s' := Put(s, t, th.(pc := Relock));
    } else {
      s' := s.(buckets := Moved(s, th));
    }
  }

  lemma CheckBucketRuns(s: State, t: Tid) returns (s': State, e: Event)
    requires Shape(s) && t in s.threads && s.threads[t].pc.CheckBucket? && ThreadOk(ViewOf(s), s.threads[t])
    ensures StepCheckBucket(s, s', t, e, s.threads[t])
  {
    var th := s.threads[t];
    var next, mask, why := th.pc.next, th.pc.mask, th.pc.why;
    hide Done;
    e := Tau;
    Pow2Monotone(mask, s.k);
    if s.buckets[next].RehashReq? {
      s', e := PassRuns(s, t, th.(m := mask), why);
    } else {
      s' := Put(s, t, th.(m := mask, pc := Probe, top := HashOf(s, th) % Pow2(mask), mode := Rd));
    }
  }

  lemma UnlinkRuns(s: State, t: Tid) returns (s': State, e: Event)
    requires t in s.threads && s.threads[t].pc == Unlink && ThreadOk(ViewOf(s), s.threads[t])
    ensures StepUnlink(s, s', t, e, s.threads[t])
  {
    var th := s.threads[t];
    hide Done;
    e := Commit(th.op, Erased);
    var nodes := s.buckets[th.top].nodes;
    var i :| 0 <= i < |nodes| && nodes[i].key == th.op.key;
    s' := Put(s, t, th.(pc := Release, res := Some(Erased)))
          .(buckets := s.buckets[th.top := Chain(Without(nodes, i))], size := s.size - 1);
  }

  lemma UsingRuns(s: State, t: Tid) returns (s': State, e: Event)
    requires AllThreads(s) && Shape(s) && t in s.threads
    requires var th := s.threads[t];
             !Acquiring(th.pc) && !Outside(th.pc) && (Waiting(th) ==> NoOtherHolder(s, t, th.top))
    ensures Next(s, s', t, e)
  {
    hide Done, AllThreads, Guard, CheckOk, ParentsDone, Deepest, Present, OnPath, Pow2, HasKey, NoOtherHolder,
         StepSearch, StepCheckMask, StepCheckBucket, StepUnlink, StepCount, StepLink, StepGrow, StepRelease;
    var th := s.threads[t];
    ThreadIn(s, t);
    if th.pc.Search? {
      s' := SearchRuns(s, t);
      e := Tau;
    } else if th.pc.Upgrade? {
      s' := Put(s, t, th.(pc := UpgradeWait));
      e := Tau;
    } else if th.pc.UpgradeWait? {
      s' := Put(s, t, th.(pc := if th.op.Erase? then CheckMask(Contended) else Search, mode := Wr));
      e := Tau;
    } else if th.pc.CheckMask? {
      s', e := CheckMaskRuns(s, t);
    } else if th.pc.CheckBucket? {
      s', e := CheckBucketRuns(s, t);
    } else {
      s', e := ChangeRuns(s, t);
    }
  }

  lemma ThreadIn(s: State, t: Tid)
    requires AllThreads(s) && t in s.threads
    ensures ThreadOk(ViewOf(s), s.threads[t])
  {
  }

  /** The steps that change the table or the size, and those that follow them. */
  lemma ChangeRuns(s: State, t: Tid) returns (s': State, e: Event)
    requires t in s.threads && ThreadOk(ViewOf(s), s.threads[t])
    requires var pc := s.threads[t].pc; pc.Unlink? || pc.Count? || pc.Link? || pc.Grow? || pc.Release?
    ensures var th := s.threads[t];
            || StepUnlink(s, s', t, e, th) || StepCount(s, s', t, e, th) || StepLink(s, s', t, e, th)
            || StepGrow(s, s', t, e, th) || StepRelease(s, s', t, e, th)
  {
    hide Done, ParentsDone, Deepest, OnPath, Pow2;
    var th := s.threads[t];
    e := Tau;
    match th.pc {
      case Unlink => s', e := UnlinkRuns(s, t);
      case Count => s' := Put(s, t, th.(pc := Link(s.size + 1))).(size := s.size + 1);
      case Link(_) =>
        e := Commit(th.op, Inserted);
        s' := Put(s, t, th.(pc := Grow(th.pc.size), res := Some(Inserted)))
              .(buckets := s.buckets[th.top := Chain([Node(th.op.key, th.op.val)] + s.buckets[th.top].nodes)]);
      case Grow(_) =>
        if th.pc.size >= Pow2(th.m) - 1 && th.m !in s.claimed {
          s' := Put(s, t, th.(pc := Release, grow := Some(th.m))).(claimed := s.claimed + {th.m});
        } else {
          s' := Put(s, t, th.(pc := Release));
        }
      case Release =>
        s' := Put(s, t, th.(pc := if th.grow.Some? then Publish(th.grow.value) else Idle));
    }
  }

  lemma SearchRuns(s: State, t: Tid) returns (s': State)
    requires t in s.threads && ThreadOk(ViewOf(s), s.threads[t]) && s.threads[t].pc == Search
    ensures StepSearch(s, s', t, Tau, s.threads[t])
  {
    var th := s.threads[t];
    var nodes := s.buckets[th.top].nodes;
    if HasKey(nodes, th.op.key) && !th.op.Erase? {
      s' := Put(s, t, th.(pc := LoadMask));
    } else {
      s' := Put(s, t, th.(pc := if HasKey(nodes, th.op.key) then (if th.mode == Wr then Unlink else Upgrade)
                                else if th.op.Insert? && th.mode == Rd then Upgrade
                                else CheckMask(Absent)));
    }
  }

  lemma PassRuns(s: State, t: Tid, th: Thread, why: Why) returns (s': State, e: Event)
    ensures Passed(s, s', t, e, th, why)
  {
    e := Tau;
    if why == Contended {
      s' := Put(s, t, th.(pc := Search));
    } else if th.op.Insert? {
      s' := Put(s, t, th.(pc := Count));
    } else {
      e := Commit(th.op, NotFound);
      s' := Put(s, t, th.(pc := Release, res := Some(NotFound)));
    }
  }

  lemma CheckMaskRuns(s: State, t: Tid) returns (s': State, e: Event)
    requires t in s.threads && s.threads[t].pc.CheckMask? && 1 <= s.threads[t].m <= s.k
    ensures StepCheckMask(s, s', t, e, s.threads[t])
  {
    var th := s.threads[t];
    var h := HashOf(s, th);
    if h % Pow2(th.m) == h % Pow2(s.k) {
      s', e := PassRuns(s, t, th.(m := s.k), th.pc.why);
    } else {
      e := Tau;
      s' := Put(s, t, th.(pc := CheckBucket(NextOnPath(h, th.m, s.k), s.k, th.pc.why)));
    }
  }

  /** No deadlock: in every reachable state in which some operation is under way, one that is under
      way can take a step. */
  lemma NoDeadlock(s: State, t: Tid) returns (u: Tid)
    requires Reachable(s) && t in s.threads && !s.threads[t].pc.Idle?
    ensures u in s.threads && !s.threads[u].pc.Idle? && CanStep(s, u)
  {
    var a := ReachableInv(s);
    u := SomeoneRuns(s, t);
    if Acquiring(s.threads[u].pc) {
      var s' := AccessRuns(s, u);
      assert Next(s, s', u, Tau);
    } else if !Outside(s.threads[u].pc) {
      var s', e := UsingRuns(s, u);
    } else {
      OutsideRuns(s, u, a);
    }
  }

  lemma OutsideRuns(s: State, t: Tid, a: Abs)
    requires Inv(s, a) && t in s.threads && Outside(s.threads[t].pc) && !s.threads[t].pc.Idle?
    ensures exists s' :: Next(s, s', t, Tau)
  {
    var th := s.threads[t];
    assert ThreadOk(ViewOf(s), th);
    var s' := s;
    if th.pc.LoadMask? {
      s' := Put(s, t, th.(pc := Probe, m := s.k, top := HashOf(s, th) % Pow2(s.k), mode := Rd));
      assert StepLoadMask(s, s', t, Tau, th);
    } else {
      var k' := NextMask(th.pc.segment);
      Pow2Monotone(s.k, k');
      s' := Put(s, t, th.(pc := Idle, grow := None))
            .(k := k', claimed := s.claimed + Below(k'), buckets := Extended(s.buckets, Pow2(k')));
      assert StepPublish(s, s', t, Tau, th);
    }
    assert Next(s, s', t, Tau);
  }
}
