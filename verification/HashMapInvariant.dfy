/** What every reachable state of the hash table protocol satisfies. */
module HashMapInvariant {
  import opened Options
  import opened HashPaths
  import opened HashMapProtocol

  /** The abstract map, and the bucket each of its keys is stored in. */
  datatype Abs = Abs(contents: map<Key, Val>, loc: map<Key, nat>)

  /** Buckets that are rehashed for good: marked, and not in any thread's work list. */
  ghost function Done(s: State): (d: set<nat>)
    ensures forall j :: j in d <==> IsDone(s, j)
  {
    set j: nat | j < |s.buckets| && IsDone(s, j)
  }

  ghost predicate IsDone(s: State, j: nat) {
    j < |s.buckets| && s.buckets[j].Chain? && NobodyFills(s, j)
  }

  ghost predicate NobodyFills(s: State, j: nat) {
    forall t | t in s.threads :: j !in s.threads[t].work
  }

  // ---------------------------------------------------------------- one thread

  /** Everything a thread's local invariant may look at. */
  datatype View = View(hash: Key -> nat, k: nat, buckets: seq<Bucket>, done: set<nat>)

  ghost function ViewOf(s: State): View {
    View(s.hash, s.k, s.buckets, Done(s))
  }

  predicate IsChain(buckets: seq<Bucket>, j: nat) {
    j < |buckets| && buckets[j].Chain?
  }

  predicate EmptyAt(buckets: seq<Bucket>, j: nat) {
    IsChain(buckets, j) && buckets[j].nodes == []
  }

  /** The buckets being rehashed form a chain of parents, and only the innermost one can hold nodes
      yet, while its parent is being scanned under the write lock. */
  ghost predicate WorkOk(v: View, th: Thread) {
    && (forall i :: 0 <= i < |th.work| ==>
          th.work[i] >= 2 && IsChain(v.buckets, th.work[i]) && th.top < th.work[i])
    && (forall i, j :: 0 <= i < j < |th.work| ==> th.work[j] < th.work[i])
    && (forall i :: 0 <= i < |th.work| - 1 ==> th.work[i + 1] == Parent(th.work[i]))
    && (th.work != [] ==> th.top == Parent(Child(th)))
    && (forall i :: 0 <= i < |th.work| ==>
          EmptyAt(v.buckets, th.work[i]) || (i == |th.work| - 1 && th.pc.Scan? && th.mode == Wr))
  }

  function Home(th: Thread): nat {
    if th.work == [] then th.top else th.work[0]
  }

  function KeyHash(v: View, th: Thread): nat { v.hash(th.op.key) }

  /** No bucket of h's path above `top` is finished, nor any bucket under one of them ... */
  ghost predicate NoneDoneUnder(done: set<nat>, h: nat, top: nat) {
    forall p: nat, x: nat :: x in done && OnPath(p, x) && OnPath(p, h) ==> p <= top
  }

  /** ... or none at least of those that a mask covers. */
  ghost predicate NoneDoneBetween(v: View, h: nat, top: nat, bound: nat) {
    forall p: nat, x: nat :: x in v.done && OnPath(p, x) && OnPath(p, h) && top < p ==> bound <= p
  }

  /** A finished bucket's parent is finished, if it is one of those beyond the mask that a thread works with. */
  ghost predicate ParentsDone(done: set<nat>, m: nat) {
    forall j | j in done && j >= 2 && Parent(j) >= Pow2(m) :: Parent(j) in done
  }

  /** The thread looks at the right bucket for its mask. */
  ghost predicate Guard(v: View, th: Thread) {
    th.top == KeyHash(v, th) % Pow2(th.m)
    || (th.mode == Wr && NoneDoneBetween(v, KeyHash(v, th), th.top, Pow2(th.m)))
  }

  ghost predicate Deepest(v: View, th: Thread) {
    NoneDoneUnder(v.done, KeyHash(v, th), th.top)
  }

  /** The part of the scanned chain that is known to stay. */
  ghost predicate ScanOk(v: View, th: Thread) {
    && th.pc.Scan? && th.work != [] && IsChain(v.buckets, th.top)
    && th.pc.pos <= |v.buckets[th.top].nodes|
    && forall i :: 0 <= i < th.pc.pos ==> !OnPath(Child(th), v.hash(v.buckets[th.top].nodes[i].key))
  }

  predicate Acquiring(pc: Pc) {
    pc.Probe? || pc.TryLock? || pc.Lock? || pc.Recheck? || pc.Scan? || pc.Relock?
  }

  predicate Outside(pc: Pc) { pc.Idle? || pc.LoadMask? || pc.Publish? }

  ghost predicate AcquiringOk(v: View, th: Thread) {
    && 1 <= th.m <= v.k && ParentsDone(v.done, th.m) && th.res == None && th.grow == None
    && th.top < |v.buckets| && WorkOk(v, th)
    && Home(th) == KeyHash(v, th) % Pow2(th.m)
    && (th.pc.Recheck? ==> th.mode == Wr)
    && (th.pc.Scan? ==> ScanOk(v, th))
    && (th.pc.Relock? ==> th.work != [] && IsChain(v.buckets, th.top))
  }

  predicate Present(v: View, th: Thread) {
    IsChain(v.buckets, th.top) && HasKey(v.buckets[th.top].nodes, th.op.key)
  }

  /** What a check for a mask race is made for. */
  ghost predicate CheckOk(v: View, th: Thread, why: Why) {
    && Guard(v, th)
    && (why == Absent ==> !Present(v, th) && (th.op.Insert? ==> th.mode == Wr))
    && (why == Contended ==> th.op.Erase? && th.mode == Wr)
  }

  ghost predicate UsingOk(v: View, th: Thread) {
    && 1 <= th.m <= v.k && ParentsDone(v.done, th.m) && th.work == [] && IsChain(v.buckets, th.top)
    && OnPath(th.top, KeyHash(v, th))
    && (th.grow.Some? ==> th.pc.Release?)
    && (th.res.Some? <==> th.pc.Grow? || th.pc.Release?)
    && match th.pc
       case Search => Guard(v, th)
       case Upgrade => th.mode == Rd && th.top == KeyHash(v, th) % Pow2(th.m)
                       && (th.op.Insert? ==> !Present(v, th)) && (th.op.Erase? ==> Present(v, th)) && !th.op.Find?
       case UpgradeWait => th.top == KeyHash(v, th) % Pow2(th.m) && !th.op.Find?
       case CheckMask(why) => CheckOk(v, th, why)
       case CheckBucket(next, mask, why) =>
         CheckOk(v, th, why) && th.m < mask <= v.k
         && KeyHash(v, th) % Pow2(th.m) != KeyHash(v, th) % Pow2(mask)
         && next == NextOnPath(KeyHash(v, th), th.m, mask)
       case Unlink => th.op.Erase? && th.mode == Wr && Present(v, th)
       case Count => th.op.Insert? && th.mode == Wr && !Present(v, th) && Deepest(v, th)
       case Link(_) => th.op.Insert? && th.mode == Wr && !Present(v, th) && Deepest(v, th)
       case _ => true
  }

  ghost predicate ThreadOk(v: View, th: Thread) {
    if Acquiring(th.pc) then AcquiringOk(v, th)
    else if Outside(th.pc) then
      && th.work == []
      && (th.grow.Some? <==> th.pc.Publish?)
      && (th.pc.Publish? ==> th.grow == Some(th.pc.segment))
      && (th.pc.LoadMask? ==> th.res == None) && (th.pc.Publish? ==> th.res.Some?)
    else UsingOk(v, th)
  }

  // ---------------------------------------------------------------- the whole table

  ghost predicate Shape(s: State) {
    && (s.k == 1 || s.k >= 8)
    && |s.buckets| == Pow2(s.k)
    && IsChain(s.buckets, 0) && IsChain(s.buckets, 1)
  }

  ghost predicate Mutex(s: State) {
    forall t, u, j | t in s.threads && u in s.threads && t != u ::
      HoldsForWriting(s.threads[t], j) ==> !Holds(s.threads[u], j)
  }

  /** A thread waits for the lock of an unmarked bucket only while a writer is about to mark it. */
  ghost predicate Marker(s: State, j: nat) {
    exists u :: u in s.threads && s.threads[u].pc == Recheck && s.threads[u].top == j
  }

  ghost predicate Marked(s: State) {
    && (forall t | t in s.threads && s.threads[t].pc == Lock ::
          IsChain(s.buckets, s.threads[t].top) || Marker(s, s.threads[t].top))
  }

  ghost predicate SomeGrower(s: State) {
    exists t :: t in s.threads && s.threads[t].grow.Some?
  }

  /** At most one thread has claimed the next segment. */
  ghost predicate OneGrower(s: State) {
    && Below(s.k) <= s.claimed <= Below(s.k + 1) && (s.k in s.claimed ==> SomeGrower(s))
    && (forall t | t in s.threads && s.threads[t].grow.Some? ::
          s.threads[t].grow == Some(s.k) && s.k in s.claimed)
    && (forall t, u | t in s.threads && u in s.threads && t != u ::
          s.threads[t].grow == None || s.threads[u].grow == None)
  }

  /** The nodes of the table are exactly the map's entries, each stored once, ... */
  ghost predicate Stored(buckets: seq<Bucket>, a: Abs) {
    && a.loc.Keys == a.contents.Keys
    && (forall j: nat, i :: IsChain(buckets, j) && 0 <= i < |buckets[j].nodes| ==> NodeAt(buckets[j].nodes[i], j, a))
    && (forall j: nat, i, i' :: IsChain(buckets, j) && 0 <= i < i' < |buckets[j].nodes| ==>
          buckets[j].nodes[i].key != buckets[j].nodes[i'].key)
    && (forall key | key in a.loc :: IsChain(buckets, a.loc[key]) && HasKey(buckets[a.loc[key]].nodes, key))
  }

  ghost predicate NodeAt(n: Node, j: nat, a: Abs) {
    n.key in a.loc && n.key in a.contents && a.loc[n.key] == j && a.contents[n.key] == n.val
  }

  /** ... in the deepest finished bucket of its hash code's path, or in one being filled, and nothing under
      the deeper ones is finished. */
  ghost predicate Placed(v: View, a: Abs) {
    forall key | key in a.loc :: OnPath(a.loc[key], v.hash(key)) && NoneDoneUnder(v.done, v.hash(key), a.loc[key])
  }

  predicate InLast(k: nat, j: nat) { Pow2(k) / 2 <= j < Pow2(k) }

  /** The last segment is finished, as in a table that grew while it was empty, or its finished buckets have
      finished parents. */
  ghost predicate Settled(v: View) {
    || (forall j: nat :: InLast(v.k, j) ==> j in v.done)
    || (forall j: nat :: InLast(v.k, j) && j >= 2 && j in v.done ==> Parent(j) in v.done)
  }

  /** my_size counts the entries of the map, and the nodes that are about to be linked. */
  ghost predicate Sized(s: State, a: Abs) {
    s.size == |a.contents| + |Linkers(s)|
  }

  ghost function Linkers(s: State): set<Tid> {
    set t | t in s.threads && s.threads[t].pc.Link?
  }

  ghost predicate AllThreads(s: State) {
    forall t | t in s.threads :: ThreadOk(ViewOf(s), s.threads[t])
  }

  ghost predicate Inv(s: State, a: Abs) {
    && Shape(s) && AllThreads(s)
    && Mutex(s) && Marked(s) && OneGrower(s)
    && Stored(s.buckets, a) && Placed(ViewOf(s), a) && Settled(ViewOf(s))
  }

  // ---------------------------------------------------------------- the table at rest

  /** Every key is in the deepest rehashed bucket of its hash code's path. */
  ghost predicate InPlace(hash: Key -> nat, buckets: seq<Bucket>, a: Abs) {
    forall key | key in a.loc :: OnPath(a.loc[key], hash(key)) && DeepestFor(buckets, hash(key), a.loc[key])
  }

  ghost predicate DeepestFor(buckets: seq<Bucket>, h: nat, loc: nat) {
    forall j: nat :: IsChain(buckets, j) && OnPath(j, h) ==> j <= loc
  }

  ghost predicate ClosedUp(buckets: seq<Bucket>) {
    forall j: nat :: IsChain(buckets, j) && j >= 2 ==> IsChain(buckets, Parent(j))
  }

  /** Below a key, on its path or beside it, nothing is rehashed: no bucket under the marked ones of its path. */
  ghost predicate KeysClear(hash: Key -> nat, buckets: seq<Bucket>, a: Abs) {
    forall key | key in a.loc :: ClearBelow(buckets, hash(key), a.loc[key])
  }

  ghost predicate ClearBelow(buckets: seq<Bucket>, h: nat, loc: nat) {
    forall p: nat, x: nat :: OnPath(p, h) && loc < p && OnPath(p, x) ==> !IsChain(buckets, x)
  }

  ghost predicate LastRehashed(buckets: seq<Bucket>, k: nat) {
    forall j: nat :: InLast(k, j) ==> IsChain(buckets, j)
  }

  ghost predicate LastParented(buckets: seq<Bucket>, k: nat) {
    forall j: nat :: InLast(k, j) && j >= 2 && IsChain(buckets, j) ==> IsChain(buckets, Parent(j))
  }

  /** A table that grew while it was empty has a last segment of rehashed buckets, whatever their parents are;
      in any other the parent of a rehashed bucket of the last segment is rehashed. */
  ghost predicate LastSettled(buckets: seq<Bucket>, k: nat) { LastRehashed(buckets, k) || LastParented(buckets, k) }

  /** A table between concurrent operations, with the entries of a. */
  ghost predicate Resting(hash: Key -> nat, k: nat, buckets: seq<Bucket>, size: int, a: Abs) {
    && (k == 1 || k >= 8) && |buckets| == Pow2(k) && IsChain(buckets, 0) && IsChain(buckets, 1)
    && Stored(buckets, a) && InPlace(hash, buckets, a) && size == |a.contents|
    && KeysClear(hash, buckets, a) && LastSettled(buckets, k)
  }

  /** Concurrent operations may begin on any such table, a new one or one that other operations left. */
  ghost predicate StartsWith(s: State, a: Abs) {
    && Resting(s.hash, s.k, s.buckets, s.size, a) && s.claimed == Below(s.k)
    && forall t | t in s.threads :: Idles(s.threads[t])
  }

  predicate Idles(th: Thread) { th.pc == Idle && th.work == [] && th.grow == None }
}
