/** The concurrent operations of the incremental hash table as a step system.
    Any number of threads run find, insert and erase; every load, store, lock operation and
    compare-and-swap that another thread can observe is one step, and steps of different threads
    interleave freely.  Threads work with a mask they loaded earlier, rehash buckets lazily and
    recursively while holding their locks, and one thread at a time may publish a larger mask.

    A mask `2^k - 1` is represented by k, and `h & mask` by `h % Pow2(k)`.  A bucket's
    reader-writer lock is represented by the set of threads that hold it, which is a function of
    the threads' program counters: an acquisition is enabled only if it excludes no holder. */
module HashMapProtocol {
  import opened Options
  import opened HashPaths

  type Key = int
  type Val = int
  type Tid = nat

  datatype Node = Node(key: Key, val: Val)
  datatype Bucket = RehashReq | Chain(nodes: seq<Node>)
  datatype Op = Find(key: Key) | Insert(key: Key, val: Val) | Erase(key: Key)
  datatype Result = Found(val: Val) | NotFound | Inserted | Exists | Erased
  datatype Mode = Rd | Wr
  datatype Why = Absent | Contended

  datatype Pc =
    | Idle
    | LoadMask                    // about to load my_mask
    | Probe                       // bucket accessor: about to load node_list of the bucket `top`
    | TryLock                     // saw "rehash required": about to try the write lock of `top`
    | Lock                        // about to acquire the read lock of `top`
    | Recheck                     // holds the write lock of `top`: about to look at node_list again
    | Scan(pos: nat)              // rehash_bucket: holds the parent `top`, looks at its node at pos
    | Relock                      // rehash_bucket: released `top` in a contended upgrade
    | Search                      // holds `top`: about to search its chain
    | Upgrade                     // about to upgrade the read lock of `top`
    | UpgradeWait                 // released `top` in a contended upgrade
    | CheckMask(why: Why)         // check_mask_race: about to load my_mask
    | CheckBucket(next: nat, mask: nat, why: Why) // about to load node_list of bucket `next`
    | Unlink                      // about to take the node out of `top`
    | Count                       // insert_new_node: about to increment my_size
    | Link(size: int)             // about to put the new node into `top`
    | Grow(size: int)             // about to compare the size with the mask
    | Release                     // about to release `top`
    | Publish(segment: nat)       // about to enable a segment and publish the longer mask

  /** `work` lists the buckets the thread is rehashing, outermost first; `top` is the bucket it is
      accessing, which is the parent of the last of them. */
  datatype Thread = Thread(op: Op, pc: Pc, m: nat, work: seq<nat>, top: nat, mode: Mode,
                           res: Option<Result>, grow: Option<nat>)

  datatype State = State(hash: Key -> nat, k: nat, claimed: set<nat>, buckets: seq<Bucket>,
                         size: int, threads: map<Tid, Thread>)

  datatype Event = Tau | Commit(op: Op, res: Result)

  // ---------------------------------------------------------------- locks

  predicate TopHeld(pc: Pc) {
    pc.Recheck? || pc.Scan? || pc.Search? || pc.Upgrade? || pc.CheckMask? || pc.CheckBucket?
    || pc.Unlink? || pc.Count? || pc.Link? || pc.Grow? || pc.Release?
  }

  predicate Holds(th: Thread, j: nat) {
    j in th.work || (TopHeld(th.pc) && th.top == j)
  }

  predicate HoldsForWriting(th: Thread, j: nat) {
    j in th.work || (TopHeld(th.pc) && th.top == j && th.mode == Wr)
  }

  ghost predicate NoOtherHolder(s: State, t: Tid, j: nat) {
    forall u | u in s.threads && u != t :: !Holds(s.threads[u], j)
  }

  ghost predicate NoOtherWriter(s: State, t: Tid, j: nat) {
    forall u | u in s.threads && u != t :: !HoldsForWriting(s.threads[u], j)
  }

  // ---------------------------------------------------------------- steps

  function Put(s: State, t: Tid, th: Thread): State {
    s.(threads := s.threads[t := th])
  }

  function NodesOf(b: Bucket): seq<Node> {
    if b.Chain? then b.nodes else []
  }

  function HashOf(s: State, th: Thread): nat { s.hash(th.op.key) }

  predicate HasKey(nodes: seq<Node>, key: Key) {
    exists i :: 0 <= i < |nodes| && nodes[i].key == key
  }

  /** The accessor got hold of `top`: carry on with the innermost rehash, or with the operation. */
  function Acquired(work: seq<nat>): Pc {
    if work == [] then Search else Scan(0)
  }

  ghost predicate Invoke(s: State, s': State, t: Tid, e: Event, th: Thread) {
    exists op :: th.pc == Idle && e == Tau
      && s' == Put(s, t, Thread(op, LoadMask, 0, [], 0, Rd, None, None))
  }

  /** Loads the mask and goes for the bucket it selects. */
  ghost predicate StepLoadMask(s: State, s': State, t: Tid, e: Event, th: Thread) {
    th.pc == LoadMask && e == Tau
    && s' == Put(s, t, th.(pc := Probe, m := s.k, top := HashOf(s, th) % Pow2(s.k), mode := Rd))
  }

  ghost predicate StepProbe(s: State, s': State, t: Tid, e: Event, th: Thread) {
    th.pc == Probe && e == Tau && th.top < |s.buckets|
    && s' == Put(s, t, th.(pc := if s.buckets[th.top].RehashReq? then TryLock else Lock))
  }

  ghost predicate StepTryLock(s: State, s': State, t: Tid, e: Event, th: Thread) {
    th.pc == TryLock && e == Tau
    && s' == Put(s, t, if NoOtherHolder(s, t, th.top) then th.(pc := Recheck, mode := Wr)
                       else th.(pc := Lock))
  }

  ghost predicate StepLock(s: State, s': State, t: Tid, e: Event, th: Thread) {
    th.pc == Lock && e == Tau && NoOtherWriter(s, t, th.top)
    && s' == Put(s, t, th.(pc := Acquired(th.work), mode := Rd))
  }

  /** Under the write lock: mark the bucket rehashed and go for its parent, unless someone else
      has rehashed it in the meantime. */
  ghost predicate StepRecheck(s: State, s': State, t: Tid, e: Event, th: Thread) {
    th.pc == Recheck && e == Tau && th.top < |s.buckets|
    && if s.buckets[th.top].RehashReq? then
         && th.top >= 2
         && s' == Put(s, t, th.(pc := Probe, work := th.work + [th.top], top := Parent(th.top)))
                  .(buckets := s.buckets[th.top := Chain([])])
       else
         s' == Put(s, t, th.(pc := Acquired(th.work)))
  }

  predicate CanScan(s: State, th: Thread) {
    && th.pc.Scan? && th.top < |s.buckets| && s.buckets[th.top].Chain?
    && th.work != [] && Child(th) < |s.buckets| && s.buckets[Child(th)].Chain?
  }

  /** The bucket that is being filled from `top`. */
  function Child(th: Thread): nat
    requires th.work != []
  {
    th.work[|th.work| - 1]
  }

  predicate Belongs(s: State, child: nat, n: Node) {
    OnPath(child, s.hash(n.key))
  }

  /** The scan stands on a node of `top`, and this tells whether the node has to move. */
  predicate AtNode(s: State, th: Thread, moves: bool) {
    && CanScan(s, th)
    && th.pc.pos < |s.buckets[th.top].nodes|
    && Belongs(s, Child(th), s.buckets[th.top].nodes[th.pc.pos]) == moves
  }

  ghost predicate StepScan(s: State, s': State, t: Tid, e: Event, th: Thread) {
    AtNode(s, th, false) && e == Tau
    && s' == Put(s, t, th.(pc := Scan(th.pc.pos + 1)))
  }

  /** Moving a node takes the write lock of the parent. */
  ghost predicate StepScanUpgrade(s: State, s': State, t: Tid, e: Event, th: Thread) {
    AtNode(s, th, true) && e == Tau && th.mode == Rd
    && ((NoOtherHolder(s, t, th.top) && s' == Put(s, t, th.(mode := Wr)))
        || s' == Put(s, t, th.(pc := Relock)))
  }

  ghost predicate StepRelock(s: State, s': State, t: Tid, e: Event, th: Thread) {
    th.pc == Relock && e == Tau && NoOtherHolder(s, t, th.top)
    && s' == Put(s, t, th.(pc := Scan(0), mode := Wr))
  }

  function Without(nodes: seq<Node>, i: nat): seq<Node>
    requires i < |nodes|
  {
    nodes[..i] + nodes[i + 1..]
  }

  ghost predicate StepMove(s: State, s': State, t: Tid, e: Event, th: Thread) {
    AtNode(s, th, true) && e == Tau && th.mode == Wr
    && s' == s.(buckets := Moved(s, th))
  }

  function Moved(s: State, th: Thread): seq<Bucket>
    requires AtNode(s, th, true)
  {
    var nodes := s.buckets[th.top].nodes;
    s.buckets[th.top := Chain(Without(nodes, th.pc.pos))]
             [Child(th) := Chain([nodes[th.pc.pos]] + s.buckets[Child(th)].nodes)]
  }

  /** The whole parent has been scanned: release it; the child becomes the accessed bucket. */
  ghost predicate StepScanned(s: State, s': State, t: Tid, e: Event, th: Thread) {
    CanScan(s, th) && e == Tau && th.pc.pos >= |s.buckets[th.top].nodes|
    && s' == Put(s, t, th.(pc := Acquired(th.work[..|th.work| - 1]), work := th.work[..|th.work| - 1],
                           top := Child(th), mode := Wr))
  }

  ghost predicate CanUse(s: State, th: Thread) {
    th.work == [] && th.top < |s.buckets| && s.buckets[th.top].Chain?
  }

  /** The result a successful search gives the operation. */
  predicate IsHit(op: Op, nodes: seq<Node>, res: Result) {
    (op.Find? && res.Found? && Node(op.key, res.val) in nodes)
    || (op.Insert? && res == Exists && HasKey(nodes, op.key))
  }

  ghost predicate StepSearch(s: State, s': State, t: Tid, e: Event, th: Thread) {
    th.pc == Search && CanUse(s, th)
    && var nodes := s.buckets[th.top].nodes;
       if HasKey(nodes, th.op.key) && !th.op.Erase? then
         // an item lock that cannot be had makes the operation start again
         || (e == Tau && s' == Put(s, t, th.(pc := LoadMask)))
         || (exists r :: IsHit(th.op, nodes, r) && e == Commit(th.op, r)
              && s' == Put(s, t, th.(pc := Release, res := Some(r), mode := Rd)))
       else
         e == Tau
         && s' == Put(s, t, th.(pc := if HasKey(nodes, th.op.key) then (if th.mode == Wr then Unlink else Upgrade)
                                      else if th.op.Insert? && th.mode == Rd then Upgrade
                                      else CheckMask(Absent)))
  }

  ghost predicate StepUpgrade(s: State, s': State, t: Tid, e: Event, th: Thread) {
    th.pc == Upgrade && e == Tau
    && ((NoOtherHolder(s, t, th.top)
         && s' == Put(s, t, th.(pc := if th.op.Erase? then Unlink else CheckMask(Absent), mode := Wr)))
        || s' == Put(s, t, th.(pc := UpgradeWait)))
  }

  /** After a contended upgrade insert searches again; erase first checks the mask. */
  ghost predicate StepUpgradeWait(s: State, s': State, t: Tid, e: Event, th: Thread) {
    th.pc == UpgradeWait && e == Tau && NoOtherHolder(s, t, th.top)
    && s' == Put(s, t, th.(pc := if th.op.Erase? then CheckMask(Contended) else Search, mode := Wr))
  }

  /** The check found no race: commit to "not found", go on to insert, or search again. */
  ghost predicate Passed(s: State, s': State, t: Tid, e: Event, th: Thread, why: Why) {
    if why == Contended then e == Tau && s' == Put(s, t, th.(pc := Search))
    else if th.op.Insert? then e == Tau && s' == Put(s, t, th.(pc := Count))
    else e == Commit(th.op, NotFound)
         && s' == Put(s, t, th.(pc := Release, res := Some(NotFound)))
  }

  ghost predicate StepCheckMask(s: State, s': State, t: Tid, e: Event, th: Thread) {
    th.pc.CheckMask? && 1 <= th.m <= s.k
    && var h := HashOf(s, th);
       if th.m == s.k || h % Pow2(th.m) == h % Pow2(s.k) then
         Passed(s, s', t, e, th.(m := s.k), th.pc.why)
       else
         e == Tau && s' == Put(s, t, th.(pc := CheckBucket(NextOnPath(h, th.m, s.k), s.k, th.pc.why)))
  }

  ghost predicate StepCheckBucket(s: State, s': State, t: Tid, e: Event, th: Thread) {
    th.pc.CheckBucket? && th.pc.next < |s.buckets|
    && var th' := th.(m := th.pc.mask);
       if s.buckets[th.pc.next].RehashReq? then Passed(s, s', t, e, th', th.pc.why)
       else e == Tau && s' == Put(s, t, th'.(pc := Probe, top := HashOf(s, th) % Pow2(th'.m), mode := Rd))
  }

  ghost predicate StepUnlink(s: State, s': State, t: Tid, e: Event, th: Thread) {
    th.pc == Unlink && CanUse(s, th) && e == Commit(th.op, Erased)
    && exists i :: var nodes := s.buckets[th.top].nodes;
         0 <= i < |nodes| && nodes[i].key == th.op.key
         && s' == Put(s, t, th.(pc := Release, res := Some(Erased)))
                  .(buckets := s.buckets[th.top := Chain(Without(nodes, i))], size := s.size - 1)
  }

  ghost predicate StepCount(s: State, s': State, t: Tid, e: Event, th: Thread) {
    th.pc == Count && e == Tau
    && s' == Put(s, t, th.(pc := Link(s.size + 1))).(size := s.size + 1)
  }

  ghost predicate StepLink(s: State, s': State, t: Tid, e: Event, th: Thread) {
    th.pc.Link? && CanUse(s, th) && th.op.Insert? && e == Commit(th.op, Inserted)
    && s' == Put(s, t, th.(pc := Grow(th.pc.size), res := Some(Inserted)))
             .(buckets := s.buckets[th.top := Chain([Node(th.op.key, th.op.val)] + s.buckets[th.top].nodes)])
  }

  /** A full table lets one thread claim the next segment. */
  ghost predicate StepGrow(s: State, s': State, t: Tid, e: Event, th: Thread) {
    th.pc.Grow? && e == Tau
    && if th.pc.size >= Pow2(th.m) - 1 && th.m !in s.claimed then
         s' == Put(s, t, th.(pc := Release, grow := Some(th.m))).(claimed := s.claimed + {th.m})
       else s' == Put(s, t, th.(pc := Release))
  }

  ghost predicate StepRelease(s: State, s': State, t: Tid, e: Event, th: Thread) {
    th.pc == Release && e == Tau
    && s' == Put(s, t, th.(pc := if th.grow.Some? then Publish(th.grow.value) else Idle))
  }

  /** The first block holds segments 1 to 7; from segment 8 on each segment is allocated alone. */
  function NextMask(segment: nat): nat {
    if segment < 8 then 8 else segment + 1
  }

  function Below(n: nat): (r: set<nat>)
    ensures forall g :: g in r <==> 0 <= g < n
  {
    if n == 0 then {} else Below(n - 1) + {n - 1}
  }

  function Extended(buckets: seq<Bucket>, n: nat): seq<Bucket>
    requires |buckets| <= n
  {
    buckets + seq(n - |buckets|, _ => RehashReq)
  }

  ghost predicate StepPublish(s: State, s': State, t: Tid, e: Event, th: Thread) {
    th.pc.Publish? && e == Tau && |s.buckets| <= Pow2(NextMask(th.pc.segment))
    && s' == Put(s, t, th.(pc := Idle, grow := None))
             .(k := NextMask(th.pc.segment),
               claimed := s.claimed + Below(NextMask(th.pc.segment)),
               buckets := Extended(s.buckets, Pow2(NextMask(th.pc.segment))))
  }

  ghost predicate Next(s: State, s': State, t: Tid, e: Event) {
    t in s.threads
    && var th := s.threads[t];
       || Invoke(s, s', t, e, th) || StepLoadMask(s, s', t, e, th) || StepProbe(s, s', t, e, th)
       || StepTryLock(s, s', t, e, th) || StepLock(s, s', t, e, th) || StepRecheck(s, s', t, e, th)
       || StepScan(s, s', t, e, th) || StepScanUpgrade(s, s', t, e, th) || StepRelock(s, s', t, e, th) || StepMove(s, s', t, e, th)
       || StepScanned(s, s', t, e, th) || StepSearch(s, s', t, e, th) || StepUpgrade(s, s', t, e, th)
       || StepUpgradeWait(s, s', t, e, th) || StepCheckMask(s, s', t, e, th)
       || StepCheckBucket(s, s', t, e, th) || StepUnlink(s, s', t, e, th) || StepCount(s, s', t, e, th)
       || StepLink(s, s', t, e, th) || StepGrow(s, s', t, e, th) || StepRelease(s, s', t, e, th)
       || StepPublish(s, s', t, e, th)
  }

  /** Initially the table has been given some number of empty buckets. */
  ghost predicate Init(s: State) {
    && (s.k == 1 || s.k >= 8)
    && s.claimed == Below(s.k)
    && |s.buckets| == Pow2(s.k) && (forall j | 0 <= j < |s.buckets| :: s.buckets[j] == Chain([]))
    && s.size == 0
    && forall t | t in s.threads :: s.threads[t] == Thread(Find(0), Idle, 0, [], 0, Rd, None, None)
  }
}
