/** Item locks and the lifetime of nodes in the hash table.  A thread that has found a node holds the lock of the
    node's bucket until it has the item lock too, and nobody takes a node out of a bucket that another thread has
    locked (`HashMapTheorems.LockedBucketStays`, which also covers rehashing).  A node is deleted after
    whoever has taken it out has been alone with its item lock for a moment. */
module HashMapItems {

  datatype Mode = Rd | Wr

  /** In all but Idle the thread refers to the node n. */
  datatype Pc =
    | Idle
    | Found(n: nat, mode: Mode)     // lookup: has n's bucket locked, about to try n's item lock
    | Holds(n: nat, mode: Mode)     // has an accessor for n
    | ToUnlink(n: nat)              // erase: has n's bucket locked, about to take n out
    | AwaitItem(n: nat)             // erase: has taken n out, waits for the item lock
    | Upgrade(n: nat)               // exclude: has taken n out, holds the item lock as a reader
    | AwaitUpgrade(n: nat)          // exclude: the upgrade has released the lock and waits
    | Delete(n: nat)                // has had the item lock as a writer and released it

  datatype Life = Linked | Unlinked | Deleted

  datatype State = State(nodes: seq<Life>, threads: seq<Pc>)

  predicate RefersTo(pc: Pc, n: nat) { !pc.Idle? && pc.n == n }

  predicate InBucket(pc: Pc, n: nat) { (pc.Found? || pc.ToUnlink?) && pc.n == n }

  predicate HoldsItem(pc: Pc, n: nat) { (pc.Holds? || pc.Upgrade?) && pc.n == n }

  predicate WritesItem(pc: Pc, n: nat) { pc.Holds? && pc.n == n && pc.mode == Wr }

  /** Has taken n out of the table and not deleted it yet. */
  predicate Disposes(pc: Pc, n: nat) { (pc.AwaitItem? || pc.Upgrade? || pc.AwaitUpgrade? || pc.Delete?) && pc.n == n }

  ghost predicate NobodyElse(s: State, t: nat, p: Pc -> bool) {
    forall u :: 0 <= u < |s.threads| && u != t ==> !p(s.threads[u])
  }

  function Goto(s: State, t: nat, pc: Pc): State
    requires t < |s.threads|
  {
    s.(threads := s.threads[t := pc])
  }

  ghost predicate At(s: State, t: nat, n: nat) { t < |s.threads| && n < |s.nodes| && RefersTo(s.threads[t], n) }

  // ---------------------------------------------------------------- steps

  /** Finds a node in the table, for an accessor or to erase it; or inserts a new one. */
  ghost predicate Finds(s: State, s': State, t: nat, n: nat, mode: Mode) {
    t < |s.threads| && s.threads[t] == Idle && n < |s.nodes| && s.nodes[n] == Linked
    && (s' == Goto(s, t, Found(n, mode)) || s' == Goto(s, t, ToUnlink(n)))
  }

  ghost predicate Inserts(s: State, s': State, t: nat, n: nat, mode: Mode) {
    t < |s.threads| && s.threads[t] == Idle && n == |s.nodes|
    && s' == Goto(s, t, Found(n, mode)).(nodes := s.nodes + [Linked])
  }

  /** The item lock is free for it, or the thread gives the bucket back and begins again. */
  ghost predicate TriesItem(s: State, s': State, t: nat, n: nat) {
    At(s, t, n) && s.threads[t].Found?
    && var mode := s.threads[t].mode;
       || s' == Goto(s, t, Idle)
       || (s' == Goto(s, t, Holds(n, mode))
           && NobodyElse(s, t, pc => if mode == Wr then HoldsItem(pc, n) else WritesItem(pc, n)))
  }

  ghost predicate Releases(s: State, s': State, t: nat, n: nat) {
    At(s, t, n) && s.threads[t].Holds? && s' == Goto(s, t, Idle)
  }

  /** erase takes the node out when it is alone in the bucket, or gives the bucket back after a contended upgrade. */
  ghost predicate Unlinks(s: State, s': State, t: nat, n: nat) {
    At(s, t, n) && s.threads[t].ToUnlink?
    && (|| s' == Goto(s, t, Idle)
        || (NobodyElse(s, t, pc => InBucket(pc, n)) && s' == Goto(s, t, AwaitItem(n)).(nodes := s.nodes[n := Unlinked])))
  }

  ghost predicate GetsItem(s: State, s': State, t: nat, n: nat) {
    At(s, t, n) && s.threads[t].AwaitItem? && NobodyElse(s, t, pc => HoldsItem(pc, n)) && s' == Goto(s, t, Delete(n))
  }

  /** exclude, called with an accessor: somebody else was first, or it takes the node out. */
  ghost predicate Excludes(s: State, s': State, t: nat, n: nat) {
    At(s, t, n) && s.threads[t].Holds?
    && if s.nodes[n] != Linked then s' == Goto(s, t, Idle)
       else NobodyElse(s, t, pc => InBucket(pc, n))
            && s' == Goto(s, t, if s.threads[t].mode == Wr then Delete(n) else Upgrade(n)).(nodes := s.nodes[n := Unlinked])
  }

  /** The upgrade succeeds at once, or releases the lock first. */
  ghost predicate Upgrades(s: State, s': State, t: nat, n: nat) {
    At(s, t, n)
    && if s.threads[t].Upgrade? then
         s' == Goto(s, t, AwaitUpgrade(n)) || (NobodyElse(s, t, pc => HoldsItem(pc, n)) && s' == Goto(s, t, Delete(n)))
       else
         s.threads[t].AwaitUpgrade? && NobodyElse(s, t, pc => HoldsItem(pc, n)) && s' == Goto(s, t, Delete(n))
  }

  ghost predicate Deletes(s: State, s': State, t: nat, n: nat) {
    At(s, t, n) && s.threads[t].Delete? && s' == Goto(s, t, Idle).(nodes := s.nodes[n := Deleted])
  }

  ghost predicate Next(s: State, s': State, t: nat, n: nat) {
    || (exists mode :: Finds(s, s', t, n, mode)) || (exists mode :: Inserts(s, s', t, n, mode))
    || TriesItem(s, s', t, n) || Releases(s, s', t, n) || Unlinks(s, s', t, n) || GetsItem(s, s', t, n)
    || Excludes(s, s', t, n) || Upgrades(s, s', t, n) || Deletes(s, s', t, n)
  }

  ghost predicate IsRun(states: seq<State>, steps: seq<(nat, nat)>) {
    && |states| == |steps| + 1 && states[0].nodes == []
    && (forall t :: 0 <= t < |states[0].threads| ==> states[0].threads[t] == Idle)
    && forall i :: 0 <= i < |steps| ==> Next(states[i], states[i + 1], steps[i].0, steps[i].1)
  }

  // ---------------------------------------------------------------- the invariant

  ghost predicate ThreadOk(s: State, pc: Pc) {
    !pc.Idle? ==> pc.n < |s.nodes| && match pc
                                      case Found(n, _) => s.nodes[n] == Linked
                                      case ToUnlink(n) => s.nodes[n] == Linked
                                      case Holds(n, _) => s.nodes[n] != Deleted
                                      case _ => s.nodes[pc.n] == Unlinked
  }

  /** What two threads may do with the same node. */
  ghost predicate Compatible(a: Pc, b: Pc) {
    !a.Idle? && !b.Idle? && a.n == b.n ==>
      && !(Disposes(a, a.n) && Disposes(b, b.n))
      && (WritesItem(a, a.n) ==> !HoldsItem(b, b.n)) && (WritesItem(b, b.n) ==> !HoldsItem(a, a.n))
      && (a.Delete? ==> !HoldsItem(b, b.n)) && (b.Delete? ==> !HoldsItem(a, a.n))
  }

  ghost predicate Inv(s: State) {
    && (forall t :: 0 <= t < |s.threads| ==> ThreadOk(s, s.threads[t]))
    && (forall t, u :: 0 <= t < |s.threads| && 0 <= u < |s.threads| && t != u ==> Compatible(s.threads[t], s.threads[u]))
    && (forall n :: 0 <= n < |s.nodes| && s.nodes[n] == Unlinked ==> SomeoneDisposes(s, n))
  }

  ghost predicate SomeoneDisposes(s: State, n: nat) { exists t :: 0 <= t < |s.threads| && Disposes(s.threads[t], n) }

  lemma NextKeeps(s: State, s': State, t: nat, n: nat)
    requires Inv(s) && Next(s, s', t, n)
    ensures Inv(s')
  {
    Untouched(s, s', t, n);
    InvOf(s, t, n);
    OwnThread(s, s', t, n);
    forall u | 0 <= u < |s.threads| && u != t
      ensures ThreadOk(s', s'.threads[u]) && Compatible(s'.threads[t], s'.threads[u]) && Compatible(s'.threads[u], s'.threads[t])
    {
      assert ThreadOk(s, s.threads[u]) && Compatible(s.threads[t], s.threads[u]);
      OtherThread(s, s', t, n, u);
      NextCompatible(s, s', t, n, u);
    }
    hide Next, ThreadOk, Compatible;
    forall i | 0 <= i < |s'.nodes| && s'.nodes[i] == Unlinked ensures SomeoneDisposes(s', i) { NextDisposed(s, s', t, n, i); }
  }

  lemma NextDisposed(s: State, s': State, t: nat, n: nat, i: nat)
    requires Inv(s) && Next(s, s', t, n) && i < |s'.nodes| && s'.nodes[i] == Unlinked
    ensures SomeoneDisposes(s', i)
  {
    hide Inv;
    assert ThreadOk(s, s.threads[t]) && (i < |s.nodes| && s.nodes[i] == Unlinked ==> SomeoneDisposes(s, i)) by { InvOf(s, t, i); }
    if i < |s.nodes| && s.nodes[i] == Unlinked {
      var u :| 0 <= u < |s.threads| && Disposes(s.threads[u], i);
      assert u != t ==> Disposes(s'.threads[u], i);
      assert u == t ==> Disposes(s'.threads[t], i);
    } else {
      assert Disposes(s'.threads[t], i);
    }
  }

  lemma InvOf(s: State, t: nat, i: nat)
    requires Inv(s)
    ensures t < |s.threads| ==> ThreadOk(s, s.threads[t])
    ensures i < |s.nodes| && s.nodes[i] == Unlinked ==> SomeoneDisposes(s, i)
  {
  }

  lemma Untouched(s: State, s': State, t: nat, n: nat)
    requires Next(s, s', t, n)
    ensures t < |s.threads| == |s'.threads| && forall u :: 0 <= u < |s.threads| && u != t ==> s'.threads[u] == s.threads[u]
  {
  }

  lemma OwnThread(s: State, s': State, t: nat, n: nat)
    requires Next(s, s', t, n) && t < |s.threads| == |s'.threads| && ThreadOk(s, s.threads[t])
    ensures ThreadOk(s', s'.threads[t])
  {
  }

  lemma OtherThread(s: State, s': State, t: nat, n: nat, u: nat)
    requires Next(s, s', t, n) && t < |s.threads| == |s'.threads| && ThreadOk(s, s.threads[t])
    requires u < |s.threads| && u != t && s'.threads[u] == s.threads[u] && ThreadOk(s, s.threads[u])
    requires Compatible(s.threads[t], s.threads[u])
    ensures ThreadOk(s', s'.threads[u])
  {
  }

  lemma NextCompatible(s: State, s': State, t: nat, n: nat, u: nat)
    requires Next(s, s', t, n) && t < |s.threads| == |s'.threads| && ThreadOk(s, s.threads[t])
    requires u < |s.threads| && u != t && s'.threads[u] == s.threads[u] && ThreadOk(s, s.threads[u])
    requires Compatible(s.threads[t], s.threads[u])
    ensures Compatible(s'.threads[t], s'.threads[u])
  {
  }

  lemma {:induction false} RunInvariant(states: seq<State>, steps: seq<(nat, nat)>, i: nat)
    requires IsRun(states, steps) && i <= |steps|
    ensures Inv(states[i])
    decreases i
  {
    if i > 0 {
      hide Inv, Next;
      RunInvariant(states, steps, i - 1);
      NextKeeps(states[i - 1], states[i], steps[i - 1].0, steps[i - 1].1);
    }
  }

  // ---------------------------------------------------------------- results

  /** Whoever refers to a node, through an accessor or on the way to one, finds it not deleted. */
  lemma NeverDeleted(states: seq<State>, steps: seq<(nat, nat)>, i: nat, t: nat, n: nat)
    requires IsRun(states, steps) && i <= |steps| && t < |states[i].threads| && RefersTo(states[i].threads[t], n)
    ensures n < |states[i].nodes| && states[i].nodes[n] != Deleted
  {
    RunInvariant(states, steps, i);
    assert ThreadOk(states[i], states[i].threads[t]);
  }

  /** A node is deleted when nobody else refers to it. */
  lemma DeletedAlone(states: seq<State>, steps: seq<(nat, nat)>, i: nat, t: nat, n: nat, u: nat)
    requires IsRun(states, steps) && i < |steps| && Deletes(states[i], states[i + 1], t, n)
    requires u < |states[i].threads| && u != t
    ensures states[i].nodes[n] == Unlinked && !RefersTo(states[i].threads[u], n)
  {
    RunInvariant(states, steps, i);
    var s := states[i];
    assert ThreadOk(s, s.threads[t]) && ThreadOk(s, s.threads[u]) && Compatible(s.threads[t], s.threads[u]);
  }

  /** A writer has the item for itself. */
  lemma WriterAlone(states: seq<State>, steps: seq<(nat, nat)>, i: nat, t: nat, u: nat, n: nat)
    requires IsRun(states, steps) && i <= |steps| && t < |states[i].threads| && u < |states[i].threads| && t != u
    requires WritesItem(states[i].threads[t], n)
    ensures !HoldsItem(states[i].threads[u], n) && states[i].threads[u] != Delete(n)
  {
    RunInvariant(states, steps, i);
    assert Compatible(states[i].threads[t], states[i].threads[u]);
  }

  /** A node that has been taken out has one thread that is going to delete it, and that can go on as soon as no
      accessor holds the item. */
  lemma DisposerProceeds(states: seq<State>, steps: seq<(nat, nat)>, i: nat, n: nat)
    requires IsRun(states, steps) && i <= |steps| && n < |states[i].nodes| && states[i].nodes[n] == Unlinked
    requires forall u :: 0 <= u < |states[i].threads| ==> !(states[i].threads[u].Holds? && states[i].threads[u].n == n)
    ensures exists t, s' :: 0 <= t < |states[i].threads| && Disposes(states[i].threads[t], n) && Next(states[i], s', t, n)
  {
    RunInvariant(states, steps, i);
    var s := states[i];
    assert SomeoneDisposes(s, n);
    var t :| 0 <= t < |s.threads| && Disposes(s.threads[t], n);
    assert forall u :: 0 <= u < |s.threads| && u != t ==> Compatible(s.threads[t], s.threads[u]);
    hide Inv;
    var s' := if s.threads[t].Delete? then Goto(s, t, Idle).(nodes := s.nodes[n := Deleted]) else Goto(s, t, Delete(n));
    assert Deletes(s, s', t, n) || GetsItem(s, s', t, n) || Upgrades(s, s', t, n);
    assert Next(s, s', t, n);
  }

  /** What is deleted stays so: each node is deleted at most once. */
  lemma {:induction false} DeletedStays(states: seq<State>, steps: seq<(nat, nat)>, i: nat, j: nat, n: nat)
    requires IsRun(states, steps) && i <= j <= |steps| && n < |states[i].nodes| && states[i].nodes[n] == Deleted
    ensures n < |states[j].nodes| && states[j].nodes[n] == Deleted
    decreases j
  {
    hide Next, Inv;
    if i < j {
      DeletedStays(states, steps, i, j - 1, n);
      RunInvariant(states, steps, j - 1);
      StepStays(states[j - 1], states[j], steps[j - 1].0, steps[j - 1].1, n);
    }
  }

  lemma StepStays(s: State, s': State, t: nat, m: nat, n: nat)
    requires Inv(s) && Next(s, s', t, m) && n < |s.nodes| && s.nodes[n] == Deleted
    ensures n < |s'.nodes| && s'.nodes[n] == Deleted
  {
    InvOf(s, t, n);
    hide Inv;
  }

  // ---------------------------------------------------------------- what a call can do by itself

  /** Steps of thread t about node n. */
  ghost predicate OwnSteps(states: seq<State>, t: nat, n: nat) {
    states != [] && forall i :: 0 <= i < |states| - 1 ==> Next(states[i], states[i + 1], t, n)
  }

  /** Whoever has a bucket or an item locked can let go of it, whatever the others do. */
  lemma LetsGo(s: State, t: nat) returns (s': State)
    requires Inv(s) && t < |s.threads|
    requires s.threads[t].Found? || s.threads[t].ToUnlink? || s.threads[t].Holds? || s.threads[t].Upgrade?
    ensures Next(s, s', t, s.threads[t].n) && s'.nodes == s.nodes
    ensures s'.threads[t] == if s.threads[t].Upgrade? then AwaitUpgrade(s.threads[t].n) else Idle
  {
    var n := s.threads[t].n;
    InvOf(s, t, n);
    s' := Goto(s, t, if s.threads[t].Upgrade? then AwaitUpgrade(n) else Idle);
    assert TriesItem(s, s', t, n) || Unlinks(s, s', t, n) || Releases(s, s', t, n) || Upgrades(s, s', t, n);
  }

  /** A lookup gets its accessor in two steps if the item lock is free for it. */
  lemma LooksUp(s: State, t: nat, n: nat, mode: Mode) returns (states: seq<State>)
    requires t < |s.threads| && s.threads[t] == Idle && n < |s.nodes| && s.nodes[n] == Linked
    requires NobodyElse(s, t, pc => if mode == Wr then HoldsItem(pc, n) else WritesItem(pc, n))
    ensures OwnSteps(states, t, n) && states[0] == s && |states| == 3
    ensures states[2] == Goto(s, t, Holds(n, mode))
  {
    var s1, s2 := Goto(s, t, Found(n, mode)), Goto(s, t, Holds(n, mode));
    states := [s, s1, s2];
    assert Finds(s, s1, t, n, mode);
    assert s2 == Goto(s1, t, Holds(n, mode));
    assert TriesItem(s1, s2, t, n);
  }

  /** Erasing a node that nobody else refers to deletes it. */
  lemma EraseDeletes(s: State, t: nat, n: nat) returns (states: seq<State>)
    requires t < |s.threads| && s.threads[t] == Idle && n < |s.nodes| && s.nodes[n] == Linked
    requires forall u :: 0 <= u < |s.threads| && u != t ==> !RefersTo(s.threads[u], n)
    ensures OwnSteps(states, t, n) && states[0] == s
    ensures states[|states| - 1] == s.(nodes := s.nodes[n := Deleted])
  {
    var gone := s.(nodes := s.nodes[n := Unlinked]);
    var s1, s2, s3 := Goto(s, t, ToUnlink(n)), Goto(gone, t, AwaitItem(n)), Goto(gone, t, Delete(n));
    var s4 := s.(nodes := s.nodes[n := Deleted]);
    states := [s, s1, s2, s3, s4];
    assert Finds(s, s1, t, n, Wr);
    assert Unlinks(s1, s2, t, n);
    assert GetsItem(s2, s3, t, n);
    assert s3.threads[t := Idle] == s.threads && s3.nodes[n := Deleted] == s4.nodes;
    assert Deletes(s3, s4, t, n);
  }

  /** So does excluding it through the only accessor: with a writer's at once, with a reader's after an upgrade. */
  lemma ExcludeDeletes(s: State, t: nat, n: nat) returns (states: seq<State>)
    requires t < |s.threads| && s.threads[t].Holds? && s.threads[t].n == n < |s.nodes| && s.nodes[n] == Linked
    requires forall u :: 0 <= u < |s.threads| && u != t ==> !RefersTo(s.threads[u], n)
    ensures OwnSteps(states, t, n) && states[0] == s && |states| == if s.threads[t].mode == Wr then 3 else 4
    ensures states[|states| - 1] == Goto(s, t, Idle).(nodes := s.nodes[n := Deleted])
  {
    var gone := s.(nodes := s.nodes[n := Unlinked]);
    var s1, s2, s3 := Goto(gone, t, Upgrade(n)), Goto(gone, t, Delete(n)), Goto(s, t, Idle).(nodes := s.nodes[n := Deleted]);
    assert s2.nodes[n := Deleted] == s3.nodes && s2.threads[t := Idle] == s3.threads;
    assert Deletes(s2, s3, t, n);
    if s.threads[t].mode == Wr {
      states := [s, s2, s3];
      assert Excludes(s, s2, t, n);
    } else {
      states := [s, s1, s2, s3];
      assert Excludes(s, s1, t, n);
      assert Upgrades(s1, s2, t, n);
    }
  }
}
