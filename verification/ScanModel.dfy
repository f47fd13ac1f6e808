/** parallel_scan as a step system over its tree of tasks.
    The first pass splits the range and runs a pre-scan or a final scan on each leaf; a right child
    runs at any moment, whether stolen or not, and gets a body of its own unless its left sibling's
    sum turns out to be the body it shares.  The second pass walks the saved tree of partial sums.
    Tasks of both passes take their steps in any order.

    A body's state is the sequence of positions it has accumulated, in order: sequences are the free
    monoid, so what holds of them holds of every associative join (see ScanTheorems.Total). */
module ScanModel {
  import opened Options

  type BodyId = nat
  type Store = map<BodyId, seq<nat>>

  /** A range type: which intervals may be split, and where. */
  datatype Splitter = Splitter(divisible: (nat, nat) -> bool, mid: (nat, nat) -> nat)

  ghost predicate ValidSplitter(sp: Splitter) {
    forall lo: nat, hi: nat :: sp.divisible(lo, hi) ==> lo < sp.mid(lo, hi) < hi
  }

  function Positions(lo: nat, hi: nat): (s: seq<nat>)
    ensures lo <= hi ==> |s| == hi - lo && forall i :: 0 <= i < |s| ==> s[i] == lo + i
  {
    if lo < hi then seq(hi - lo, i requires 0 <= i => lo + i) else []
  }

  /** sum_node: the left part's sum, and the subtrees that need a second pass. */
  datatype Sum = Sum(lo: nat, hi: nat, leftFinal: bool, leftSum: BodyId, left: Option<Sum>, right: Option<Sum>)

  /** A final scan of [lo, hi) that started from the accumulated positions `acc`. */
  datatype Event = Quiet | FinalScan(lo: nat, hi: nat, acc: seq<nat>)

  // ---------------------------------------------------------------- first pass

  /** Start is a start_scan task that has not run; `total` says that the caller wants the sum.
      Join is a finish_scan task with its sum_node, waiting for its children.
      Done is a finished task with what it left in its return slot. */
  datatype Task =
    | Start(lo: nat, hi: nat, body: BodyId, final: bool, total: bool, isRight: bool)
    | Join(lo: nat, mid: nat, hi: nat, final: bool, total: bool, leftSum: Option<BodyId>,
           zombie: Option<BodyId>, left: Task, right: Task)
    | Done(slot: Option<Sum>)

  /** The caller's sum slot after a step that stored w there, if it did. */
  function Stored(slot: Option<BodyId>, w: Option<BodyId>): Option<BodyId> {
    if w.Some? then w else slot
  }

  /** The body scans the range: a final scan, a pre-scan, or nothing. */
  function LeafStore(st: Store, s: Task): Store
    requires s.Start? && s.body in st
  {
    if s.final || s.total then st[s.body := st[s.body] + Positions(s.lo, s.hi)] else st
  }

  function LeafEvent(st: Store, s: Task): Event
    requires s.Start? && s.body in st
  {
    if s.final then FinalScan(s.lo, s.hi, st[s.body]) else Quiet
  }

  ghost predicate LeafStep(s: Task, st: Store, s': Task, st': Store, w: Option<BodyId>, e: Event) {
    && s.Start? && s.body in st
    && s' == Done(None) && st' == LeafStore(st, s) && e == LeafEvent(st, s)
    && w == if s.total then Some(s.body) else None
  }

  ghost predicate SplitStep(sp: Splitter, s: Task, st: Store, s': Task, st': Store, w: Option<BodyId>, e: Event) {
    && s.Start? && sp.divisible(s.lo, s.hi) && st' == st && w == None && e == Quiet
    && var m := sp.mid(s.lo, s.hi);
       s' == Join(s.lo, m, s.hi, s.final, s.total, None, None,
                  Start(s.lo, m, s.body, s.final, true, false),
                  Start(m, s.hi, s.body, s.final, s.total, true))
  }

  /** A left child or a task with its own body: the partitioner may stop splitting anywhere. */
  ghost predicate StartStep(sp: Splitter, s: Task, st: Store, s': Task, st': Store, w: Option<BodyId>, e: Event) {
    LeafStep(s, st, s', st', w, e) || SplitStep(sp, s, st, s', st', w, e)
  }

  /** A right child that is treated as stolen gets a new body. */
  ghost predicate StolenStep(sp: Splitter, j: Task, st: Store, j': Task, st': Store, w: Option<BodyId>, e: Event) {
    && j.Join? && j.right.Start? && j.right.isRight
    && exists z, r' :: z !in st
         && StartStep(sp, j.right.(body := z, final := false, isRight := false), st[z := []], r', st', w, e)
         && j' == j.(zombie := Some(z), right := r')
  }

  /** A right child that runs after its left sibling, whose sum is the shared body, goes on with that
      body and is not split. */
  ghost predicate SharedStep(j: Task, st: Store, j': Task, st': Store, w: Option<BodyId>, e: Event) {
    && j.Join? && j.right.Start? && j.right.isRight && j.leftSum == Some(j.right.body)
    && LeafStep(j.right, st, Done(None), st', w, e) && j' == j.(right := Done(None))
  }

  /** The sum_node of a finished Join: its left part is final if it was and needs no second pass. */
  function NodeOf(j: Task): Sum
    requires j.Join? && j.left.Done? && j.right.Done? && j.leftSum.Some?
  {
    Sum(j.lo, j.hi, j.final && j.left.slot.None?, j.leftSum.value, j.left.slot, j.right.slot)
  }

  /** finish_scan: both children are done. `slot` is the caller's sum slot, if it wants a sum. */
  ghost predicate FinishStep(j: Task, slot: Option<BodyId>, st: Store, j': Task, st': Store) {
    && j.Join? && j.left.Done? && j.right.Done? && j.leftSum.Some?
    && (j.zombie.Some? && j.total ==> slot.Some? && slot.value in st && j.leftSum.value in st)
    && j' == Done(if j.zombie.Some? || j.right.slot.Some? then Some(NodeOf(j)) else None)
    && st' == if j.zombie.None? then st
              else if j.total then st[slot.value := st[j.leftSum.value] + st[slot.value]]
              else if j.right.slot.None? then st - {j.zombie.value}
              else st
  }

  /** One step of some task of the tree: t becomes t', w is stored in the caller's sum slot. */
  ghost predicate Step(sp: Splitter, slot: Option<BodyId>, t: Task, st: Store,
                       t': Task, st': Store, w: Option<BodyId>, e: Event)
    decreases t
  {
    match t
    case Done(_) => false
    case Start(_, _, _, _, _, isRight) => !isRight && StartStep(sp, t, st, t', st', w, e)
    case Join(_, _, _, _, total, leftSum, _, left, right) =>
      || (exists l', w0 :: Step(sp, leftSum, left, st, l', st', w0, e)
            && w == None && t' == t.(left := l', leftSum := Stored(leftSum, w0)))
      || StolenStep(sp, t, st, t', st', w, e)
      || SharedStep(t, st, t', st', w, e)
      || (exists r' :: Step(sp, slot, right, st, r', st', w, e) && t' == t.(right := r'))
      || (FinishStep(t, slot, st, t', st') && w == None && e == Quiet)
  }

  // ---------------------------------------------------------------- second pass

  /** Pend is a sum_node to execute, Leaf a final_sum to execute, Both a sum_node that waits. */
  datatype Task2 =
    | Pend(sum: Sum, body: BodyId, incoming: Option<BodyId>, last: bool)
    | Leaf(lo: nat, hi: nat, body: BodyId, last: bool)
    | Both(mid: nat, left: Task2, right: Task2)
    | End

  function CreateChild(lo: nat, hi: nat, f: BodyId, n: Option<Sum>, incoming: Option<BodyId>, last: bool): Task2 {
    match n
    case None => Leaf(lo, hi, f, last)
    case Some(s) => Pend(s, f, incoming, last)
  }

  function PendChildren(sp: Splitter, t: Task2): Task2
    requires t.Pend?
  {
    var s := t.sum;
    var m := sp.mid(s.lo, s.hi);
    Both(m, if s.leftFinal then End else CreateChild(s.lo, m, t.body, s.left, t.incoming, false),
            CreateChild(m, s.hi, s.leftSum, s.right, Some(s.leftSum), t.last))
  }

  function PendStore(st: Store, t: Task2): Store
    requires t.Pend? && t.sum.leftSum in st && (t.incoming.Some? ==> t.incoming.value in st)
  {
    if t.incoming.Some? then st[t.sum.leftSum := st[t.incoming.value] + st[t.sum.leftSum]] else st
  }

  /** One step of some task of the second pass; `user` is the body the caller passed in.  A final_sum
      is destroyed after it has run. */
  ghost predicate Step2(sp: Splitter, t: Task2, st: Store, user: seq<nat>,
                        t': Task2, st': Store, user': seq<nat>, e: Event)
    decreases t
  {
    match t
    case End => false
    case Pend(s, _, incoming, _) =>
      s.leftSum in st && (incoming.Some? ==> incoming.value in st)
      && t' == PendChildren(sp, t) && st' == PendStore(st, t) && user' == user && e == Quiet
    case Leaf(lo, hi, body, last) =>
      body in st && t' == End && st' == st - {body} && e == FinalScan(lo, hi, st[body])
      && user' == if last then st[body] + Positions(lo, hi) else user
    case Both(_, left, right) =>
      || (exists l' :: Step2(sp, left, st, user, l', st', user', e) && t' == t.(left := l'))
      || (exists r' :: Step2(sp, right, st, user, r', st', user', e) && t' == t.(right := r'))
  }

  // ---------------------------------------------------------------- the whole algorithm

  datatype Phase = First(task: Task) | Second(task2: Task2) | Finished

  /** `scanned` records the positions that final scans have covered. */
  datatype State = State(phase: Phase, st: Store, user: seq<nat>, scanned: set<nat>)

  function Covered(e: Event): set<nat> {
    if e.FinalScan? then Interval(e.lo, e.hi) else {}
  }

  function Interval(lo: nat, hi: nat): (r: set<nat>)
    ensures forall i: nat :: i in r <==> lo <= i < hi
    decreases hi
  {
    if lo < hi then Interval(lo, hi - 1) + {hi - 1} else {}
  }

  /** run: the temporary body 0 is split off the user's body. */
  ghost predicate Init(s: State, n: nat) {
    n > 0 && s.phase == First(Start(0, n, 0, true, false, false)) && s.st == map[0 := []] && s.scanned == {}
  }

  ghost predicate Next(sp: Splitter, s: State, s': State, e: Event) {
    match s.phase
    case First(Done(slot)) =>
      && e == Quiet && s'.st == s.st && s'.scanned == s.scanned
      && (slot.None? ==> 0 in s.st && s'.phase == Finished && s'.user == s.st[0])
      && (slot.Some? ==> s'.phase == Second(Pend(slot.value, 0, None, true)) && s'.user == s.user)
    case First(t) =>
      exists t' :: Step(sp, None, t, s.st, t', s'.st, None, e)
        && s'.phase == First(t') && s'.user == s.user && s'.scanned == s.scanned + Covered(e)
    case Second(t) =>
      if AllEnd(t) then s' == s.(phase := Finished) && e == Quiet
      else exists t' :: Step2(sp, t, s.st, s.user, t', s'.st, s'.user, e)
             && s'.phase == Second(t') && s'.scanned == s.scanned + Covered(e)
    case Finished => false
  }

  predicate AllEnd(t: Task2) {
    t.End? || (t.Both? && AllEnd(t.left) && AllEnd(t.right))
  }
}
