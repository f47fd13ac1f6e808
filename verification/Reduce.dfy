/** parallel_reduce as a step system over its tree of tasks.  A task runs pieces from the left of its
    range and offers pieces from the right as new tasks (what RangePool.Execute guarantees), at any
    moment and of any size; tasks take their steps in any order.

    A body's state is the sequence of positions it has accumulated, in order; see ReduceTheorems.Total
    for bodies with any associative join. */
module Reduce {
  import opened Options
  import ScanModel

  type BodyId = nat
  type Store = map<BodyId, seq<nat>>

  datatype Context = Root | LeftChild | RightChild

  /** Start is a start_reduce task: `begun` says that execute has been entered, [lo, hi) is what is left
      of its range.  Finish is a finish_reduce task with its children: `slot` is its my_body, and `mid` is
      where the right child's range began.  Done is a task that has returned. */
  datatype Task =
    | Start(begun: bool, lo: nat, hi: nat, body: BodyId, ctx: Context)
    | Finish(ctx: Context, mid: nat, slot: Option<BodyId>, zombie: Option<BodyId>, left: Task, right: Task)
    | Done

  /** The task that holds the range runs a piece from its left end. */
  ghost predicate RunStep(t: Task, st: Store, t': Task, st': Store) {
    && t.Start? && t.begun && t.body in st
    && exists m: nat :: t.lo < m <= t.hi && t' == t.(lo := m)
         && st' == st[t.body := st[t.body] + ScanModel.Positions(t.lo, m)]
  }

  /** It offers a piece from the right end: it becomes the left child of a new finish_reduce, which
      takes over its context. */
  ghost predicate OfferStep(t: Task, st: Store, t': Task, st': Store) {
    && t.Start? && t.begun && st' == st
    && exists m: nat :: t.lo < m < t.hi
         && t' == Finish(t.ctx, m, None, None, t.(hi := m, ctx := LeftChild), Start(false, m, t.hi, t.body, RightChild))
  }

  /** What a task tells its parent when it returns: a left child hands over its body. */
  function Told(ctx: Context, body: BodyId): Option<BodyId> {
    if ctx == LeftChild then Some(body) else None
  }

  ghost predicate EndStep(t: Task, st: Store, t': Task, st': Store, w: Option<BodyId>) {
    t.Start? && t.begun && t.lo == t.hi && t' == Done && st' == st && w == Told(t.ctx, t.body)
  }

  /** A right child begins: unless its left sibling has finished it splits off a body of its own. */
  ghost predicate BeginStep(j: Task, st: Store, j': Task, st': Store) {
    && j.Finish? && j.right.Start? && !j.right.begun && j.right.ctx == RightChild
    && if j.slot == None then
         exists z :: z !in st && st' == st[z := []]
           && j' == j.(zombie := Some(z), right := j.right.(begun := true, body := z))
       else
         st' == st && j' == j.(right := j.right.(begun := true))
  }

  /** Both children have returned: join the right body, if it was split, and destroy it. */
  ghost predicate JoinStep(j: Task, st: Store, j': Task, st': Store, w: Option<BodyId>) {
    && j.Finish? && j.left.Done? && j.right.Done? && j.slot.Some? && j.slot.value in st
    && j' == Done && w == Told(j.ctx, j.slot.value)
    && if j.zombie.Some? then
         j.zombie.value in st
         && st' == st[j.slot.value := st[j.slot.value] + st[j.zombie.value]] - {j.zombie.value}
       else st' == st
  }

  function Stored(slot: Option<BodyId>, w: Option<BodyId>): Option<BodyId> {
    if w.Some? then w else slot
  }

  /** One step of some task of the tree; `w` is what is stored in the parent. */
  ghost predicate Step(t: Task, st: Store, t': Task, st': Store, w: Option<BodyId>)
    decreases t
  {
    match t
    case Done => false
    case Start(_, _, _, _, _) =>
      (w == None && (RunStep(t, st, t', st') || OfferStep(t, st, t', st'))) || EndStep(t, st, t', st', w)
    case Finish(_, _, slot, _, left, right) =>
      || (exists l', w0 :: Step(left, st, l', st', w0) && w == None && t' == t.(left := l', slot := Stored(slot, w0)))
      || (exists r', w0 :: Step(right, st, r', st', w0) && w == None && t' == t.(right := r', slot := Stored(slot, w0)))
      || (BeginStep(t, st, t', st') && w == None)
      || JoinStep(t, st, t', st', w)
  }

  datatype State = State(task: Task, st: Store)

  /** run: one root task for the whole range, with the user's body 0. */
  ghost predicate Init(s: State, n: nat, user: seq<nat>) {
    n > 0 && s.task == Start(true, 0, n, 0, Root) && s.st == map[0 := user]
  }

  ghost predicate Next(s: State, s': State) {
    exists w :: Step(s.task, s.st, s'.task, s'.st, w)
  }

  // ---------------------------------------------------------------- what every task tree satisfies

  /** The bodies that have been split off below a task. */
  function Own(t: Task): set<BodyId> {
    match t
    case Finish(_, _, _, zombie, left, right) =>
      Own(left) + Own(right) + (if zombie.Some? then {zombie.value} else {})
    case _ => {}
  }

  /** The tree t stands for [lo, hi), started with `body` when that held `base`. */
  ghost predicate Tree(st: Store, t: Task, lo: nat, hi: nat, body: BodyId, base: seq<nat>, ctx: Context)
    decreases t
  {
    && lo < hi && body in st && body !in Own(t)
    && match t
       case Done => st[body] == base + ScanModel.Positions(lo, hi)
       case Start(begun, lo', hi', b, c) =>
         && begun && lo <= lo' <= hi' == hi && b == body && c == ctx
         && st[body] == base + ScanModel.Positions(lo, lo')
       case Finish(c, m, slot, zombie, left, right) =>
         && c == ctx && lo < m < hi && slot == (if left.Done? then Some(body) else None)
         && (zombie == None && right == Start(false, m, hi, body, RightChild) ==>
               Tree(st, left, lo, m, body, base, LeftChild))
         && (zombie == None && right != Start(false, m, hi, body, RightChild) ==>
               left.Done? && Tree(st, right, m, hi, body, base + ScanModel.Positions(lo, m), RightChild))
         && (zombie.Some? ==>
               && var z := zombie.value;
               && z != body && z !in Own(left) && Own(left) !! Own(right)
               && Tree(st, left, lo, m, body, base, LeftChild)
               && Tree(st, right, m, hi, z, [], RightChild))
  }

  /** A tree depends only on the bodies it uses. */
  lemma {:induction false} TreeFrame(st: Store, st': Store, t: Task, lo: nat, hi: nat, body: BodyId, base: seq<nat>, ctx: Context)
    requires Tree(st, t, lo, hi, body, base, ctx)
    requires forall x | x in Own(t) + {body} && x in st :: x in st' && st'[x] == st[x]
    ensures Tree(st', t, lo, hi, body, base, ctx)
    decreases t
  {
    if t.Finish? {
      if t.zombie.Some? {
        TreeFrame(st, st', t.left, lo, t.mid, body, base, LeftChild);
        TreeFrame(st, st', t.right, t.mid, hi, t.zombie.value, [], RightChild);
      } else if t.right == Start(false, t.mid, hi, body, RightChild) {
        TreeFrame(st, st', t.left, lo, t.mid, body, base, LeftChild);
      } else {
        TreeFrame(st, st', t.right, t.mid, hi, body, base + ScanModel.Positions(lo, t.mid), RightChild);
      }
    }
  }

  lemma {:induction false} OwnInStore(st: Store, t: Task, lo: nat, hi: nat, body: BodyId, base: seq<nat>, ctx: Context)
    requires Tree(st, t, lo, hi, body, base, ctx)
    ensures Own(t) <= st.Keys
    decreases t
  {
    if t.Finish? {
      if t.zombie.Some? {
        OwnInStore(st, t.left, lo, t.mid, body, base, LeftChild);
        OwnInStore(st, t.right, t.mid, hi, t.zombie.value, [], RightChild);
      } else if t.right == Start(false, t.mid, hi, body, RightChild) {
        OwnInStore(st, t.left, lo, t.mid, body, base, LeftChild);
      } else {
        OwnInStore(st, t.right, t.mid, hi, body, base + ScanModel.Positions(lo, t.mid), RightChild);
      }
    }
  }

  lemma JoinsOn(base: seq<nat>, lo: nat, m: nat, hi: nat)
    requires lo <= m <= hi
    ensures (base + ScanModel.Positions(lo, m)) + ScanModel.Positions(m, hi) == base + ScanModel.Positions(lo, hi)
  {
    assert ScanModel.Positions(lo, m) + ScanModel.Positions(m, hi) == ScanModel.Positions(lo, hi);
  }

  /** What a step of a tree does: it keeps the tree, touches no other body, and frees those it drops. */
  ghost predicate Effect(st: Store, t: Task, st': Store, t': Task, w: Option<BodyId>,
                         lo: nat, hi: nat, body: BodyId, base: seq<nat>, ctx: Context)
  {
    && Tree(st', t', lo, hi, body, base, ctx)
    && (forall x | x in st && x !in Own(t) + {body} :: x in st' && st'[x] == st[x] && x !in Own(t'))
    && st'.Keys - Own(t') == st.Keys - Own(t)
    && w == (if t'.Done? then Told(ctx, body) else None)
  }

  lemma StartEffect(st: Store, t: Task, st': Store, t': Task, w: Option<BodyId>,
                    lo: nat, hi: nat, body: BodyId, base: seq<nat>, ctx: Context)
    requires Tree(st, t, lo, hi, body, base, ctx) && t.Start? && Step(t, st, t', st', w)
    ensures Effect(st, t, st', t', w, lo, hi, body, base, ctx)
  {
    if RunStep(t, st, t', st') {
      JoinsOn(base, lo, t.lo, t'.lo);
    }
  }

  lemma BeginEffect(st: Store, j: Task, st': Store, j': Task,
                    lo: nat, hi: nat, body: BodyId, base: seq<nat>, ctx: Context)
    requires Tree(st, j, lo, hi, body, base, ctx) && BeginStep(j, st, j', st')
    ensures Effect(st, j, st', j', None, lo, hi, body, base, ctx)
  {
    OwnInStore(st, j, lo, hi, body, base, ctx);
    assert j.zombie == None && j.right == Start(false, j.mid, hi, body, RightChild);
    if j.slot == None {
      TreeFrame(st, st', j.left, lo, j.mid, body, base, LeftChild);
    }
  }

  lemma JoinEffect(st: Store, j: Task, st': Store, j': Task, w: Option<BodyId>,
                   lo: nat, hi: nat, body: BodyId, base: seq<nat>, ctx: Context)
    requires Tree(st, j, lo, hi, body, base, ctx) && JoinStep(j, st, j', st', w)
    ensures Effect(st, j, st', j', w, lo, hi, body, base, ctx)
  {
    JoinsOn(base, lo, j.mid, hi);
    if j.zombie.Some? { assert [] + ScanModel.Positions(j.mid, hi) == ScanModel.Positions(j.mid, hi); }
  }
}
