/** The main results about parallel_reduce: whatever is stolen, offered and run when, the user's body
    ends with what the serial loop gives it. */
module ReduceTheorems {
  import opened Options
  import opened Reduce
  import RangePool
  import ScanModel
  import ScanTheorems

  lemma {:induction false} StepEffect(t: Task, st: Store, t': Task, st': Store, w: Option<BodyId>,
                                      lo: nat, hi: nat, body: BodyId, base: seq<nat>, ctx: Context)
    requires Tree(st, t, lo, hi, body, base, ctx) && Step(t, st, t', st', w)
    ensures Effect(st, t, st', t', w, lo, hi, body, base, ctx)
    decreases t
  {
    if t.Start? {
      StartEffect(st, t, st', t', w, lo, hi, body, base, ctx);
    } else if BeginStep(t, st, t', st') && w == None {
      BeginEffect(st, t, st', t', lo, hi, body, base, ctx);
    } else if JoinStep(t, st, t', st', w) {
      JoinEffect(st, t, st', t', w, lo, hi, body, base, ctx);
    } else if l', w0 :| Step(t.left, st, l', st', w0) && w == None && t' == t.(left := l', slot := Stored(t.slot, w0)) {
      StepEffect(t.left, st, l', st', w0, lo, t.mid, body, base, LeftChild);
      LeftEffect(t, st, l', st', w0, lo, hi, body, base, ctx);
    } else {
      var r', w0 :| Step(t.right, st, r', st', w0) && w == None && t' == t.(right := r', slot := Stored(t.slot, w0));
      if t.zombie.Some? {
        StepEffect(t.right, st, r', st', w0, t.mid, hi, t.zombie.value, [], RightChild);
        StolenEffect(t, st, r', st', w0, lo, hi, body, base, ctx);
      } else {
        StepEffect(t.right, st, r', st', w0, t.mid, hi, body, base + ScanModel.Positions(lo, t.mid), RightChild);
        KeysBeside(st, st', Own(t.right), Own(r'), {});
        assert Own(t) == Own(t.right) + {} && Own(t') == Own(r') + {};
      }
    }
  }

  /** A subtree that keeps its balance of created and destroyed bodies keeps that of the tree. */
  lemma KeysBeside(st: Store, st': Store, own: set<BodyId>, own': set<BodyId>, others: set<BodyId>)
    requires st'.Keys - own' == st.Keys - own
    ensures st'.Keys - (own' + others) == st.Keys - (own + others)
  {
    assert st'.Keys - (own' + others) == (st'.Keys - own') - others;
    assert st.Keys - (own + others) == (st.Keys - own) - others;
  }

  function ZombieOf(t: Task): set<BodyId>
    requires t.Finish?
  {
    if t.zombie.Some? then {t.zombie.value} else {}
  }

  /** A step below the left child leaves a right child with its own body alone. */
  lemma LeftEffect(t: Task, st: Store, l': Task, st': Store, w0: Option<BodyId>,
                   lo: nat, hi: nat, body: BodyId, base: seq<nat>, ctx: Context)
    requires t.Finish? && Tree(st, t, lo, hi, body, base, ctx) && !t.left.Done?
    requires Effect(st, t.left, st', l', w0, lo, t.mid, body, base, LeftChild)
    ensures Effect(st, t, st', t.(left := l', slot := Stored(t.slot, w0)), None, lo, hi, body, base, ctx)
  {
    KeysBeside(st, st', Own(t.left), Own(l'), Own(t.right) + ZombieOf(t));
    assert Own(t) == Own(t.left) + (Own(t.right) + ZombieOf(t));
    assert Own(t.(left := l', slot := Stored(t.slot, w0))) == Own(l') + (Own(t.right) + ZombieOf(t));
    if t.zombie.Some? {
      OwnInStore(st, t.right, t.mid, hi, t.zombie.value, [], RightChild);
      TreeFrame(st, st', t.right, t.mid, hi, t.zombie.value, [], RightChild);
    }
  }

  /** A step below a right child with its own body leaves the left child alone. */
  lemma StolenEffect(t: Task, st: Store, r': Task, st': Store, w0: Option<BodyId>,
                     lo: nat, hi: nat, body: BodyId, base: seq<nat>, ctx: Context)
    requires t.Finish? && Tree(st, t, lo, hi, body, base, ctx) && t.zombie.Some?
    requires Effect(st, t.right, st', r', w0, t.mid, hi, t.zombie.value, [], RightChild)
    ensures Effect(st, t, st', t.(right := r', slot := Stored(t.slot, w0)), None, lo, hi, body, base, ctx)
  {
    KeysBeside(st, st', Own(t.right), Own(r'), Own(t.left) + ZombieOf(t));
    assert Own(t) == Own(t.right) + (Own(t.left) + ZombieOf(t));
    assert Own(t.(right := r', slot := Stored(t.slot, w0))) == Own(r') + (Own(t.left) + ZombieOf(t));
    OwnInStore(st, t.left, lo, t.mid, body, base, LeftChild);
    TreeFrame(st, st', t.left, lo, t.mid, body, base, LeftChild);
  }

  /** What the range pool lets a task do with its range are steps of the task: each action in turn runs
      or offers a piece, and leaves what the task goes on with. */
  lemma ActionIsStep(actions: seq<RangePool.Action>, a: RangePool.Action, first: nat, last: nat,
                     t: Task, st: Store, lo: nat, hi: nat)
    requires t.Start? && t.begun && t.body in st && lo <= hi
    requires RangePool.Follows(actions, first, last, t.lo, t.hi)
    requires RangePool.Follows(actions + [a], first, last, lo, hi)
    ensures a.Ran? ==> t.lo < lo && RunStep(t, st, t.(lo := lo), st[t.body := st[t.body] + ScanModel.Positions(t.lo, lo)])
                       && hi == t.hi
    ensures a.Offered? ==> OfferStep(t, st, Finish(t.ctx, hi, None, None, t.(hi := hi, ctx := LeftChild),
                                                   Start(false, hi, t.hi, t.body, RightChild)), st) && lo == t.lo
  {
    assert (actions + [a])[..|actions|] == actions;
    match a
    case Ran(from, to, _, _, _) => RangePool.FollowsUnique(actions, first, last, t.lo, t.hi, from, hi);
    case Offered(from, to, _, _) => RangePool.FollowsUnique(actions, first, last, t.lo, t.hi, lo, to);
  }

  // ---------------------------------------------------------------- runs

  ghost predicate IsRun(n: nat, user: seq<nat>, states: seq<State>) {
    states != [] && Init(states[0], n, user)
    && forall i :: 0 <= i < |states| - 1 ==> Next(states[i], states[i + 1])
  }

  ghost predicate Inv(s: State, n: nat, user: seq<nat>) {
    Tree(s.st, s.task, 0, n, 0, user, Root) && s.st.Keys == {0} + Own(s.task)
  }

  lemma {:induction false} RunInvariant(n: nat, user: seq<nat>, states: seq<State>, i: nat)
    requires IsRun(n, user, states) && i < |states|
    ensures Inv(states[i], n, user)
    decreases i
  {
    if i == 0 {
      assert user + ScanModel.Positions(0, 0) == user;
    } else {
      RunInvariant(n, user, states, i - 1);
      NextKeeps(states[i - 1], states[i], n, user);
    }
  }

  lemma NextKeeps(s: State, s': State, n: nat, user: seq<nat>)
    requires Inv(s, n, user) && Next(s, s')
    ensures Inv(s', n, user)
  {
    var w :| Step(s.task, s.st, s'.task, s'.st, w);
    StepEffect(s.task, s.st, s'.task, s'.st, w, 0, n, 0, user, Root);
    OwnInStore(s'.st, s'.task, 0, n, 0, user, Root);
    assert s.st.Keys - Own(s.task) == {0};
  }

  /** When all tasks have returned, the user's body has accumulated the whole range in order, and every
      body that was split off has been destroyed. */
  lemma ReduceIsSerial(n: nat, user: seq<nat>, states: seq<State>)
    requires IsRun(n, user, states) && states[|states| - 1].task == Done
    ensures states[|states| - 1].st == map[0 := user + ScanModel.Positions(0, n)]
  {
    RunInvariant(n, user, states, |states| - 1);
  }

  /** For every associative join with an identity the user's body ends with the serial loop's value. */
  lemma Total<V(!new)>(m: ScanTheorems.Monoid<V>, n: nat, user: seq<nat>, states: seq<State>)
    requires ScanTheorems.ValidMonoid(m) && IsRun(n, user, states) && states[|states| - 1].task == Done
    ensures 0 in states[|states| - 1].st
    ensures ScanTheorems.Value(m, states[|states| - 1].st[0]) == m.op(ScanTheorems.Value(m, user), ScanTheorems.Serial(m, n))
  {
    ReduceIsSerial(n, user, states);
    ScanTheorems.ValueJoins(m, user, ScanModel.Positions(0, n));
    ScanTheorems.SerialValue(m, n);
  }

  // ---------------------------------------------------------------- bodies are not shared

  /** How many tasks are between the beginning and the end of execute with body x. */
  function Users(t: Task, x: BodyId): nat {
    match t
    case Done => 0
    case Start(begun, _, _, b, _) => if begun && b == x then 1 else 0
    case Finish(_, _, _, _, left, right) => Users(left, x) + Users(right, x)
  }

  lemma {:induction false} UsersInTree(st: Store, t: Task, lo: nat, hi: nat, body: BodyId, base: seq<nat>, ctx: Context, x: BodyId)
    requires Tree(st, t, lo, hi, body, base, ctx)
    ensures Users(t, x) <= 1 && (Users(t, x) > 0 ==> x == body || x in Own(t))
    decreases t
  {
    if t.Finish? {
      if t.zombie.Some? {
        UsersInTree(st, t.left, lo, t.mid, body, base, LeftChild, x);
        UsersInTree(st, t.right, t.mid, hi, t.zombie.value, [], RightChild, x);
      } else if t.right == Start(false, t.mid, hi, body, RightChild) {
        UsersInTree(st, t.left, lo, t.mid, body, base, LeftChild, x);
      } else {
        UsersInTree(st, t.right, t.mid, hi, body, base + ScanModel.Positions(lo, t.mid), RightChild, x);
      }
    }
  }

  /** No body is ever used by two tasks at once. */
  lemma OneUser(n: nat, user: seq<nat>, states: seq<State>, i: nat, x: BodyId)
    requires IsRun(n, user, states) && i < |states|
    ensures Users(states[i].task, x) <= 1
  {
    RunInvariant(n, user, states, i);
    UsersInTree(states[i].st, states[i].task, 0, n, 0, user, Root, x);
  }

  /** A finish_reduce has got a body just if its left child's subtree is finished; so a right child
      that begins splits the body exactly if it is not. */
  ghost predicate SlotsTell(t: Task) {
    t.Finish? ==> (t.slot.Some? <==> t.left.Done?) && SlotsTell(t.left) && SlotsTell(t.right)
  }

  lemma {:induction false} TreeSlots(st: Store, t: Task, lo: nat, hi: nat, body: BodyId, base: seq<nat>, ctx: Context)
    requires Tree(st, t, lo, hi, body, base, ctx)
    ensures SlotsTell(t)
    decreases t
  {
    if t.Finish? {
      if t.zombie.Some? {
        TreeSlots(st, t.left, lo, t.mid, body, base, LeftChild);
        TreeSlots(st, t.right, t.mid, hi, t.zombie.value, [], RightChild);
      } else if t.right == Start(false, t.mid, hi, body, RightChild) {
        TreeSlots(st, t.left, lo, t.mid, body, base, LeftChild);
      } else {
        TreeSlots(st, t.right, t.mid, hi, body, base + ScanModel.Positions(lo, t.mid), RightChild);
      }
    }
  }

  lemma SplitsExactly(n: nat, user: seq<nat>, states: seq<State>, i: nat)
    requires IsRun(n, user, states) && i < |states|
    ensures SlotsTell(states[i].task)
  {
    RunInvariant(n, user, states, i);
    TreeSlots(states[i].st, states[i].task, 0, n, 0, user, Root);
  }

  // ---------------------------------------------------------------- progress

  /** A bound for the steps a tree still takes. */
  function Work(t: Task): int {
    match t
    case Done => 0
    case Start(begun, lo, hi, _, _) => if lo >= hi then 1 else 6 * (hi - lo) - if begun then 4 else 3
    case Finish(_, _, _, _, left, right) => Work(left) + Work(right) + 1
  }

  lemma {:induction false} WorkPositive(t: Task)
    ensures Work(t) >= 0
    decreases t
  {
    if t.Finish? {
      WorkPositive(t.left);
      WorkPositive(t.right);
    }
  }

  lemma {:induction false} StepWorks(t: Task, st: Store, t': Task, st': Store, w: Option<BodyId>,
                                     lo: nat, hi: nat, body: BodyId, base: seq<nat>, ctx: Context)
    requires Tree(st, t, lo, hi, body, base, ctx) && Step(t, st, t', st', w)
    ensures Work(t') < Work(t)
    decreases t
  {
    if t.Finish? {
      if BeginStep(t, st, t', st') && w == None {
        assert t.right == Start(false, t.mid, hi, body, RightChild);
      } else if JoinStep(t, st, t', st', w) {
      } else if l', w0 :| Step(t.left, st, l', st', w0) && w == None && t' == t.(left := l', slot := Stored(t.slot, w0)) {
        StepWorks(t.left, st, l', st', w0, lo, t.mid, body, base, LeftChild);
      } else {
        var r', w0 :| Step(t.right, st, r', st', w0) && w == None && t' == t.(right := r', slot := Stored(t.slot, w0));
        if t.zombie.Some? {
          StepWorks(t.right, st, r', st', w0, t.mid, hi, t.zombie.value, [], RightChild);
        } else {
          StepWorks(t.right, st, r', st', w0, t.mid, hi, body, base + ScanModel.Positions(lo, t.mid), RightChild);
        }
      }
    }
  }

  /** Termination: every run is bounded, however finely the tasks cut their ranges. */
  lemma {:induction false} RunsAreShort(n: nat, user: seq<nat>, states: seq<State>, i: nat)
    requires IsRun(n, user, states) && i < |states|
    ensures i + Work(states[i].task) <= 6 * n
    decreases i
  {
    if i > 0 {
      RunsAreShort(n, user, states, i - 1);
      RunInvariant(n, user, states, i - 1);
      var s, s' := states[i - 1], states[i];
      var w :| Step(s.task, s.st, s'.task, s'.st, w);
      StepWorks(s.task, s.st, s'.task, s'.st, w, 0, n, 0, user, Root);
    }
  }

  lemma BoundedRuns(n: nat, user: seq<nat>, states: seq<State>)
    requires IsRun(n, user, states)
    ensures |states| <= 6 * n + 1
  {
    RunsAreShort(n, user, states, |states| - 1);
    WorkPositive(states[|states| - 1].task);
  }

  lemma {:induction false} TreeRuns(st: Store, t: Task, lo: nat, hi: nat, body: BodyId, base: seq<nat>, ctx: Context)
    returns (t': Task, st': Store, w: Option<BodyId>)
    requires Tree(st, t, lo, hi, body, base, ctx) && !t.Done?
    ensures Step(t, st, t', st', w)
    decreases t
  {
    if t.Start? {
      if t.lo == t.hi {
        t', st', w := Done, st, Told(t.ctx, t.body);
      } else {
        t', st', w := t.(lo := t.hi), st[t.body := st[t.body] + ScanModel.Positions(t.lo, t.hi)], None;
        assert RunStep(t, st, t', st');
      }
    } else if t.zombie == None && t.right == Start(false, t.mid, hi, body, RightChild) {
      t', st', w := BeginRuns(st, t, hi, body);
    } else if !t.left.Done? {
      var l', w0;
      l', st', w0 := TreeRuns(st, t.left, lo, t.mid, body, base, LeftChild);
      t', w := t.(left := l', slot := Stored(t.slot, w0)), None;
    } else if !t.right.Done? {
      var r', w0;
      if t.zombie.Some? {
        r', st', w0 := TreeRuns(st, t.right, t.mid, hi, t.zombie.value, [], RightChild);
      } else {
        r', st', w0 := TreeRuns(st, t.right, t.mid, hi, body, base + ScanModel.Positions(lo, t.mid), RightChild);
      }
      t', w := t.(right := r', slot := Stored(t.slot, w0)), None;
    } else {
      t', w := Done, Told(t.ctx, body);
      st' := if t.zombie.Some? then st[body := st[body] + st[t.zombie.value]] - {t.zombie.value} else st;
    }
  }

  lemma BeginRuns(st: Store, t: Task, hi: nat, body: BodyId) returns (t': Task, st': Store, w: Option<BodyId>)
    requires t.Finish? && t.right == Start(false, t.mid, hi, body, RightChild)
    ensures Step(t, st, t', st', w)
  {
    w := None;
    if t.slot == None {
      var z := ScanTheorems.FreshId(st);
      t', st' := t.(zombie := Some(z), right := t.right.(begun := true, body := z)), st[z := []];
    } else {
      t', st' := t.(right := t.right.(begun := true)), st;
    }
    assert BeginStep(t, st, t', st');
  }

  /** No deadlock: until all tasks have returned, one of them can take a step. */
  lemma NeverStuck(n: nat, user: seq<nat>, states: seq<State>) returns (s': State)
    requires IsRun(n, user, states) && states[|states| - 1].task != Done
    ensures Next(states[|states| - 1], s')
  {
    var s := states[|states| - 1];
    RunInvariant(n, user, states, |states| - 1);
    var t', st', w := TreeRuns(s.st, s.task, 0, n, 0, user, Root);
    s' := State(t', st');
  }
}
