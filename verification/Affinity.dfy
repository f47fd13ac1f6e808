/** affinity_partitioner: which slots of the affinity array a task reserves.  The divisor of a task is the number
    of its slots, which begin at `begin`.  While a divisor is large ranges are split in proportion and slots are
    dealt out in groups of `FACTOR`; floating-point quotients may be rounded in any way. */
module Affinity {

  const FACTOR: nat := 16

  // ---------------------------------------------------------------- splitting divisors

  /** (q + factor / 2) & (0u - factor) */
  function RoundToFactor(q: nat): nat { (q + FACTOR / 2) / FACTOR * FACTOR }

  /** What the right task gets of `total`, where the quotient came out as q. */
  function RightShare(total: nat, q: nat): int {
    var r := RoundToFactor(q);
    if r == 0 then FACTOR else if r == total then total - FACTOR else r
  }

  /** Whatever the quotient, both tasks get whole groups, and at least one each; and the right one gets what it
      should up to half a group, unless that would leave one of them without. */
  lemma SharesAreGroups(total: nat, q: nat)
    requires total % FACTOR == 0 && total > FACTOR && q <= total
    ensures var r := RightShare(total, q);
      && 0 < r < total && r % FACTOR == 0 && (total - r) % FACTOR == 0
      && (-(FACTOR / 2) <= q - r < FACTOR / 2 || (r == FACTOR && q < r) || (total - r == FACTOR && q > r))
  {
  }

  class AffinityPartition {
    var divisor: nat
    var begin: nat

    /** One group of slots for each thread. */
    constructor (threads: nat)
      requires threads > 0
      ensures begin == 0 && divisor == threads * FACTOR
    {
      divisor, begin := threads * FACTOR, 0;
    }

    /** Splitting on demand. */
    constructor Split(src: AffinityPartition)
      modifies src
      ensures (Reserved(), src.Reserved()) == SplitSlots(old(src.Reserved()))
      ensures divisor + src.divisor == old(src.divisor) && divisor <= src.divisor <= divisor + 1
      ensures src.begin == old(src.begin) && begin == src.begin + src.divisor
    {
      var mine := src.divisor / 2;
      divisor := mine;
      begin := src.begin + (src.divisor - mine);
      new;
      src.divisor := src.divisor - mine;
    }

    /** Splitting in proportion. */
    constructor SplitInProportion(src: AffinityPartition, quotient: nat)
      requires src.divisor % FACTOR == 0 && src.divisor > FACTOR && quotient <= src.divisor
      modifies src
      ensures (Reserved(), src.Reserved()) == DealSlots(old(src.Reserved()), quotient)
      ensures divisor + src.divisor == old(src.divisor) && divisor % FACTOR == 0 && 0 < divisor < old(src.divisor)
      ensures src.begin == old(src.begin) && begin == src.begin + src.divisor
    {
      SharesAreGroups(src.divisor, quotient);
      var total, mine := src.divisor, RoundToFactor(quotient);
      if mine == 0 { mine := FACTOR; } else if mine == total { mine := total - FACTOR; }
      divisor := mine;
      begin := src.begin + (total - mine);
      new;
      src.divisor := total - mine;
    }

    function Reserved(): Slots
      reads this
    {
      Slots(begin, divisor)
    }
  }

  datatype Slots = Slots(begin: nat, count: nat)

  /** The right task's slots follow those that the left one keeps, and it gets half of them, or one less. */
  lemma SplitsInHalves(s: Slots)
    ensures var (right, left) := SplitSlots(s);
      && left.begin == s.begin && right.begin == left.begin + left.count && left.count + right.count == s.count
      && right.count <= left.count <= right.count + 1
  {
  }

  /** What the right and the left task have after a split on demand. */
  function SplitSlots(s: Slots): (Slots, Slots) {
    (Slots(s.begin + (s.count - s.count / 2), s.count / 2), Slots(s.begin, s.count - s.count / 2))
  }

  /** And after a split in proportion. */
  function DealSlots(s: Slots, q: nat): (Slots, Slots)
    requires s.count % FACTOR == 0 && s.count > FACTOR && q <= s.count
  {
    SharesAreGroups(s.count, q);
    var r := RightShare(s.count, q);
    (Slots(s.begin + (s.count - r), r), Slots(s.begin, s.count - r))
  }

  // ---------------------------------------------------------------- splitting ranges

  /** The size of the right part of a range of n elements in the proportion left : right, in exact
      arithmetic: n * right / (left + right) rounded to the nearest integer. */
  function RightPart(n: nat, left: nat, right: nat): int
    requires left + right > 0
  {
    (n as real * right as real / (left + right) as real + 0.5).Floor
  }

  /** Both parts have elements if and only if each one's share is large enough to be rounded to one. */
  lemma PartsNotEmpty(n: nat, left: nat, right: nat)
    requires left + right > 0
    ensures 0 < RightPart(n, left, right) < n <==> 2 * n * right >= left + right && 2 * n * left > left + right
  {
    var share := n as real * right as real / (left + right) as real;
    var total := (left + right) as real;
    assert share * total == n as real * right as real;
    assert (n as real - share) * total == n as real * left as real;
    ShareAtLeastHalf(share, total, n as real * right as real);
    ShareAtLeastHalf(n as real - share, total, n as real * left as real);
    assert (2 * n * right) as real == 2.0 * (n as real * right as real);
    assert (2 * n * left) as real == 2.0 * (n as real * left as real);
  }

  lemma ShareAtLeastHalf(share: real, total: real, product: real)
    requires total > 0.0 && share * total == product
    ensures share >= 0.5 <==> 2.0 * product >= total
    ensures share > 0.5 <==> 2.0 * product > total
  {
  }

  datatype Proportion = Proportion(left: nat, right: nat)

  /** get_split: in halves, or with `nonuniform` about one third for the right task. */
  function GetSplit(divisor: nat, nonuniform: bool): Proportion {
    var size := divisor / FACTOR;
    var right := if nonuniform then (size + 2) / 3 else size / 2;
    if right <= size then Proportion(size - right, right) else Proportion(0, right)
  }

  /** The proportions that the partitioner asks for never leave a part of a divisible range empty. */
  lemma SplitsDivisible(divisor: nat, nonuniform: bool, n: nat)
    requires divisor > FACTOR && divisor % FACTOR == 0 && n >= 2
    ensures var p := GetSplit(divisor, nonuniform);
      && p.left > 0 && p.right > 0 && p.left + p.right == divisor / FACTOR
      && (if nonuniform then p.left + p.right <= 3 * p.right <= p.left + p.right + 2 else p.right <= p.left <= p.right + 1)
      && 0 < RightPart(n, p.left, p.right) < n
  {
    var p := GetSplit(divisor, nonuniform);
    PartsNotEmpty(n, p.left, p.right);
    TimesAtLeastTwo(n, p.right);
    TimesAtLeastTwo(n, p.left);
  }

  lemma TimesAtLeastTwo(n: nat, a: nat)
    requires n >= 2
    ensures 2 * n * a >= 4 * a
  {
  }

  // ---------------------------------------------------------------- all tasks of a loop

  /** A task.  `owner` says that it was created with slots of its own.  It looks at the affinity array only if
      so, and only at its first slot: when it is created, and when it is about to run on another thread. */
  datatype Task = Task(slots: Slots, owner: bool, running: bool)

  datatype Action =
    | Run                  // begins to run; without slots it takes a divisor of 1 (check_being_stolen)
    | Deal(quotient: nat)  // splits in proportion
    | Balance              // gives its last slot up to make a balancing task (check_for_demand)
    | Offer                // splits on demand

  predicate Enabled(task: Task, a: Action) {
    match a
    case Run => !task.running
    case Deal(q) => task.running && task.slots.count > FACTOR && q <= task.slots.count && task.slots.count % FACTOR == 0
    case Balance => task.running && task.slots.count == 1
    case Offer => task.running && task.slots.count <= FACTOR
  }

  /** The task itself after an action, and the new task if there is one. */
  function After(task: Task, a: Action): seq<Task>
    requires Enabled(task, a)
  {
    match a
    case Run =>
      [task.(running := true, slots := if task.slots.count == 0 then task.slots.(count := 1) else task.slots)]
    case Deal(q) =>
      var (right, left) := DealSlots(task.slots, q);
      [task.(slots := left), Task(right, true, false)]
    case Balance => [task.(slots := task.slots.(count := 0))]
    case Offer =>
      var (right, left) := SplitSlots(task.slots);
      [task.(slots := left), Task(right, right.count > 0, false)]
  }

  ghost predicate Next(tasks: seq<Task>, tasks': seq<Task>, t: nat, a: Action) {
    t < |tasks| && Enabled(tasks[t], a) && tasks' == tasks[t := After(tasks[t], a)[0]] + After(tasks[t], a)[1..]
  }

  ghost predicate IsRun(states: seq<seq<Task>>, steps: seq<(nat, Action)>, threads: nat) {
    |states| == |steps| + 1 && states[0] == [Task(Slots(0, threads * FACTOR), true, false)]
    && forall i :: 0 <= i < |steps| ==> Next(states[i], states[i + 1], steps[i].0, steps[i].1)
  }

  /** The slots that nobody else may use: those of the divisor, and the first one even after it is given up. */
  function Width(task: Task): nat {
    if !task.owner then 0 else if task.slots.count == 0 then 1 else task.slots.count
  }

  ghost predicate Apart(a: Task, b: Task) {
    a.owner && b.owner ==>
      a.slots.begin + Width(a) <= b.slots.begin || b.slots.begin + Width(b) <= a.slots.begin
  }

  ghost predicate Sound(task: Task, size: nat) {
    && (task.owner ==> task.slots.begin + Width(task) <= size)
    && (task.slots.count > FACTOR ==> task.slots.count % FACTOR == 0)
    && (!task.running ==> (task.owner <==> task.slots.count > 0))
    && (!task.owner ==> task.slots.count <= 1)
  }

  ghost predicate Inv(tasks: seq<Task>, size: nat) {
    && (forall t :: 0 <= t < |tasks| ==> Sound(tasks[t], size))
    && (forall t, u :: 0 <= t < u < |tasks| ==> Apart(tasks[t], tasks[u]))
  }

  /** An action divides a task's slots up, so whatever was apart from them stays so. */
  lemma ActionDivides(task: Task, a: Action, size: nat)
    requires Sound(task, size) && Enabled(task, a)
    ensures var after := After(task, a);
      && 1 <= |after| <= 2
      && (forall i :: 0 <= i < |after| ==> Sound(after[i], size))
      && (|after| == 2 ==> Apart(after[0], after[1]))
      && (forall i, other :: 0 <= i < |after| && Apart(task, other) ==> Apart(after[i], other))
  {
    if a.Deal? { SharesAreGroups(task.slots.count, a.quotient); }
  }

  lemma NextKeeps(tasks: seq<Task>, tasks': seq<Task>, t: nat, a: Action, size: nat)
    requires Inv(tasks, size) && Next(tasks, tasks', t, a)
    ensures Inv(tasks', size)
  {
    ActionDivides(tasks[t], a, size);
    hide Sound, Enabled, After;
    forall u | 0 <= u < |tasks| && u != t ensures Apart(tasks[t], tasks[u]) {
      assert Apart(tasks[u], tasks[t]) || Apart(tasks[t], tasks[u]);
    }
  }

  lemma {:induction false} RunInvariant(states: seq<seq<Task>>, steps: seq<(nat, Action)>, threads: nat, n: nat)
    requires IsRun(states, steps, threads) && threads > 0 && n <= |steps|
    ensures Inv(states[n], threads * FACTOR)
    decreases n
  {
    if n > 0 {
      hide Inv, Next;
      RunInvariant(states, steps, threads, n - 1);
      NextKeeps(states[n - 1], states[n], steps[n - 1].0, steps[n - 1].1, threads * FACTOR);
    }
  }

  /** No two tasks of a loop, whenever they run, look at the same slot of the affinity array, and all slots
      looked at are within it. */
  lemma OneTaskPerSlot(states: seq<seq<Task>>, steps: seq<(nat, Action)>, threads: nat, n: nat, t: nat, u: nat)
    requires IsRun(states, steps, threads) && threads > 0 && n <= |steps| && t < |states[n]| && u < |states[n]|
    requires states[n][t].owner && states[n][u].owner
    ensures states[n][t].slots.begin < threads * FACTOR
    ensures t != u ==> states[n][t].slots.begin != states[n][u].slots.begin
  {
    RunInvariant(states, steps, threads, n);
    hide IsRun;
    assert t < u ==> Apart(states[n][t], states[n][u]);
    assert u < t ==> Apart(states[n][u], states[n][t]);
  }

  /** What a task that has not begun to run has reserved, it has for itself. */
  lemma WaitingTasksOwn(states: seq<seq<Task>>, steps: seq<(nat, Action)>, threads: nat, n: nat, t: nat)
    requires IsRun(states, steps, threads) && threads > 0 && n <= |steps| && t < |states[n]| && !states[n][t].running
    ensures states[n][t].owner <==> states[n][t].slots.count > 0
  {
    RunInvariant(states, steps, threads, n);
    hide IsRun;
    assert Sound(states[n][t], threads * FACTOR);
  }

  /** A task with more than one group has whole groups, as splitting in proportion asks for. */
  lemma DealsWholeGroups(states: seq<seq<Task>>, steps: seq<(nat, Action)>, threads: nat, n: nat, t: nat)
    requires IsRun(states, steps, threads) && threads > 0 && n <= |steps| && t < |states[n]|
    ensures states[n][t].slots.count > FACTOR ==> states[n][t].slots.count % FACTOR == 0
  {
    RunInvariant(states, steps, threads, n);
    hide IsRun;
    assert Sound(states[n][t], threads * FACTOR);
  }

  /** A running task can always be split, one way or the other; and one that begins with at most one slot can make
      a balancing task. */
  lemma RunningSplits(states: seq<seq<Task>>, steps: seq<(nat, Action)>, threads: nat, n: nat, t: nat) returns (a: Action)
    requires IsRun(states, steps, threads) && threads > 0 && n <= |steps| && t < |states[n]|
    ensures var task := states[n][t];
      && (task.running ==> Enabled(task, a) && |After(task, a)| == 2)
      && (!task.running ==> Enabled(task, Run) && After(task, Run)[0].running
                            && (task.slots.count <= 1 ==> Enabled(After(task, Run)[0], Balance)))
  {
    RunInvariant(states, steps, threads, n);
    hide IsRun;
    assert Sound(states[n][t], threads * FACTOR);
    a := if states[n][t].slots.count > FACTOR then Deal(0) else Offer;
  }

  ghost predicate GaveUp(task: Task) { task.running && task.slots.count == 0 }

  lemma GivenUpStays(tasks: seq<Task>, tasks': seq<Task>, u: nat, a: Action, t: nat)
    requires Next(tasks, tasks', u, a) && t < |tasks| && GaveUp(tasks[t])
    ensures t < |tasks'| && GaveUp(tasks'[t]) && !(u == t && a == Balance)
  {
  }

  lemma {:induction false} GivenUpFor(states: seq<seq<Task>>, steps: seq<(nat, Action)>, threads: nat, i: nat, j: nat, t: nat)
    requires IsRun(states, steps, threads) && i <= j <= |steps| && t < |states[i]| && GaveUp(states[i][t])
    ensures t < |states[j]| && GaveUp(states[j][t])
    decreases j
  {
    hide Next;
    if i < j {
      GivenUpFor(states, steps, threads, i, j - 1, t);
      GivenUpStays(states[j - 1], states[j], steps[j - 1].0, steps[j - 1].1, t);
    }
  }

  /** Each task makes at most one balancing task. */
  lemma BalancesOnce(states: seq<seq<Task>>, steps: seq<(nat, Action)>, threads: nat, i: nat, j: nat, t: nat)
    requires IsRun(states, steps, threads) && i < j < |steps| && steps[i] == (t, Balance)
    ensures steps[j] != (t, Balance)
  {
    assert Next(states[i], states[i + 1], t, Balance);
    assert GaveUp(states[i + 1][t]);
    GivenUpFor(states, steps, threads, i + 1, j, t);
    assert Next(states[j], states[j + 1], steps[j].0, steps[j].1);
    GivenUpStays(states[j], states[j + 1], steps[j].0, steps[j].1, t);
  }
}
