/** limiter_node.  Its counters change under a lock, each time in one step; between these steps a thread puts an
    item to the successors, or reserves one from the predecessors.  What the neighbours do is arbitrary. */
module Limiter {
  import opened Options

  datatype Pc =
    | Idle
    | PutTry                      // try_put_task: about to put its item to the successors
    | PutWon | PutLost            // about to close the attempt
    | Check                       // forward_task: about to look at the conditions
    | Pop                         // try_reserve: about to take a predecessor from the cache
    | Ask                         // about to ask that predecessor for an item
    | Hold                        // has reserved an item: about to put it to the successors
    | Won | Lost(reserved: bool)  // about to close the attempt

  /** `preds` and `succs` are the sizes of the caches, `holder` the thread that has reserved_src set, `tasks` the number of
      forward_task_bypass tasks that are yet to run.  The rest is history: items that successors have accepted,
      decrement messages, and those of them that found the counter at 0. */
  datatype State = State(count: nat, tries: nat, preds: nat, succs: nat, holder: Option<nat>, tasks: nat, threads: seq<Pc>,
                         accepted: nat, decrements: nat, ignored: nat)

  predicate CheckConditions(s: State, threshold: nat) { s.count + s.tries < threshold && s.preds > 0 && s.succs > 0 }

  function Goto(s: State, t: nat, pc: Pc): State
    requires t < |s.threads|
  {
    s.(threads := s.threads[t := pc])
  }

  /** Under the lock at the end of an attempt: another forward task if there is something for it to do. */
  function Respawn(s: State, threshold: nat): State {
    if CheckConditions(s, threshold) then s.(tasks := s.tasks + 1) else s
  }

  ghost predicate At(s: State, t: nat, pc: Pc) { t < |s.threads| && s.threads[t] == pc }

  // ---------------------------------------------------------------- steps

  ghost predicate PutStarts(s: State, s': State, t: nat, threshold: nat) {
    At(s, t, Idle) && s' == if s.count + s.tries >= threshold then s else Goto(s, t, PutTry).(tries := s.tries + 1)
  }

  /** Successors that reject the item may leave the cache. */
  ghost predicate PutAnswered(s: State, s': State, t: nat, accepted: bool, succs: nat) {
    At(s, t, PutTry) && succs <= s.succs
    && s' == if accepted then Goto(s, t, PutWon).(accepted := s.accepted + 1, succs := succs)
             else Goto(s, t, PutLost).(succs := succs)
  }

  ghost predicate PutEnds(s: State, s': State, t: nat, threshold: nat) {
    t < |s.threads| && s.tries > 0
    && if s.threads[t] == PutWon then s' == Goto(s, t, Idle).(count := s.count + 1, tries := s.tries - 1)
       else s.threads[t] == PutLost && s' == Respawn(Goto(s, t, Idle).(tries := s.tries - 1), threshold)
  }

  /** decrement_counter, which goes on to forward_task */
  ghost predicate Decrement(s: State, s': State, t: nat) {
    At(s, t, Idle)
    && s' == if s.count > 0 then Goto(s, t, Check).(count := s.count - 1, decrements := s.decrements + 1)
             else Goto(s, t, Check).(decrements := s.decrements + 1, ignored := s.ignored + 1)
  }

  ghost predicate TaskRuns(s: State, s': State, t: nat) {
    At(s, t, Idle) && s.tasks > 0 && s' == Goto(s, t, Check).(tasks := s.tasks - 1)
  }

  ghost predicate ForwardStarts(s: State, s': State, t: nat, threshold: nat) {
    At(s, t, Check)
    && s' == if CheckConditions(s, threshold) then Goto(s, t, Pop).(tries := s.tries + 1) else Goto(s, t, Idle)
  }

  ghost predicate ForwardPops(s: State, s': State, t: nat) {
    At(s, t, Pop)
    && s' == if s.holder != None || s.preds == 0 then Goto(s, t, Lost(false))
             else Goto(s, t, Ask).(preds := s.preds - 1, holder := Some(t))
  }

  /** A predecessor without an item is given back; one with an item stays in the cache. */
  ghost predicate ForwardAsks(s: State, s': State, t: nat, granted: bool) {
    At(s, t, Ask)
    && s' == if granted then Goto(s, t, Hold).(preds := s.preds + 1) else Goto(s, t, Pop).(holder := None)
  }

  ghost predicate ForwardPuts(s: State, s': State, t: nat, accepted: bool, succs: nat) {
    At(s, t, Hold) && succs <= s.succs
    && s' == if accepted then Goto(s, t, Won).(accepted := s.accepted + 1, succs := succs)
             else Goto(s, t, Lost(true)).(succs := succs)
  }

  ghost predicate ForwardEnds(s: State, s': State, t: nat, threshold: nat) {
    t < |s.threads| && s.tries > 0
    && if s.threads[t] == Won then
         s' == Respawn(Goto(s, t, Idle).(count := s.count + 1, tries := s.tries - 1, holder := None), threshold)
       else
         s.threads[t].Lost?
         && s' == Respawn(Goto(s, t, Idle).(tries := s.tries - 1, holder := if s.threads[t].reserved then None else s.holder),
                          threshold)
  }

  /** register_predecessor, register_successor, and their opposites. */
  ghost predicate Registers(s: State, s': State, threshold: nat) {
    || s' == Respawn(s.(preds := s.preds + 1), threshold)
    || s' == (if s.succs == 0 then Respawn(s.(succs := 1), threshold) else s.(succs := s.succs + 1))
    || (s.preds > 0 && s' == s.(preds := s.preds - 1))
    || (s.succs > 0 && s' == s.(succs := s.succs - 1))
  }

  datatype Step =
    | PutStart | PutAnswer(accepted: bool, succs: nat) | PutEnd | Dec | RunTask | FwdStart | FwdPop | FwdAsk(granted: bool)
    | FwdPut(accepted: bool, succs: nat) | FwdEnd | Register

  ghost predicate Next(s: State, s': State, threshold: nat, t: nat, e: Step) {
    match e
    case PutStart => PutStarts(s, s', t, threshold)
    case PutAnswer(accepted, succs) => PutAnswered(s, s', t, accepted, succs)
    case PutEnd => PutEnds(s, s', t, threshold)
    case Dec => Decrement(s, s', t)
    case RunTask => TaskRuns(s, s', t)
    case FwdStart => ForwardStarts(s, s', t, threshold)
    case FwdPop => ForwardPops(s, s', t)
    case FwdAsk(granted) => ForwardAsks(s, s', t, granted)
    case FwdPut(accepted, succs) => ForwardPuts(s, s', t, accepted, succs)
    case FwdEnd => ForwardEnds(s, s', t, threshold)
    case Register => Registers(s, s', threshold)
  }

  ghost predicate Init(s: State) {
    s == State(0, 0, 0, 0, None, 0, s.threads, 0, 0, 0) && forall t :: 0 <= t < |s.threads| ==> s.threads[t] == Idle
  }

  ghost predicate IsRun(states: seq<State>, steps: seq<(nat, Step)>, threshold: nat) {
    |states| == |steps| + 1 && Init(states[0])
    && forall i :: 0 <= i < |steps| ==> Next(states[i], states[i + 1], threshold, steps[i].0, steps[i].1)
  }

  // ---------------------------------------------------------------- the invariant

  /** A thread's attempt is open. */
  predicate Open(pc: Pc) { !pc.Idle? && !pc.Check? }

  /** It has put its item to the successors, but not counted it. */
  predicate Uncounted(pc: Pc) { pc == PutWon || pc == Won }

  predicate Reserving(pc: Pc) { pc == Ask || pc == Hold || pc == Won || pc == Lost(true) }

  /** It is going to look at the conditions once more. */
  predicate WillCheck(pc: Pc) { !pc.Idle? && !pc.PutTry? && !pc.PutWon? && !pc.PutLost? }

  function Opens(threads: seq<Pc>): nat {
    if threads == [] then 0 else Opens(threads[..|threads| - 1]) + (if Open(threads[|threads| - 1]) then 1 else 0)
  }

  function Uncounteds(threads: seq<Pc>): nat {
    if threads == [] then 0 else Uncounteds(threads[..|threads| - 1]) + (if Uncounted(threads[|threads| - 1]) then 1 else 0)
  }

  lemma {:induction false} CountsChange(threads: seq<Pc>, t: nat, pc: Pc)
    requires t < |threads|
    ensures Opens(threads[t := pc]) + (if Open(threads[t]) then 1 else 0) == Opens(threads) + (if Open(pc) then 1 else 0)
    ensures Uncounteds(threads[t := pc]) + (if Uncounted(threads[t]) then 1 else 0)
            == Uncounteds(threads) + (if Uncounted(pc) then 1 else 0)
    decreases |threads|
  {
    var n := |threads| - 1;
    if t < n {
      CountsChange(threads[..n], t, pc);
      assert threads[t := pc][..n] == threads[..n][t := pc];
    } else {
      assert threads[t := pc][..n] == threads[..n];
    }
  }

  lemma {:induction false} IdleCounts(threads: seq<Pc>)
    requires forall t :: 0 <= t < |threads| ==> threads[t] == Idle
    ensures Opens(threads) == 0 && Uncounteds(threads) == 0
  {
    if threads != [] { IdleCounts(threads[..|threads| - 1]); }
  }

  lemma {:induction false} UncountedIsOpen(threads: seq<Pc>)
    ensures Uncounteds(threads) <= Opens(threads)
  {
    if threads != [] { UncountedIsOpen(threads[..|threads| - 1]); }
  }

  ghost predicate Inv(s: State, threshold: nat) {
    && s.tries == Opens(s.threads) && s.count + s.tries <= threshold
    && s.accepted + s.ignored == s.count + Uncounteds(s.threads) + s.decrements
    && (forall t :: 0 <= t < |s.threads| && Reserving(s.threads[t]) ==> s.holder == Some(t))
    && (s.holder.Some? ==> s.holder.value < |s.threads| && Reserving(s.threads[s.holder.value]))
    && (CheckConditions(s, threshold) ==> s.tasks > 0 || SomeoneChecks(s.threads))
  }

  ghost predicate SomeoneChecks(threads: seq<Pc>) { exists t :: 0 <= t < |threads| && WillCheck(threads[t]) }

  /** What a step of one thread does to the counts. */
  lemma ThreadSteps(s: State, s': State, t: nat, pc: Pc)
    requires t < |s.threads| && s'.threads == s.threads[t := pc]
    ensures Opens(s'.threads) + (if Open(s.threads[t]) then 1 else 0) == Opens(s.threads) + (if Open(pc) then 1 else 0)
    ensures Uncounteds(s'.threads) + (if Uncounted(s.threads[t]) then 1 else 0)
            == Uncounteds(s.threads) + (if Uncounted(pc) then 1 else 0)
    ensures WillCheck(pc) || (!WillCheck(s.threads[t]) && SomeoneChecks(s.threads)) ==> SomeoneChecks(s'.threads)
  {
    CountsChange(s.threads, t, pc);
    assert s'.threads[t] == pc;
    if !WillCheck(s.threads[t]) && SomeoneChecks(s.threads) {
      var u :| 0 <= u < |s.threads| && WillCheck(s.threads[u]);
      assert s'.threads[u] == s.threads[u];
    }
  }

  lemma PutKeeps(s: State, s': State, threshold: nat, t: nat, e: Step)
    requires Inv(s, threshold) && Next(s, s', threshold, t, e) && (e.PutStart? || e.PutAnswer? || e.PutEnd?)
    ensures Inv(s', threshold)
  {
    hide Opens, Uncounteds, SomeoneChecks;
    if s' != s { ThreadSteps(s, s', t, s'.threads[t]); }
  }

  lemma StartKeeps(s: State, s': State, threshold: nat, t: nat, e: Step)
    requires Inv(s, threshold) && Next(s, s', threshold, t, e) && (e.Dec? || e.RunTask? || e.FwdStart?)
    ensures Inv(s', threshold)
  {
    hide Opens, Uncounteds, SomeoneChecks;
    ThreadSteps(s, s', t, s'.threads[t]);
  }

  lemma ForwardKeeps(s: State, s': State, threshold: nat, t: nat, e: Step)
    requires Inv(s, threshold) && Next(s, s', threshold, t, e) && (e.FwdPop? || e.FwdAsk? || e.FwdPut?)
    ensures Inv(s', threshold)
  {
    hide Opens, Uncounteds, SomeoneChecks;
    ThreadSteps(s, s', t, s'.threads[t]);
  }

  lemma ForwardEndKeeps(s: State, s': State, threshold: nat, t: nat)
    requires Inv(s, threshold) && ForwardEnds(s, s', t, threshold)
    ensures Inv(s', threshold)
  {
    hide Opens, Uncounteds, SomeoneChecks;
    ThreadSteps(s, s', t, s'.threads[t]);
  }

  lemma NextKeeps(s: State, s': State, threshold: nat, t: nat, e: Step)
    requires Inv(s, threshold) && Next(s, s', threshold, t, e)
    ensures Inv(s', threshold)
  {
    hide Opens, Uncounteds, SomeoneChecks;
    if e.Register? {
    } else if e.FwdEnd? {
      ForwardEndKeeps(s, s', threshold, t);
    } else {
      hide Inv, Next;
      if e.PutStart? || e.PutAnswer? || e.PutEnd? { PutKeeps(s, s', threshold, t, e); }
      else if e.Dec? || e.RunTask? || e.FwdStart? { StartKeeps(s, s', threshold, t, e); }
      else { ForwardKeeps(s, s', threshold, t, e); }
    }
  }

  lemma {:induction false} RunInvariant(states: seq<State>, steps: seq<(nat, Step)>, threshold: nat, n: nat)
    requires IsRun(states, steps, threshold) && n <= |steps|
    ensures Inv(states[n], threshold)
    decreases n
  {
    hide Next;
    if n == 0 {
      IdleCounts(states[0].threads);
    } else {
      hide Inv;
      RunInvariant(states, steps, threshold, n - 1);
      NextKeeps(states[n - 1], states[n], threshold, steps[n - 1].0, steps[n - 1].1);
    }
  }

  ghost predicate Reachable(s: State, threshold: nat) {
    exists states, steps :: IsRun(states, steps, threshold) && states[|steps|] == s
  }

  lemma ReachableInv(s: State, threshold: nat)
    requires Reachable(s, threshold)
    ensures Inv(s, threshold)
  {
    hide Inv, Next;
    var states, steps :| IsRun(states, steps, threshold) && states[|steps|] == s;
    RunInvariant(states, steps, threshold, |steps|);
  }

  // ---------------------------------------------------------------- results

  /** Never more items beyond the limiter than the threshold allows: those accepted, without those that a
      decrement message has come for, and those being put. */
  lemma NeverOverThreshold(s: State, threshold: nat)
    requires Reachable(s, threshold)
    ensures s.count + s.tries <= threshold && s.tries == Opens(s.threads)
    ensures s.accepted <= s.decrements + threshold
  {
    ReachableInv(s, threshold);
    UncountedIsOpen(s.threads);
  }

  /** Decrement messages that find the counter at 0 are lost for good: so much less of the threshold can be
      used from then on. */
  lemma IgnoredAreLost(s: State, threshold: nat)
    requires Reachable(s, threshold)
    ensures s.accepted + s.ignored + (Opens(s.threads) - Uncounteds(s.threads)) <= s.decrements + threshold
    ensures s.accepted + s.ignored == s.count + Uncounteds(s.threads) + s.decrements
  {
    ReachableInv(s, threshold);
  }

  /** The items that have been counted so far, whether or not a message has come for them since. */
  function Counted(s: State): int { s.accepted - Uncounteds(s.threads) }

  /** A message makes room for another item if and only if fewer messages have had an effect before it than
      items have been counted before it. */
  lemma RoomFor(states: seq<State>, steps: seq<(nat, Step)>, threshold: nat, i: nat)
    requires IsRun(states, steps, threshold) && i < |steps| && steps[i].1.Dec?
    ensures states[i + 1].count + states[i + 1].tries < states[i].count + states[i].tries
            <==> states[i].decrements - states[i].ignored < Counted(states[i])
    ensures states[i + 1].ignored == states[i].ignored <==> states[i].decrements - states[i].ignored < Counted(states[i])
  {
    RunInvariant(states, steps, threshold, i);
    assert Next(states[i], states[i + 1], threshold, steps[i].0, steps[i].1);
  }

  /** The message comes when there have been fewer messages before than items counted. */
  ghost predicate InTime(s: State, e: Step) { e.Dec? ==> s.decrements < Counted(s) }

  /** Along every run no message is lost if and only if each of them has come after the item was counted: the
      n-th message after the n-th count.  One early message, and some are lost ever after. */
  lemma {:induction false} NoneLostExactly(states: seq<State>, steps: seq<(nat, Step)>, threshold: nat, n: nat)
    requires IsRun(states, steps, threshold) && n <= |steps|
    ensures states[n].ignored == 0 <==> forall i :: 0 <= i < n ==> InTime(states[i], steps[i].1)
    decreases n
  {
    hide Next, Counted;
    if n > 0 {
      NoneLostExactly(states, steps, threshold, n - 1);
      if steps[n - 1].1.Dec? {
        RoomFor(states, steps, threshold, n - 1);
        IgnoredGrows(states, steps, threshold, n - 1, n);
      } else {
        OnlyMessagesIgnored(states, steps, threshold, n - 1);
      }
    }
  }

  lemma OnlyMessagesIgnored(states: seq<State>, steps: seq<(nat, Step)>, threshold: nat, i: nat)
    requires IsRun(states, steps, threshold) && i < |steps| && !steps[i].1.Dec?
    ensures states[i + 1].ignored == states[i].ignored
  {
    hide Next;
    IgnoredStays(states[i], states[i + 1], threshold, steps[i].0, steps[i].1);
  }

  /** When the conditions for forwarding hold, a task or a thread is going to look at them: no wake-up is
      lost. */
  lemma NoLostWakeup(s: State, threshold: nat)
    requires Reachable(s, threshold) && CheckConditions(s, threshold)
    ensures s.tasks > 0 || exists t :: 0 <= t < |s.threads| && WillCheck(s.threads[t])
  {
    ReachableInv(s, threshold);
    assert s.tasks > 0 || SomeoneChecks(s.threads);
  }

  /** A reservation has one holder, which gives it back or consumes it when its attempt ends. */
  lemma OneReservation(s: State, s': State, threshold: nat, t: nat, u: nat)
    requires Reachable(s, threshold) && t < |s.threads| && u < |s.threads|
    requires Reserving(s.threads[t]) && Reserving(s.threads[u])
    ensures t == u && s.holder == Some(t)
    ensures ForwardEnds(s, s', t, threshold) ==> s'.holder == None
  {
    ReachableInv(s, threshold);
  }

  // ---------------------------------------------------------------- room is used

  /** A thread's own steps, from its call to its return. */
  ghost predicate OwnSteps(states: seq<State>, steps: seq<Step>, threshold: nat, t: nat) {
    && |states| == |steps| + 1 && t < |states[0].threads|
    && states[0].threads[t] == Idle && states[|steps|].threads == states[0].threads
    && forall i :: 0 <= i < |steps| ==> Next(states[i], states[i + 1], threshold, t, steps[i])
  }

  /** A put passes its item on if and only if there is room for it when it begins and a successor takes it; then it
      has been counted when the put returns. */
  lemma PutPasses(s: State, threshold: nat, t: nat) returns (states: seq<State>, steps: seq<Step>)
    requires Reachable(s, threshold) && t < |s.threads| && s.threads[t] == Idle
    ensures s.count + s.tries < threshold ==>
              && OwnSteps(states, steps, threshold, t) && states[0] == s
              && states[|steps|] == s.(count := s.count + 1, accepted := s.accepted + 1)
    ensures s.count + s.tries >= threshold ==> forall s' :: Next(s, s', threshold, t, PutStart) ==> s' == s
  {
    var s1 := Goto(s, t, PutTry).(tries := s.tries + 1);
    var s2 := Goto(s1, t, PutWon).(accepted := s.accepted + 1);
    var s3 := s.(count := s.count + 1, accepted := s.accepted + 1);
    states, steps := [s, s1, s2, s3], [PutStart, PutAnswer(true, s.succs), PutEnd];
    assert s2.threads[t := Idle] == s.threads;
  }

  /** A put that a successor rejects leaves nothing behind but, perhaps, a task that looks again. */
  lemma RejectedPut(s: State, threshold: nat, t: nat) returns (states: seq<State>, steps: seq<Step>)
    requires Reachable(s, threshold) && t < |s.threads| && s.threads[t] == Idle && s.count + s.tries < threshold
    ensures OwnSteps(states, steps, threshold, t) && states[0] == s
    ensures states[|steps|] == s.(tasks := if s.preds > 0 && s.succs > 0 then s.tasks + 1 else s.tasks)
  {
    var s1 := Goto(s, t, PutTry).(tries := s.tries + 1);
    var s2 := Goto(s1, t, PutLost);
    var s3 := Respawn(Goto(s2, t, Idle).(tries := s.tries), threshold);
    states, steps := [s, s1, s2, s3], [PutStart, PutAnswer(false, s.succs), PutEnd];
    assert s2.threads[t := Idle] == s.threads;
  }

  /** A message lets an item of a predecessor pass: where there is one, a successor takes it, and nobody else has
      a reservation, the thread that has brought the message passes the item on, into the place that it has freed. */
  lemma MessageForwards(s: State, threshold: nat, t: nat) returns (states: seq<State>, steps: seq<Step>)
    requires Reachable(s, threshold) && t < |s.threads| && s.threads[t] == Idle
    requires s.count > 0 && s.preds > 0 && s.succs > 0 && s.holder == None
    ensures OwnSteps(states, steps, threshold, t) && states[0] == s
    ensures var last := states[|steps|];
      last.count == s.count && last.tries == s.tries && last.holder == None && last.preds == s.preds
      && last.accepted == s.accepted + 1 && last.decrements == s.decrements + 1 && last.ignored == s.ignored
  {
    hide Opens, Uncounteds, SomeoneChecks, Reachable;
    ReachableInv(s, threshold);
    var s1 := Goto(s, t, Check).(count := s.count - 1, decrements := s.decrements + 1);
    var s2 := Goto(s1, t, Pop).(tries := s.tries + 1);
    var s3 := Goto(s2, t, Ask).(preds := s.preds - 1, holder := Some(t));
    var s4 := Goto(s3, t, Hold).(preds := s.preds);
    var s5 := Goto(s4, t, Won).(accepted := s.accepted + 1);
    var s6 := Respawn(Goto(s5, t, Idle).(count := s.count, tries := s.tries, holder := None), threshold);
    states := [s, s1, s2, s3, s4, s5, s6];
    steps := [Dec, FwdStart, FwdPop, FwdAsk(true), FwdPut(true, s.succs), FwdEnd];
    assert s5.threads[t := Idle] == s.threads;
    hide Inv;
  }

  // ---------------------------------------------------------------- the lost message

  /** With as many messages lost as the threshold, and no more messages than items, nothing ever passes
      again. */
  lemma StuckForGood(states: seq<State>, steps: seq<(nat, Step)>, threshold: nat, i: nat, j: nat)
    requires IsRun(states, steps, threshold) && i <= j <= |steps| && states[i].ignored >= threshold
    requires states[j].decrements <= states[j].accepted
    ensures Opens(states[j].threads) == Uncounteds(states[j].threads) && states[j].count + states[j].tries == threshold
    ensures !CheckConditions(states[j], threshold)
    ensures forall s', t :: PutStarts(states[j], s', t, threshold) ==> s' == states[j]
  {
    RunInvariant(states, steps, threshold, j);
    IgnoredGrows(states, steps, threshold, i, j);
    UncountedIsOpen(states[j].threads);
  }

  lemma {:induction false} IgnoredGrows(states: seq<State>, steps: seq<(nat, Step)>, threshold: nat, i: nat, j: nat)
    requires IsRun(states, steps, threshold) && i <= j <= |steps|
    ensures states[i].ignored <= states[j].ignored
    decreases j
  {
    hide Next;
    if i < j {
      IgnoredGrows(states, steps, threshold, i, j - 1);
      IgnoredStays(states[j - 1], states[j], threshold, steps[j - 1].0, steps[j - 1].1);
    }
  }

  lemma IgnoredStays(s: State, s': State, threshold: nat, t: nat, e: Step)
    requires Next(s, s', threshold, t, e)
    ensures s.ignored <= s'.ignored && (!e.Dec? ==> s'.ignored == s.ignored)
  {
  }

  /** Thread 0 puts an item, and the message for it comes in thread 1 before thread 0 has counted it. */
  function Early(i: nat): State {
    var s := State(0, 0, 0, 1, None, 0, [Idle, Idle], 0, 0, 0);
    if i == 0 then s.(succs := 0)
    else if i == 1 then s
    else if i == 2 then s.(tries := 1, threads := [PutTry, Idle])
    else if i == 3 then s.(tries := 1, threads := [PutWon, Idle], accepted := 1)
    else if i == 4 then s.(tries := 1, threads := [PutWon, Check], accepted := 1, decrements := 1, ignored := 1)
    else if i == 5 then s.(tries := 1, threads := [PutWon, Idle], accepted := 1, decrements := 1, ignored := 1)
    else s.(count := 1, accepted := 1, decrements := 1, ignored := 1)
  }

  function EarlyStep(i: nat): (nat, Step) {
    if i == 0 then (0, Register) else if i == 1 then (0, PutStart) else if i == 2 then (0, PutAnswer(true, 1))
    else if i == 3 then (1, Dec) else if i == 4 then (1, FwdStart) else (0, PutEnd)
  }

  lemma EarlyNext(i: nat)
    requires i < 6
    ensures Next(Early(i), Early(i + 1), 1, EarlyStep(i).0, EarlyStep(i).1)
  {
  }

  /** The successor's message may come before the item is counted.  Then the limiter with a threshold of 1
      passes one item and no other. */
  lemma MessageBeforeCount() returns (states: seq<State>, steps: seq<(nat, Step)>)
    ensures IsRun(states, steps, 1)
    ensures var s := states[|steps|];
      s.accepted == 1 && s.decrements == 1 && s.ignored == 1 && s.count == 1
      && forall t :: 0 <= t < |s.threads| ==> s.threads[t] == Idle
  {
    states := seq(7, i requires 0 <= i => Early(i));
    steps := seq(6, i requires 0 <= i => EarlyStep(i));
    forall i | 0 <= i < 6 ensures Next(states[i], states[i + 1], 1, steps[i].0, steps[i].1) { EarlyNext(i); }
    hide Next;
  }
}
