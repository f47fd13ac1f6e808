/** The main results about the aggregator, over all of its runs. */
module AggregatorTheorems {
  import opened Options
  import opened Aggregator
  import opened AggregatorProof
  import opened Pigeonhole

  ghost predicate IsRun(states: seq<State>, tids: seq<Tid>) {
    |states| == |tids| + 1 && Init(states[0])
    && forall i :: 0 <= i < |tids| ==> Next(states[i], states[i + 1], tids[i])
  }

  ghost predicate Reachable(s: State) {
    exists states, tids :: IsRun(states, tids) && states[|tids|] == s
  }

  lemma {:induction false} RunInvariant(states: seq<State>, tids: seq<Tid>) returns (g: Lists)
    requires IsRun(states, tids)
    ensures Inv(states[|tids|], g)
    decreases |tids|
  {
    var n := |tids| - 1;
    if tids == [] {
      g := Lists([], [], None);
    } else {
      g := RunInvariant(states[..|tids|], tids[..n]);
      if Invoke(states[n], states[n + 1], tids[n]) {
        InvokeKeeps(states[n], states[n + 1], tids[n], g);
      } else {
        WorkKeeps(states[n], states[n + 1], tids[n], g);
        g := NextLists(states[n], tids[n], g);
      }
    }
  }

  lemma ReachableInv(s: State) returns (g: Lists)
    requires Reachable(s)
    ensures Inv(s, g)
  {
    var states, tids :| IsRun(states, tids) && states[|tids|] == s;
    g := RunInvariant(states, tids);
  }

  // ---------------------------------------------------------------- safety

  /** At most one thread is between seeing an empty mailbox and taking the list, and at most one is
      between storing 1 to handler_busy and storing 0; the flag says whether there is one.  So the
      test of the flag and the plain store that follows it cannot be separated by another handler. */
  lemma MutualExclusion(s: State, t: Tid, u: Tid)
    requires Reachable(s) && t < |s.threads| && u < |s.threads|
    ensures Leading(s.threads[t].pc) && Leading(s.threads[u].pc) ==> t == u
    ensures Handling(s.threads[t].pc) && Handling(s.threads[u].pc) ==> t == u
    ensures Handling(s.threads[t].pc) ==> s.busy && !s.threads[u].pc.SetBusy?
    ensures s.busy <==> exists w :: 0 <= w < |s.threads| && Handling(s.threads[w].pc)
  {
    var g := ReachableInv(s);
    assert ThreadOk(s, g, t) && ThreadOk(s, g, u);
    if s.busy {
      assert ThreadOk(s, g, g.handler.value);
    } else {
      forall w | 0 <= w < |s.threads| ensures !Handling(s.threads[w].pc) {
        assert ThreadOk(s, g, w);
      }
    }
  }

  predicate Touches(pc: Pc, u: Tid) {
    pc == Handle(Some(u)) || (pc.Apply? && pc.op == u) || (pc.Finish? && pc.op == u)
  }

  /** The operation the handler is about to read or write still belongs to a call that has not
      returned and cannot return: its status is still unset. */
  lemma TouchesLive(s: State, t: Tid, u: Tid)
    requires Reachable(s) && t < |s.threads| && Touches(s.threads[t].pc, u)
    ensures u < |s.threads| && !s.threads[u].done && (s.threads[u].pc == Wait || u == t)
    ensures Step(s, t).Some?
  {
    var g := ReachableInv(s);
    assert ThreadOk(s, g, t);
    if s.threads[t].pc.Handle? {
      assert LinkAt(s.threads, g.batch, 0);
    } else {
      assert PendingAt(s.threads, u) || s.threads[t].pc.Finish?;
    }
    assert ThreadOk(s, g, u);
  }

  /** Each operation is run exactly once: never before its call, at most once during it, and the call
      does not return before it has been run. */
  lemma AppliedOnce(s: State, t: Tid)
    requires Reachable(s) && t < |s.threads|
    ensures s.threads[t].applied <= s.threads[t].calls <= s.threads[t].applied + 1
    ensures s.threads[t].pc.Idle? || s.threads[t].pc.Release? ==> s.threads[t].calls == s.threads[t].applied
    ensures s.threads[t].pc.Load? || s.threads[t].pc.Cas? ==> s.threads[t].calls == s.threads[t].applied + 1
    ensures !s.threads[t].pc.Idle? && s.threads[t].done ==> s.threads[t].calls == s.threads[t].applied
  {
    var g := ReachableInv(s);
    assert ThreadOk(s, g, t);
    if t in g.batch {
      var i :| 0 <= i < |g.batch| && g.batch[i] == t;
      assert ThreadOk(s, g, g.handler.value);
      if i > 0 || !s.threads[g.handler.value].pc.Finish? { assert PendingAt(s.threads, g.batch[i]); }
    }
  }

  /** A handler returns only with the status of its own operation set, as the code asserts. */
  lemma HandlerIsDone(s: State, t: Tid)
    requires Reachable(s) && t < |s.threads| && s.threads[t].pc.Release?
    ensures s.threads[t].done
  {
    var g := ReachableInv(s);
    assert ThreadOk(s, g, t);
  }

  // ---------------------------------------------------------------- progress

  /** No deadlock: when no thread in a call can take a step, there is none, every operation has been
      run, and the aggregator is as it was at first. */
  lemma StuckMeansDone(s: State)
    requires Reachable(s)
    requires forall t :: 0 <= t < |s.threads| ==> Step(s, t) == None
    ensures s.mailbox == None && !s.busy
    ensures forall t :: 0 <= t < |s.threads| ==> s.threads[t].pc == Idle && s.threads[t].calls == s.threads[t].applied
  {
    var g := ReachableInv(s);
    if g.handler.Some? {
      HandlerSteps(s, g);
      assert false;
    }
    if g.stack != [] {
      LeaderSteps(s, g);
      assert false;
    }
    forall t | 0 <= t < |s.threads| ensures s.threads[t].pc == Idle && s.threads[t].calls == s.threads[t].applied {
      assert ThreadOk(s, g, t);
      assert Step(s, t) == None;
    }
  }

  /** With no handler at work the thread that found the mailbox empty can go on. */
  lemma LeaderSteps(s: State, g: Lists)
    requires Inv(s, g) && g.stack != [] && g.handler == None
    ensures exists t :: 0 <= t < |s.threads| && Step(s, t).Some?
  {
    var last := |g.stack| - 1;
    assert LinkAt(s.threads, g.stack, last);
    assert ThreadOk(s, g, g.stack[last]);
    assert Step(s, g.stack[last]).Some?;
  }

  /** The handler waits for nobody. */
  lemma HandlerSteps(s: State, g: Lists)
    requires Inv(s, g) && g.handler.Some?
    ensures exists t :: 0 <= t < |s.threads| && Step(s, t).Some?
  {
    var h := g.handler.value;
    assert ThreadOk(s, g, h);
    if g.batch != [] {
      assert PendingAt(s.threads, g.batch[0]) || g.batch[0] < |s.threads|;
    }
    assert Step(s, h).Some?;
  }

  /** A bound for the steps a thread still takes, if `k` is given for each time it can still change
      the mailbox. */
  function Weight(th: Thread, mailbox: Option<Tid>, batch: nat, k: nat): nat {
    match th.pc
    case Idle => 0
    case Load => 2 * k + 2
    case Cas(res) => 2 * k + if res == mailbox then 1 else 3
    case Wait => 1
    case SpinBusy => k + 3
    case SetBusy => k + 2
    case Grab => k + 1
    case Handle(_) => 3 * batch + 2
    case Apply(_, _) => 3 * batch + 1
    case Finish(_, _) => 3 * batch
    case Release => 1
  }

  function Weights(s: State, g: Lists): (ws: seq<int>)
    ensures |ws| == |s.threads|
    ensures forall i :: 0 <= i < |ws| ==> ws[i] == Weight(s.threads[i], s.mailbox, |g.batch|, 5 * |s.threads|)
  {
    seq(|s.threads|, i requires 0 <= i < |s.threads| =>
      Weight(s.threads[i], s.mailbox, |g.batch|, 5 * |s.threads|))
  }

  function Sum(ws: seq<int>): int {
    if ws == [] then 0 else Sum(ws[..|ws| - 1]) + ws[|ws| - 1]
  }

  function Rank(s: State, g: Lists): int { Sum(Weights(s, g)) }

  lemma {:induction false} SumStep(ws: seq<int>, ws': seq<int>, t: nat, d: int, e: int)
    requires |ws'| == |ws| && d >= 0
    requires forall i :: 0 <= i < |ws| && i != t ==> ws'[i] <= ws[i] + d
    requires t < |ws| ==> ws'[t] <= ws[t] + e
    ensures Sum(ws') <= Sum(ws) + if t < |ws| then d * (|ws| - 1) + e else d * |ws|
    decreases |ws|
  {
    if ws != [] {
      var n := |ws| - 1;
      SumStep(ws[..n], ws'[..n], t, d, e);
      assert d * n == d * (n - 1) + d;
    }
  }

  lemma {:induction false} SumBound(ws: seq<int>, c: nat)
    requires forall i :: 0 <= i < |ws| ==> 0 <= ws[i] <= c
    ensures 0 <= Sum(ws) <= |ws| * c
    decreases |ws|
  {
    if ws != [] {
      var n := |ws| - 1;
      SumBound(ws[..n], c);
      assert |ws| * c == n * c + c;
    }
  }

  lemma ListsAreShort(s: State, g: Lists)
    requires Inv(s, g)
    ensures |g.stack| <= |s.threads| && |g.batch| <= |s.threads|
  {
    forall i | 0 <= i < |g.stack| ensures g.stack[i] < |s.threads| { assert LinkAt(s.threads, g.stack, i); }
    DistinctBound(g.stack, |s.threads|);
    if g.handler.Some? {
      assert ThreadOk(s, g, g.handler.value);
      forall i | 0 <= i < |g.batch| ensures g.batch[i] < |s.threads| {
        if i > 0 { assert PendingAt(s.threads, g.batch[i]); }
        if i == 0 && !s.threads[g.handler.value].pc.Finish? { assert PendingAt(s.threads, g.batch[i]); }
      }
      DistinctBound(g.batch, |s.threads|);
    }
  }

  /** A thread other than the one that steps weighs as much as before, or two more if the mailbox
      has changed under its compare-and-swap. */
  lemma OthersWeigh(s: State, s': State, t: Tid, g: Lists, u: Tid)
    requires Inv(s, g) && Works(s, s', t) && u < |s.threads| && u != t
    ensures |s'.threads| == |s.threads|
    ensures Weights(s', NextLists(s, t, g))[u] <= Weights(s, g)[u] + if s'.mailbox == s.mailbox then 0 else 2
  {
    assert ThreadOk(s, g, t) && ThreadOk(s, g, u);
    assert s'.threads[u].pc == s.threads[u].pc;
  }

  /** The stepping thread pays for that. */
  lemma StepperPays(s: State, s': State, t: Tid, g: Lists)
    requires Inv(s, g) && Works(s, s', t)
    ensures |s'.threads| == |s.threads|
    ensures Weights(s', NextLists(s, t, g))[t]
            < Weights(s, g)[t] - if s'.mailbox == s.mailbox then 0 else 2 * (|s.threads| - 1)
  {
    ListsAreShort(s, g);
    assert ThreadOk(s, g, t);
    if s.threads[t].pc.Handle? && g.batch != [] { assert LinkAt(s.threads, g.batch, 0); }
  }

  lemma WorkProgresses(s: State, s': State, t: Tid, g: Lists)
    requires Inv(s, g) && Works(s, s', t)
    ensures Rank(s', NextLists(s, t, g)) < Rank(s, g)
  {
    var ws, ws' := Weights(s, g), Weights(s', NextLists(s, t, g));
    StepperPays(s, s', t, g);
    var d := if s'.mailbox == s.mailbox then 0 else 2;
    forall u | 0 <= u < |ws| && u != t ensures ws'[u] <= ws[u] + d { OthersWeigh(s, s', t, g, u); }
    SumStep(ws, ws', t, d, ws'[t] - ws[t]);
  }

  lemma {:induction false} WorkEnds(states: seq<State>, tids: seq<Tid>, g: Lists)
    requires |states| == |tids| + 1 && Inv(states[0], g)
    requires forall i :: 0 <= i < |tids| ==> Works(states[i], states[i + 1], tids[i])
    ensures |tids| <= Rank(states[0], g)
    decreases |tids|
  {
    RankBound(states[0], g);
    if tids != [] {
      WorkKeeps(states[0], states[1], tids[0], g);
      WorkProgresses(states[0], states[1], tids[0], g);
      WorkEnds(states[1..], tids[1..], NextLists(states[0], tids[0], g));
    }
  }

  lemma RankBound(s: State, g: Lists)
    requires Inv(s, g)
    ensures 0 <= Rank(s, g) <= |s.threads| * (10 * |s.threads| + 3)
  {
    ListsAreShort(s, g);
    SumBound(Weights(s, g), 10 * |s.threads| + 3);
  }

  /** Termination: whatever the state, the calls under way take a bounded number of steps together,
      failed compare-and-swaps included, however they are scheduled; waiting takes none.  With
      StuckMeansDone, all of them return unless new calls keep coming. */
  lemma CallsEnd(states: seq<State>, tids: seq<Tid>)
    requires |states| == |tids| + 1 && Reachable(states[0])
    requires forall i :: 0 <= i < |tids| ==> Works(states[i], states[i + 1], tids[i])
    ensures |tids| <= |states[0].threads| * (10 * |states[0].threads| + 3)
  {
    var g := ReachableInv(states[0]);
    WorkEnds(states, tids, g);
    RankBound(states[0], g);
  }
}
