/** Every step of the aggregator keeps its invariant. */
module AggregatorProof {
  import opened Options
  import opened Aggregator
  import opened Pigeonhole

  /** What a step does to the lists. */
  function NextLists(s: State, t: Tid, g: Lists): Lists
    requires t < |s.threads|
  {
    match s.threads[t].pc
    case Cas(res) => if s.mailbox == res then g.(stack := [t] + g.stack) else g
    case SetBusy => g.(handler := Some(t))
    case Grab => g.(stack := [], batch := g.stack)
    case Finish(_, _) => if g.batch == [] then g else g.(batch := g.batch[1..])
    case Release => g.(handler := None)
    case _ => g
  }

  /** Changing threads outside a list leaves its links alone. */
  lemma LinkedKept(threads: seq<Thread>, threads': seq<Thread>, list: seq<Tid>, from: nat)
    requires Linked(threads, list, from) && |threads'| == |threads|
    requires forall u | u in list && u < |threads| :: threads'[u].next == threads[u].next
    ensures Linked(threads', list, from)
  {
    forall i | from <= i < |list| ensures LinkAt(threads', list, i) {
      assert LinkAt(threads, list, i);
    }
  }

  lemma PendingKept(threads: seq<Thread>, threads': seq<Thread>, list: seq<Tid>, from: nat)
    requires AllPending(threads, list, from) && |threads'| == |threads|
    requires forall i | from <= i < |list| && list[i] < |threads| ::
               threads'[list[i]] == threads[list[i]].(pc := threads'[list[i]].pc)
    ensures AllPending(threads', list, from)
  {
    forall i | from <= i < |list| ensures PendingAt(threads', list[i]) {
      assert PendingAt(threads, list[i]);
    }
  }

  /** A step of a thread that is not the handler and changes neither list, mailbox nor flag. */
  lemma LocalStep(s: State, s': State, t: Tid, g: Lists)
    requires Inv(s, g) && t < |s.threads| == |s'.threads| && s' == s.(threads := s.threads[t := s'.threads[t]])
    requires ThreadOk(s', g, t) && !Handling(s.threads[t].pc) && !Handling(s'.threads[t].pc)
    requires t in g.stack || t in g.batch ==> s'.threads[t] == s.threads[t].(pc := s'.threads[t].pc)
    ensures Inv(s', g)
  {
    LinkedKept(s.threads, s'.threads, g.stack, 0);
    if g.handler.Some? {
      var h := g.handler.value;
      assert h != t by { assert ThreadOk(s, g, t); }
      HandlerKept(s.threads, s'.threads, g.batch, s.threads[h].pc);
    }
    forall u | 0 <= u < |s'.threads| ensures ThreadOk(s', g, u) {
      assert ThreadOk(s, g, u);
    }
  }

  lemma HandlerKept(threads: seq<Thread>, threads': seq<Thread>, batch: seq<Tid>, pc: Pc)
    requires HandlerOk(threads, batch, pc) && |threads'| == |threads|
    requires forall u | u in batch && u < |threads| :: threads'[u] == threads[u].(pc := threads'[u].pc)
    ensures HandlerOk(threads', batch, pc)
  {
    match pc
    case Handle(_) =>
      LinkedKept(threads, threads', batch, 0);
      PendingKept(threads, threads', batch, 0);
    case Apply(_, _) =>
      LinkedKept(threads, threads', batch, 1);
      PendingKept(threads, threads', batch, 0);
    case Finish(_, _) =>
      LinkedKept(threads, threads', batch, 1);
      PendingKept(threads, threads', batch, 1);
    case _ =>
  }

  lemma InvokeKeeps(s: State, s': State, t: Tid, g: Lists)
    requires Inv(s, g) && Invoke(s, s', t)
    ensures Inv(s', g)
  {
    assert ThreadOk(s, g, t);
    LocalStep(s, s', t, g);
  }

  lemma QuietKeeps(s: State, s': State, t: Tid, g: Lists)
    requires Inv(s, g) && Works(s, s', t)
    requires var pc := s.threads[t].pc; pc.Load? || pc.Wait? || pc.SpinBusy? || (pc.Cas? && pc.res != s.mailbox)
    ensures Inv(s', g)
  {
    assert ThreadOk(s, g, t);
    LocalStep(s, s', t, g);
  }

  /** The operation goes in front of the list it is linked to, also when the mailbox has changed and
      changed back since the thread loaded it. */
  lemma CasKeeps(s: State, s': State, t: Tid, g: Lists)
    requires Inv(s, g) && Works(s, s', t) && s.threads[t].pc == Cas(s.mailbox)
    ensures Inv(s', NextLists(s, t, g))
  {
    var g' := NextLists(s, t, g);
    assert ThreadOk(s, g, t);
    forall i | 0 <= i < |g'.stack| ensures LinkAt(s'.threads, g'.stack, i) {
      if i > 0 { assert LinkAt(s.threads, g.stack, i - 1); }
    }
    if g.handler.Some? {
      HandlerKept(s.threads, s'.threads, g.batch, s.threads[g.handler.value].pc);
    }
    forall u | 0 <= u < |s'.threads| ensures ThreadOk(s', g', u) {
      assert ThreadOk(s, g, u);
      assert Last(g'.stack, u) <==> if g.stack == [] then u == t else Last(g.stack, u);
      assert u in g'.stack <==> u == t || u in g.stack;
    }
  }

  lemma SetBusyKeeps(s: State, s': State, t: Tid, g: Lists)
    requires Inv(s, g) && Works(s, s', t) && s.threads[t].pc == SetBusy
    ensures Inv(s', NextLists(s, t, g))
  {
    assert ThreadOk(s, g, t);
    LinkedKept(s.threads, s'.threads, g.stack, 0);
    forall u | 0 <= u < |s'.threads| ensures ThreadOk(s', NextLists(s, t, g), u) {
      assert ThreadOk(s, g, u);
    }
  }

  /** The mailbox becomes the batch of the handler. */
  lemma GrabKeeps(s: State, s': State, t: Tid, g: Lists)
    requires Inv(s, g) && Works(s, s', t) && s.threads[t].pc == Grab
    ensures Inv(s', NextLists(s, t, g))
  {
    var g' := NextLists(s, t, g);
    assert ThreadOk(s, g, t);
    LinkedKept(s.threads, s'.threads, g.stack, 0);
    forall i | 0 <= i < |g.stack| ensures PendingAt(s'.threads, g.stack[i]) {
      assert LinkAt(s.threads, g.stack, i);
      assert ThreadOk(s, g, g.stack[i]);
    }
    forall u | 0 <= u < |s'.threads| ensures ThreadOk(s', g', u) {
      assert ThreadOk(s, g, u);
    }
  }

  /** The handler looks at the rest of its list. */
  lemma HandleKeeps(s: State, s': State, t: Tid, g: Lists)
    requires Inv(s, g) && Works(s, s', t) && s.threads[t].pc.Handle?
    ensures Inv(s', g)
  {
    assert ThreadOk(s, g, t);
    LinkedKept(s.threads, s'.threads, g.stack, 0);
    LinkedKept(s.threads, s'.threads, g.batch, 0);
    PendingKept(s.threads, s'.threads, g.batch, 0);
    if g.batch != [] { assert LinkAt(s.threads, g.batch, 0); }
    forall u | 0 <= u < |s'.threads| ensures ThreadOk(s', g, u) {
      assert ThreadOk(s, g, u);
    }
  }

  /** The handler runs the body of the first operation. */
  lemma ApplyKeeps(s: State, s': State, t: Tid, g: Lists)
    requires Inv(s, g) && Works(s, s', t) && s.threads[t].pc.Apply?
    ensures Inv(s', g)
  {
    var u := s.threads[t].pc.op;
    assert ThreadOk(s, g, t) && ThreadOk(s, g, u);
    assert PendingAt(s.threads, g.batch[0]);
    LinkedKept(s.threads, s'.threads, g.stack, 0);
    LinkedKept(s.threads, s'.threads, g.batch, 1);
    PendingKept(s.threads, s'.threads, g.batch, 1);
    forall w | 0 <= w < |s'.threads| ensures ThreadOk(s', g, w) {
      assert ThreadOk(s, g, w);
    }
  }

  /** The handler gives the first operation back to its owner. */
  lemma FinishKeeps(s: State, s': State, t: Tid, g: Lists)
    requires Inv(s, g) && Works(s, s', t) && s.threads[t].pc.Finish?
    ensures Inv(s', NextLists(s, t, g))
  {
    var u, g' := s.threads[t].pc.op, NextLists(s, t, g);
    assert ThreadOk(s, g, t) && ThreadOk(s, g, u);
    LinkedKept(s.threads, s'.threads, g.stack, 0);
    forall i | 0 <= i < |g'.batch|
      ensures LinkAt(s'.threads, g'.batch, i) && PendingAt(s'.threads, g'.batch[i])
    {
      assert LinkAt(s.threads, g.batch, i + 1) && PendingAt(s.threads, g.batch[i + 1]);
      assert g.batch[i + 1] != g.batch[0];
    }
    forall w | 0 <= w < |s'.threads| ensures ThreadOk(s', g', w) {
      assert ThreadOk(s, g, w);
      assert w in g.batch <==> w == u || w in g'.batch;
      assert u !in g'.batch;
      assert g'.batch != [] ==> (Last(g'.batch, w) <==> Last(g.batch, w));
    }
  }

  lemma ReleaseKeeps(s: State, s': State, t: Tid, g: Lists)
    requires Inv(s, g) && Works(s, s', t) && s.threads[t].pc == Release
    ensures Inv(s', NextLists(s, t, g))
  {
    assert ThreadOk(s, g, t);
    LinkedKept(s.threads, s'.threads, g.stack, 0);
    forall u | 0 <= u < |s'.threads| ensures ThreadOk(s', NextLists(s, t, g), u) {
      assert ThreadOk(s, g, u);
    }
  }

  /** Every step keeps the invariant. */
  lemma WorkKeeps(s: State, s': State, t: Tid, g: Lists)
    requires Inv(s, g) && Works(s, s', t)
    ensures Inv(s', NextLists(s, t, g))
  {
    hide Inv;
    match s.threads[t].pc
    case Idle =>
    case Cas(res) => if res == s.mailbox { CasKeeps(s, s', t, g); } else { QuietKeeps(s, s', t, g); }
    case SetBusy => SetBusyKeeps(s, s', t, g);
    case Grab => GrabKeeps(s, s', t, g);
    case Handle(_) => HandleKeeps(s, s', t, g);
    case Apply(_, _) => ApplyKeeps(s, s', t, g);
    case Finish(_, _) => FinishKeeps(s, s', t, g);
    case Release => ReleaseKeeps(s, s', t, g);
    case _ => QuietKeeps(s, s', t, g);
  }
}
