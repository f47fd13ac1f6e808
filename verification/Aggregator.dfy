/** The aggregator: threads put operations into a lock-free mailbox, and the thread that found it empty
    handles all of them.  Every access to shared memory is one step; steps of different threads
    interleave freely.  An operation lives in the stack frame of the call that created it, so the
    number of its thread stands for its address, and a later call of the same thread reuses it. */
module Aggregator {
  import opened Options
  import opened Pigeonhole

  type Tid = nat

  datatype Pc =
    | Idle
    | Load                                  // about to load the mailbox into `res` and my_next
    | Cas(res: Option<Tid>)                 // about to compare the mailbox with `res` and swap in its operation
    | Wait                                  // spins on the status of its operation
    | SpinBusy                              // spins until handler_busy is 0
    | SetBusy                               // about to store 1 to handler_busy
    | Grab                                  // about to take the whole list out of the mailbox
    | Handle(cur: Option<Tid>)              // about to look at the rest of the list
    | Apply(op: Tid, rest: Option<Tid>)     // about to run the body of `op`
    | Finish(op: Tid, rest: Option<Tid>)    // about to store the status of `op`
    | Release                               // about to store 0 to handler_busy

  /** `next` and `done` are the link and the status of the thread's operation; `calls` counts the calls
      it has begun, `applied` how often a body of its operations has been run. */
  datatype Thread = Thread(pc: Pc, next: Option<Tid>, done: bool, calls: nat, applied: nat)

  datatype State = State(mailbox: Option<Tid>, busy: bool, threads: seq<Thread>)

  // ---------------------------------------------------------------- steps

  function Goto(s: State, t: Tid, pc: Pc): State
    requires t < |s.threads|
  {
    s.(threads := s.threads[t := s.threads[t].(pc := pc)])
  }

  /** The step of thread t, if it is neither idle nor waiting for another thread. */
  function Step(s: State, t: Tid): Option<State>
    requires t < |s.threads|
  {
    var th := s.threads[t];
    match th.pc
    case Idle => None
    case Load => Some(s.(threads := s.threads[t := th.(pc := Cas(s.mailbox), next := s.mailbox)]))
    case Cas(res) =>
      if s.mailbox != res then Some(Goto(s, t, Load))
      else Some(Goto(s, t, if res == None then SpinBusy else Wait).(mailbox := Some(t)))
    case Wait => if th.done then Some(Goto(s, t, Idle)) else None
    case SpinBusy => if s.busy then None else Some(Goto(s, t, SetBusy))
    case SetBusy => Some(Goto(s, t, Grab).(busy := true))
    case Grab => Some(Goto(s, t, Handle(s.mailbox)).(mailbox := None))
    case Handle(None) => Some(Goto(s, t, Release))
    case Handle(Some(u)) =>
      if u < |s.threads| then Some(Goto(s, t, Apply(u, s.threads[u].next))) else None
    case Apply(u, rest) =>
      if u < |s.threads| then
        var s1 := s.(threads := s.threads[u := s.threads[u].(applied := s.threads[u].applied + 1)]);
        Some(Goto(s1, t, Finish(u, rest)))
      else None
    case Finish(u, rest) =>
      if u < |s.threads| then
        var s1 := s.(threads := s.threads[u := s.threads[u].(done := true)]);
        Some(Goto(s1, t, Handle(rest)))
      else None
    case Release => Some(Goto(s, t, Idle).(busy := false))
  }

  /** A thread calls execute with a new operation. */
  predicate Invoke(s: State, s': State, t: Tid) {
    t < |s.threads| && s.threads[t].pc == Idle
    && s' == s.(threads := s.threads[t := Thread(Load, s.threads[t].next, false, s.threads[t].calls + 1, s.threads[t].applied)])
  }

  predicate Works(s: State, s': State, t: Tid) {
    t < |s.threads| && Step(s, t) == Some(s')
  }

  predicate Next(s: State, s': State, t: Tid) {
    Invoke(s, s', t) || Works(s, s', t)
  }

  predicate Init(s: State) {
    s.mailbox == None && !s.busy
    && forall t :: 0 <= t < |s.threads| ==> s.threads[t].pc == Idle && s.threads[t].calls == s.threads[t].applied == 0
  }

  // ---------------------------------------------------------------- the invariant

  /** The operations in the mailbox, newest first; those the handler has yet to finish; the handler. */
  datatype Lists = Lists(stack: seq<Tid>, batch: seq<Tid>, handler: Option<Tid>)

  predicate Handling(pc: Pc) {
    pc.Grab? || pc.Handle? || pc.Apply? || pc.Finish? || pc.Release?
  }

  /** The thread saw an empty mailbox and has not yet taken the list. */
  predicate Leading(pc: Pc) { pc.SpinBusy? || pc.SetBusy? || pc.Grab? }

  predicate Last(list: seq<Tid>, t: Tid) { list != [] && list[|list| - 1] == t }

  function Head(list: seq<Tid>, i: nat): Option<Tid> {
    if i < |list| then Some(list[i]) else None
  }

  /** The links of the operations from position `from` on lead through the list. */
  ghost predicate Linked(threads: seq<Thread>, list: seq<Tid>, from: nat) {
    forall i :: from <= i < |list| ==> LinkAt(threads, list, i)
  }

  predicate LinkAt(threads: seq<Thread>, list: seq<Tid>, i: nat)
    requires i < |list|
  {
    list[i] < |threads| && threads[list[i]].next == Head(list, i + 1)
  }

  /** The operation has been entered and its body has not been run. */
  predicate Pending(th: Thread) { !th.done && th.calls == th.applied + 1 }

  predicate Closed(th: Thread) { th.calls == th.applied }

  ghost predicate ThreadOk(s: State, g: Lists, t: Tid)
    requires t < |s.threads|
  {
    var th := s.threads[t];
    && (Handling(th.pc) <==> g.handler == Some(t))
    && (t in g.stack ==> t !in g.batch && Pending(th))
    && (t in g.batch ==> !th.done)
    && (Leading(th.pc) <==> Last(g.stack, t))
    && match th.pc
       case Idle => t !in g.stack && t !in g.batch && Closed(th)
       case Load => t !in g.stack && t !in g.batch && Pending(th)
       case Cas(res) => t !in g.stack && t !in g.batch && Pending(th) && th.next == res
       case Wait => !Last(g.batch, t) && if th.done then Closed(th) else t in g.stack || t in g.batch
       case SpinBusy => true
       case SetBusy => !s.busy
       case Grab => g.batch == []
       case Release => t !in g.stack && g.batch == [] && th.done && Closed(th)
       case _ => t !in g.stack && if g.batch == [] then th.done && Closed(th) else Last(g.batch, t)
  }

  /** How far the handler has got with the first operation of the batch. */
  ghost predicate HandlerOk(threads: seq<Thread>, batch: seq<Tid>, pc: Pc) {
    match pc
    case Handle(cur) => cur == Head(batch, 0) && Linked(threads, batch, 0) && AllPending(threads, batch, 0)
    case Apply(op, rest) =>
      batch != [] && op == batch[0] && rest == Head(batch, 1) && Linked(threads, batch, 1) && AllPending(threads, batch, 0)
    case Finish(op, rest) =>
      && batch != [] && op == batch[0] && rest == Head(batch, 1) && Linked(threads, batch, 1)
      && AllPending(threads, batch, 1) && op < |threads| && !threads[op].done && Closed(threads[op])
    case _ => batch == []
  }

  ghost predicate AllPending(threads: seq<Thread>, list: seq<Tid>, from: nat) {
    forall i :: from <= i < |list| ==> PendingAt(threads, list[i])
  }

  predicate PendingAt(threads: seq<Thread>, t: Tid) {
    t < |threads| && Pending(threads[t])
  }

  ghost predicate Inv(s: State, g: Lists) {
    && s.mailbox == Head(g.stack, 0) && Linked(s.threads, g.stack, 0)
    && Distinct(g.stack) && Distinct(g.batch)
    && s.busy == g.handler.Some?
    && (g.handler.Some? ==> g.handler.value < |s.threads| && HandlerOk(s.threads, g.batch, s.threads[g.handler.value].pc))
    && (g.handler == None ==> g.batch == [])
    && forall t :: 0 <= t < |s.threads| ==> ThreadOk(s, g, t)
  }
}
