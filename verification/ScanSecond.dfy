/** What every task tree of parallel_scan's second pass satisfies. */
module ScanSecond {
  import opened Options
  import opened ScanModel
  import opened ScanFirst

  /** The bodies a tree of the second pass will read or write. */
  function Bodies2(t: Task2): set<BodyId> {
    match t
    case End => {}
    case Leaf(_, _, body, _) => {body}
    case Pend(s, body, incoming, _) => Bodies(s) + (if incoming.Some? then {body} else {})
    case Both(_, left, right) => Bodies2(left) + Bodies2(right)
  }

  /** A leaf's body, and a sum_node's incoming body, hold exactly the positions to the left; without
      an incoming body the node starts at position 0. */
  ghost predicate Tree2(sp: Splitter, st: Store, t: Task2, lo: nat, hi: nat, last: bool)
    decreases t
  {
    match t
    case End => true
    case Leaf(l, h, f, isLast) =>
      l == lo < hi == h && isLast == last && f in st && st[f] == Positions(0, lo)
    case Pend(s, f, incoming, isLast) =>
      && lo < hi && isLast == last && SumOk(sp, st, s, lo, hi, incoming.None?)
      && (incoming.None? ==> lo == 0)
      && (incoming.Some? ==> incoming.value == f && f in st && st[f] == Positions(0, lo) && f !in Bodies(s))
    case Both(m, left, right) =>
      && lo < m < hi && Tree2(sp, st, left, lo, m, false) && Tree2(sp, st, right, m, hi, last)
      && Bodies2(left) !! Bodies2(right)
  }

  /** The positions that are still to be scanned. */
  function Todo(sp: Splitter, t: Task2, lo: nat, hi: nat): set<nat> {
    match t
    case End => {}
    case Leaf(_, _, _, _) => Interval(lo, hi)
    case Pend(s, _, incoming, _) => Interval(lo, hi) - (if incoming.None? then FinalPart(sp, s) else {})
    case Both(m, left, right) => Todo(sp, left, lo, m) + Todo(sp, right, m, hi)
  }

  /** The rightmost leaf has run. */
  predicate LastDone(t: Task2) {
    t.End? || (t.Both? && LastDone(t.right))
  }

  ghost predicate Effect2(sp: Splitter, t: Task2, st: Store, user: seq<nat>, t': Task2, st': Store,
                          user': seq<nat>, e: Event, lo: nat, hi: nat, last: bool)
  {
    && Tree2(sp, st', t', lo, hi, last)
    && Bodies2(t') <= Bodies2(t) && Local(st, st', Bodies2(t))
    && (e.FinalScan? ==> lo <= e.lo < e.hi <= hi && e.acc == Positions(0, e.lo))
    && Covered(e) <= Todo(sp, t, lo, hi)
    && Todo(sp, t', lo, hi) == Todo(sp, t, lo, hi) - Covered(e)
    && (LastDone(t) ==> LastDone(t') && user' == user)
    && (!last || !LastDone(t') ==> user' == user)
    && (last && LastDone(t') && !LastDone(t) ==> user' == Positions(0, hi))
  }

  lemma {:induction false} Tree2Frame(sp: Splitter, st: Store, st': Store, t: Task2, lo: nat, hi: nat, last: bool)
    requires Tree2(sp, st, t, lo, hi, last)
    requires forall x | x in Bodies2(t) && x in st :: x in st' && st'[x] == st[x]
    ensures Tree2(sp, st', t, lo, hi, last)
    decreases t
  {
    match t {
      case End =>
      case Leaf(_, _, f, _) => assert f in Bodies2(t);
      case Pend(s, f, incoming, _) => SumFrame(sp, st, st', s, lo, hi, incoming.None?);
      case Both(m, left, right) =>
        Tree2Frame(sp, st, st', left, lo, m, false);
        Tree2Frame(sp, st, st', right, m, hi, last);
    }
  }

  lemma {:induction false} Todo2Inside(sp: Splitter, st: Store, t: Task2, lo: nat, hi: nat, last: bool)
    requires Tree2(sp, st, t, lo, hi, last)
    ensures Todo(sp, t, lo, hi) <= Interval(lo, hi)
    decreases t
  {
    if t.Both? {
      Todo2Inside(sp, st, t.left, lo, t.mid, false);
      Todo2Inside(sp, st, t.right, t.mid, hi, last);
    }
  }

  // ---------------------------------------------------------------- a sum_node executes

  lemma LeftChildOk(sp: Splitter, st: Store, t: Task2, lo: nat, hi: nat, last: bool)
    requires ValidSplitter(sp) && Tree2(sp, st, t, lo, hi, last) && t.Pend?
    ensures t.sum.leftSum in st && (t.incoming.Some? ==> t.incoming.value in st)
    ensures var left, st' := PendChildren(sp, t).left, PendStore(st, t);
            Tree2(sp, st', left, lo, sp.mid(lo, hi), false)
            && Bodies2(left) <= Bodies2(t) - {t.sum.leftSum}
  {
    var s, m := t.sum, sp.mid(lo, hi);
    if s.left.Some? { SumFrame(sp, st, PendStore(st, t), s.left.value, lo, m, t.incoming.None?); }
  }

  lemma RightChildOk(sp: Splitter, st: Store, t: Task2, lo: nat, hi: nat, last: bool)
    requires ValidSplitter(sp) && Tree2(sp, st, t, lo, hi, last) && t.Pend?
    ensures t.sum.leftSum in st && (t.incoming.Some? ==> t.incoming.value in st)
    ensures var right, st' := PendChildren(sp, t).right, PendStore(st, t);
            Tree2(sp, st', right, sp.mid(lo, hi), hi, last) && Bodies2(right) <= Bodies2(t)
  {
    var s, m := t.sum, sp.mid(lo, hi);
    var st' := PendStore(st, t);
    PositionsJoin(0, lo, m);
    assert st'[s.leftSum] == Positions(0, m);
    if s.right.Some? { SumFrame(sp, st, st', s.right.value, m, hi, false); }
  }

  lemma ChildrenApart(sp: Splitter, st: Store, t: Task2, lo: nat, hi: nat, last: bool)
    requires Tree2(sp, st, t, lo, hi, last) && t.Pend?
    ensures Bodies2(PendChildren(sp, t).left) !! Bodies2(PendChildren(sp, t).right)
  {
  }

  lemma PendTodo(sp: Splitter, st: Store, t: Task2, lo: nat, hi: nat, last: bool)
    requires ValidSplitter(sp) && Tree2(sp, st, t, lo, hi, last) && t.Pend?
    ensures Todo(sp, PendChildren(sp, t), lo, hi) == Todo(sp, t, lo, hi)
  {
    var s, m := t.sum, sp.mid(lo, hi);
    if s.left.Some? {
      FinalPartInside(sp, st, s.left.value, lo, m, t.incoming.None?);
      if t.incoming.Some? { NothingFinal(sp, st, s.left.value, lo, m); }
    }
    assert Interval(lo, hi) == Interval(lo, m) + Interval(m, hi);
  }

  lemma PendEffect(sp: Splitter, t: Task2, st: Store, user: seq<nat>, lo: nat, hi: nat, last: bool)
    requires ValidSplitter(sp) && Tree2(sp, st, t, lo, hi, last) && t.Pend?
    ensures t.sum.leftSum in st && (t.incoming.Some? ==> t.incoming.value in st)
    ensures Effect2(sp, t, st, user, PendChildren(sp, t), PendStore(st, t), user, Quiet, lo, hi, last)
  {
    LeftChildOk(sp, st, t, lo, hi, last);
    RightChildOk(sp, st, t, lo, hi, last);
    ChildrenApart(sp, st, t, lo, hi, last);
    PendTodo(sp, st, t, lo, hi, last);
    assert t.sum.leftSum in Bodies2(t);
    assert !LastDone(PendChildren(sp, t).right);
  }

  // ---------------------------------------------------------------- any step

  lemma LeftEffect2(sp: Splitter, t: Task2, st: Store, user: seq<nat>, l': Task2, st': Store,
                    user': seq<nat>, e: Event, lo: nat, hi: nat, last: bool)
    requires Tree2(sp, st, t, lo, hi, last) && t.Both?
    requires Effect2(sp, t.left, st, user, l', st', user', e, lo, t.mid, false)
    ensures Effect2(sp, t, st, user, t.(left := l'), st', user', e, lo, hi, last)
  {
    Tree2Frame(sp, st, st', t.right, t.mid, hi, last);
    Todo2Inside(sp, st, t.left, lo, t.mid, false);
    Todo2Inside(sp, st, t.right, t.mid, hi, last);
    assert Covered(e) !! Todo(sp, t.right, t.mid, hi);
  }

  lemma RightEffect2(sp: Splitter, t: Task2, st: Store, user: seq<nat>, r': Task2, st': Store,
                     user': seq<nat>, e: Event, lo: nat, hi: nat, last: bool)
    requires Tree2(sp, st, t, lo, hi, last) && t.Both?
    requires Effect2(sp, t.right, st, user, r', st', user', e, t.mid, hi, last)
    ensures Effect2(sp, t, st, user, t.(right := r'), st', user', e, lo, hi, last)
  {
    Tree2Frame(sp, st, st', t.left, lo, t.mid, false);
    Todo2Inside(sp, st, t.left, lo, t.mid, false);
    Todo2Inside(sp, st, t.right, t.mid, hi, last);
    assert Covered(e) !! Todo(sp, t.left, lo, t.mid);
  }

  lemma {:induction false} Step2Effect(sp: Splitter, t: Task2, st: Store, user: seq<nat>, t': Task2, st': Store,
                                       user': seq<nat>, e: Event, lo: nat, hi: nat, last: bool)
    requires ValidSplitter(sp) && Tree2(sp, st, t, lo, hi, last) && Step2(sp, t, st, user, t', st', user', e)
    ensures Effect2(sp, t, st, user, t', st', user', e, lo, hi, last)
    decreases t
  {
    match t {
      case Pend(_, _, _, _) => PendEffect(sp, t, st, user, lo, hi, last);
      case Leaf(_, _, _, _) => PositionsJoin(0, lo, hi);
      case Both(m, left, right) =>
        if l' :| Step2(sp, left, st, user, l', st', user', e) && t' == t.(left := l') {
          Step2Effect(sp, left, st, user, l', st', user', e, lo, m, false);
          LeftEffect2(sp, t, st, user, l', st', user', e, lo, hi, last);
        } else {
          var r' :| Step2(sp, right, st, user, r', st', user', e) && t' == t.(right := r');
          Step2Effect(sp, right, st, user, r', st', user', e, m, hi, last);
          RightEffect2(sp, t, st, user, r', st', user', e, lo, hi, last);
        }
    }
  }
}
