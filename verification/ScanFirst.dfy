/** What every task tree of parallel_scan's first pass satisfies. */
module ScanFirst {
  import opened Options
  import opened ScanModel

  // ---------------------------------------------------------------- saved sums

  /** The body that the leftmost leaf below a sum_node has used. */
  function LeftBody(s: Sum): BodyId {
    if s.left.None? then s.leftSum else LeftBody(s.left.value)
  }

  function Bodies(s: Sum): set<BodyId> {
    {s.leftSum} + (if s.left.Some? then Bodies(s.left.value) else {})
                + (if s.right.Some? then Bodies(s.right.value) else {})
  }

  /** Each saved left sum is the sum of exactly the left part, in a body of its own; a left part
      without a second pass is final just if the scan of the whole node started as final. */
  ghost predicate SumOk(sp: Splitter, st: Store, s: Sum, lo: nat, hi: nat, final: bool)
    decreases s
  {
    && s.lo == lo && s.hi == hi && sp.divisible(lo, hi)
    && s.leftSum in st && st[s.leftSum] == Positions(lo, sp.mid(lo, hi))
    && (s.left.None? ==> s.leftFinal == final)
    && (s.left.Some? ==> !s.leftFinal && s.leftSum !in Bodies(s.left.value)
                         && SumOk(sp, st, s.left.value, lo, sp.mid(lo, hi), final))
    && (s.right.Some? ==> s.leftSum !in Bodies(s.right.value)
                          && SumOk(sp, st, s.right.value, sp.mid(lo, hi), hi, false))
    && (s.left.Some? && s.right.Some? ==> Bodies(s.left.value) !! Bodies(s.right.value))
  }

  /** The positions below a sum_node that the first pass has scanned for good. */
  function FinalPart(sp: Splitter, s: Sum): set<nat> {
    if s.left.Some? then FinalPart(sp, s.left.value)
    else if s.leftFinal then Interval(s.lo, sp.mid(s.lo, s.hi)) else {}
  }

  lemma {:induction false} SumFrame(sp: Splitter, st: Store, st': Store, s: Sum, lo: nat, hi: nat, final: bool)
    requires SumOk(sp, st, s, lo, hi, final)
    requires forall x | x in Bodies(s) && x in st :: x in st' && st'[x] == st[x]
    ensures SumOk(sp, st', s, lo, hi, final)
    decreases s
  {
    if s.left.Some? { SumFrame(sp, st, st', s.left.value, lo, sp.mid(lo, hi), final); }
    if s.right.Some? { SumFrame(sp, st, st', s.right.value, sp.mid(lo, hi), hi, false); }
  }

  lemma {:induction false} BodiesInStore(sp: Splitter, st: Store, s: Sum, lo: nat, hi: nat, final: bool)
    requires SumOk(sp, st, s, lo, hi, final)
    ensures Bodies(s) <= st.Keys
    ensures LeftBody(s) in Bodies(s)
    decreases s
  {
    if s.left.Some? { BodiesInStore(sp, st, s.left.value, lo, sp.mid(lo, hi), final); }
    if s.right.Some? { BodiesInStore(sp, st, s.right.value, sp.mid(lo, hi), hi, false); }
  }

  lemma {:induction false} NothingFinal(sp: Splitter, st: Store, s: Sum, lo: nat, hi: nat)
    requires SumOk(sp, st, s, lo, hi, false)
    ensures FinalPart(sp, s) == {}
    decreases s
  {
    if s.left.Some? { NothingFinal(sp, st, s.left.value, lo, sp.mid(lo, hi)); }
  }

  // ---------------------------------------------------------------- task trees

  /** What a task has been given: its range, the body it starts with, whether it runs final scans,
      and whether its sum is wanted. */
  datatype Job = Job(lo: nat, hi: nat, body: BodyId, final: bool, total: bool)

  function LeftJob(c: Job, m: nat): Job { Job(c.lo, m, c.body, c.final, true) }
  function RightJob(c: Job, m: nat, z: BodyId): Job { Job(m, c.hi, z, false, c.total) }

  /** The whole range of the tree has been run with the tree's own body. */
  predicate Whole(t: Task) {
    t == Done(None) || (t.Join? && t.zombie.None? && t.right == Done(None) && Whole(t.left))
  }

  ghost predicate WholeOk(sp: Splitter, t: Task, c: Job)
    requires Whole(t)
    decreases t
  {
    t.Join? ==> JoinFits(sp, t, c) && t.leftSum == Some(c.body) && WholeOk(sp, t.left, LeftJob(c, t.mid))
  }

  ghost predicate JoinFits(sp: Splitter, t: Task, c: Job)
    requires t.Join?
  {
    t.lo == c.lo && t.hi == c.hi && t.final == c.final && t.total == c.total
    && sp.divisible(c.lo, c.hi) && t.mid == sp.mid(c.lo, c.hi)
  }

  /** The bodies that belong to a tree, beside the one it was given. */
  function Own(t: Task, c: Job, slot: Option<BodyId>): set<BodyId> {
    match t
    case Start(_, _, _, _, _, _) => {}
    case Done(None) => {}
    case Done(Some(s)) => Bodies(s) - {c.body} + (if c.total && slot.Some? then {slot.value} else {})
    case Join(_, m, _, _, _, leftSum, zombie, left, right) =>
      Own(left, LeftJob(c, m), leftSum)
      + (if zombie.Some? then {zombie.value} + Own(right, RightJob(c, m, zombie.value), slot) else {})
  }

  ghost predicate Tree(sp: Splitter, st: Store, t: Task, c: Job, slot: Option<BodyId>)
    decreases t
  {
    && c.lo < c.hi && c.body in st && (c.final ==> c.lo == 0)
    && if Whole(t) then
         && WholeOk(sp, t, c)
         && (c.total ==> slot == Some(c.body))
         && (c.final || c.total ==> st[c.body] == Positions(c.lo, c.hi))
       else match t
       case Start(lo, hi, body, final, total, isRight) =>
         && Job(lo, hi, body, final, total) == c && !isRight
         && st[c.body] == [] && (c.total ==> slot.None?)
       case Done(s) =>
         && SumOk(sp, st, s.value, c.lo, c.hi, c.final) && LeftBody(s.value) == c.body
         && (c.total ==> slot.Some? && slot.value !in Bodies(s.value) && slot.value in st
                         && st[slot.value] == Positions(c.lo, c.hi))
       case Join(_, m, _, _, _, leftSum, zombie, left, right) =>
         && JoinFits(sp, t, c) && c.lo < m < c.hi
         && Tree(sp, st, left, LeftJob(c, m), leftSum)
         && if zombie.None? then
              right == Start(m, c.hi, c.body, c.final, c.total, true) && (c.total ==> slot.None?)
            else
              && zombie.value != c.body && zombie.value !in Own(left, LeftJob(c, m), leftSum)
              && c.body !in Own(right, RightJob(c, m, zombie.value), slot)
              && Tree(sp, st, right, RightJob(c, m, zombie.value), slot)
              && Own(left, LeftJob(c, m), leftSum) !! Own(right, RightJob(c, m, zombie.value), slot)
  }

  /** The positions of the tree that have been scanned for good. */
  ghost function Scanned(sp: Splitter, t: Task, c: Job): set<nat>
    decreases t
  {
    if !c.final then {}
    else if Whole(t) then Interval(c.lo, c.hi)
    else match t
      case Start(_, _, _, _, _, _) => {}
      case Done(s) => FinalPart(sp, s.value)
      case Join(_, m, _, _, _, _, _, left, _) => Scanned(sp, left, LeftJob(c, m))
  }

  // ---------------------------------------------------------------- ownership

  lemma {:induction false} OwnFacts(sp: Splitter, st: Store, t: Task, c: Job, slot: Option<BodyId>)
    requires Tree(sp, st, t, c, slot)
    ensures Own(t, c, slot) <= st.Keys && c.body !in Own(t, c, slot)
    ensures c.total && slot.Some? ==>
              if Whole(t) then slot.value == c.body else slot.value in Own(t, c, slot)
    decreases t
  {
    if Whole(t) {
      WholeOwnsNothing(t, c, slot);
    } else {
      match t {
        case Start(_, _, _, _, _, _) =>
        case Done(s) => BodiesInStore(sp, st, s.value, c.lo, c.hi, c.final);
        case Join(_, m, _, _, _, leftSum, zombie, left, right) =>
          OwnFacts(sp, st, left, LeftJob(c, m), leftSum);
          if zombie.Some? { OwnFacts(sp, st, right, RightJob(c, m, zombie.value), slot); }
      }
    }
  }

  lemma {:induction false} WholeOwnsNothing(t: Task, c: Job, slot: Option<BodyId>)
    requires Whole(t)
    ensures Own(t, c, slot) == {}
    decreases t
  {
    if t.Join? { WholeOwnsNothing(t.left, LeftJob(c, t.mid), t.leftSum); }
  }

  /** A tree depends on its own bodies and the one it was given only. */
  lemma {:induction false} TreeFrame(sp: Splitter, st: Store, st': Store, t: Task, c: Job, slot: Option<BodyId>)
    requires Tree(sp, st, t, c, slot)
    requires forall x | (x == c.body || x in Own(t, c, slot)) && x in st :: x in st' && st'[x] == st[x]
    ensures Tree(sp, st', t, c, slot)
    decreases t
  {
    if !Whole(t) {
      match t {
        case Start(_, _, _, _, _, _) =>
        case Done(s) => SumFrame(sp, st, st', s.value, c.lo, c.hi, c.final);
        case Join(_, m, _, _, _, leftSum, zombie, left, right) =>
          TreeFrame(sp, st, st', left, LeftJob(c, m), leftSum);
          if zombie.Some? { TreeFrame(sp, st, st', right, RightJob(c, m, zombie.value), slot); }
      }
    }
  }

  lemma {:induction false} FinalPartInside(sp: Splitter, st: Store, s: Sum, lo: nat, hi: nat, final: bool)
    requires ValidSplitter(sp) && SumOk(sp, st, s, lo, hi, final)
    ensures FinalPart(sp, s) <= Interval(lo, hi)
    decreases s
  {
    if s.left.Some? { FinalPartInside(sp, st, s.left.value, lo, sp.mid(lo, hi), final); }
  }

  // ---------------------------------------------------------------- steps

  /** A step of a whole tree only tidies up. */
  lemma {:induction false} WholeStep(sp: Splitter, slot: Option<BodyId>, t: Task, st: Store, t': Task, st': Store,
                                     w: Option<BodyId>, e: Event, c: Job)
    requires Whole(t) && WholeOk(sp, t, c) && Step(sp, slot, t, st, t', st', w, e)
    ensures Whole(t') && WholeOk(sp, t', c) && st' == st && w == None && e == Quiet
    decreases t
  {
    if exists l', w0 :: Step(sp, t.leftSum, t.left, st, l', st', w0, e) && w == None
                        && t' == t.(left := l', leftSum := Stored(t.leftSum, w0)) {
      var l', w0 :| Step(sp, t.leftSum, t.left, st, l', st', w0, e) && w == None
                    && t' == t.(left := l', leftSum := Stored(t.leftSum, w0));
      WholeStep(sp, t.leftSum, t.left, st, l', st', w0, e, LeftJob(c, t.mid));
    } else {
      assert t.Join?;
      assert FinishStep(t, slot, st, t', st');
    }
  }

  /** What one step does outside and inside of its tree. */
  ghost predicate Effect(sp: Splitter, slot: Option<BodyId>, t: Task, st: Store, t': Task, st': Store,
                         w: Option<BodyId>, e: Event, c: Job)
  {
    && (w.Some? ==> c.total && slot.None?)
    && Tree(sp, st', t', c, Stored(slot, w))
    && Local(st, st', {c.body} + Own(t, c, slot))
    && Own(t', c, Stored(slot, w)) <= Own(t, c, slot) + (st'.Keys - st.Keys)
    && EventOk(sp, t, t', e, c)
    && (Whole(t) ==> st' == st)
  }

  /** Bodies outside `mine` are not touched. */
  ghost predicate Local(st: Store, st': Store, mine: set<BodyId>) {
    forall x | x in st && x !in mine :: x in st' && st'[x] == st[x]
  }

  /** A final scan starts from exactly the positions to its left, and covers positions that were not
      scanned before. */
  ghost predicate EventOk(sp: Splitter, t: Task, t': Task, e: Event, c: Job) {
    && (e.FinalScan? ==> c.final && c.lo <= e.lo < e.hi <= c.hi && e.acc == Positions(0, e.lo))
    && Covered(e) !! Scanned(sp, t, c)
    && Scanned(sp, t', c) == Scanned(sp, t, c) + Covered(e)
  }

  lemma PositionsJoin(a: nat, b: nat, c: nat)
    requires a <= b <= c
    ensures Positions(a, b) + Positions(b, c) == Positions(a, c)
  {
  }

  lemma StartEffect(sp: Splitter, slot: Option<BodyId>, t: Task, st: Store, t': Task, st': Store,
                    w: Option<BodyId>, e: Event, c: Job)
    requires ValidSplitter(sp) && Tree(sp, st, t, c, slot) && t.Start?
    requires StartStep(sp, t, st, t', st', w, e)
    ensures Effect(sp, slot, t, st, t', st', w, e, c)
  {
    if LeafStep(t, st, t', st', w, e) {
      assert [] + Positions(c.lo, c.hi) == Positions(c.lo, c.hi);
    } else {
      assert t'.Join?;
      assert Tree(sp, st', t'.left, LeftJob(c, t'.mid), None);
    }
  }

  /** The left child takes a step; the other parts of the tree do not notice. */
  lemma LeftEffect(sp: Splitter, slot: Option<BodyId>, t: Task, st: Store, l': Task, st': Store,
                   w0: Option<BodyId>, e: Event, c: Job)
    requires ValidSplitter(sp) && Tree(sp, st, t, c, slot) && t.Join? && !Whole(t)
    requires Effect(sp, t.leftSum, t.left, st, l', st', w0, e, LeftJob(c, t.mid))
    ensures Effect(sp, slot, t, st, t.(left := l', leftSum := Stored(t.leftSum, w0)), st', None, e, c)
  {
    OwnFacts(sp, st, t, c, slot);
    OwnFacts(sp, st, t.left, LeftJob(c, t.mid), t.leftSum);
    LeftTree(sp, slot, t, st, l', st', w0, e, c);
  }

  lemma LeftTree(sp: Splitter, slot: Option<BodyId>, t: Task, st: Store, l': Task, st': Store,
                 w0: Option<BodyId>, e: Event, c: Job)
    requires ValidSplitter(sp) && Tree(sp, st, t, c, slot) && t.Join? && !Whole(t)
    requires Effect(sp, t.leftSum, t.left, st, l', st', w0, e, LeftJob(c, t.mid))
    ensures Tree(sp, st', t.(left := l', leftSum := Stored(t.leftSum, w0)), c, slot)
  {
    var lc := LeftJob(c, t.mid);
    OwnFacts(sp, st, t, c, slot);
    OwnFacts(sp, st, t.left, lc, t.leftSum);
    if t.zombie.Some? {
      var rc := RightJob(c, t.mid, t.zombie.value);
      OwnFacts(sp, st, t.right, rc, slot);
      TreeFrame(sp, st, st', t.right, rc, slot);
    }
    hide EventOk;
  }

  /** A right child that is done with its own body takes a step. */
  lemma RightEffect(sp: Splitter, slot: Option<BodyId>, t: Task, st: Store, r': Task, st': Store,
                    w: Option<BodyId>, e: Event, c: Job)
    requires ValidSplitter(sp) && Tree(sp, st, t, c, slot) && t.Join? && !Whole(t) && t.zombie.Some?
    requires Effect(sp, slot, t.right, st, r', st', w, e, RightJob(c, t.mid, t.zombie.value))
    ensures Effect(sp, slot, t, st, t.(right := r'), st', w, e, c)
  {
    var lc, rc := LeftJob(c, t.mid), RightJob(c, t.mid, t.zombie.value);
    OwnFacts(sp, st, t.left, lc, t.leftSum);
    OwnFacts(sp, st, t.right, rc, slot);
    TreeFrame(sp, st, st', t.left, lc, t.leftSum);
    assert Tree(sp, st', t.(right := r'), c, Stored(slot, w));
  }

  lemma StolenEffect(sp: Splitter, slot: Option<BodyId>, t: Task, st: Store, t': Task, st': Store,
                     w: Option<BodyId>, e: Event, c: Job)
    requires ValidSplitter(sp) && Tree(sp, st, t, c, slot) && StolenStep(sp, t, st, t', st', w, e)
    ensures Effect(sp, slot, t, st, t', st', w, e, c)
  {
    var z, r' :| z !in st
      && StartStep(sp, t.right.(body := z, final := false, isRight := false), st[z := []], r', st', w, e)
      && t' == t.(zombie := Some(z), right := r');
    var lc, rc := LeftJob(c, t.mid), RightJob(c, t.mid, z);
    var s0 := t.right.(body := z, final := false, isRight := false);
    StolenStart(sp, slot, t, st, c, z);
    StartEffect(sp, slot, s0, st[z := []], r', st', w, e, rc);
    hide Tree, StartStep, Effect, StolenStep, Own;
    StolenRest(sp, slot, t, st, r', st', w, e, c, z, s0);
  }

  lemma StolenRest(sp: Splitter, slot: Option<BodyId>, t: Task, st: Store, r': Task, st': Store,
                   w: Option<BodyId>, e: Event, c: Job, z: BodyId, s0: Task)
    requires Tree(sp, st, t, c, slot) && t.Join? && !Whole(t) && t.zombie.None? && z !in st
    requires s0 == t.right.(body := z, final := false, isRight := false) && t.right.Start?
    requires Own(s0, RightJob(c, t.mid, z), slot) == {}
    requires Effect(sp, slot, s0, st[z := []], r', st', w, e, RightJob(c, t.mid, z))
    ensures Effect(sp, slot, t, st, t.(zombie := Some(z), right := r'), st', w, e, c)
  {
    StolenTree(sp, slot, t, st, r', st', w, e, c, z, s0);
  }

  lemma StolenStart(sp: Splitter, slot: Option<BodyId>, t: Task, st: Store, c: Job, z: BodyId)
    requires Tree(sp, st, t, c, slot) && t.Join? && !Whole(t) && t.zombie.None? && z !in st
    ensures t.right.Start? && (c.total ==> slot.None?)
    ensures var s0 := t.right.(body := z, final := false, isRight := false);
      Tree(sp, st[z := []], s0, RightJob(c, t.mid, z), slot) && Own(s0, RightJob(c, t.mid, z), slot) == {}
  {
  }

  /** The stolen child has a body of its own, which the rest of the tree does not know. */
  lemma StolenTree(sp: Splitter, slot: Option<BodyId>, t: Task, st: Store, r': Task, st': Store,
                   w: Option<BodyId>, e: Event, c: Job, z: BodyId, s0: Task)
    requires Tree(sp, st, t, c, slot) && t.Join? && !Whole(t) && t.zombie.None? && z !in st && s0.Start?
    requires Effect(sp, slot, s0, st[z := []], r', st', w, e, RightJob(c, t.mid, z))
    ensures Tree(sp, st', t.(zombie := Some(z), right := r'), c, Stored(slot, w))
  {
    var lc, rc := LeftJob(c, t.mid), RightJob(c, t.mid, z);
    OwnFacts(sp, st, t.left, lc, t.leftSum);
    OwnFacts(sp, st', r', rc, Stored(slot, w));
    TreeFrame(sp, st, st', t.left, lc, t.leftSum);
    hide EventOk;
  }

  lemma SharedEffect(sp: Splitter, slot: Option<BodyId>, t: Task, st: Store, t': Task, st': Store,
                     w: Option<BodyId>, e: Event, c: Job)
    requires ValidSplitter(sp) && Tree(sp, st, t, c, slot) && SharedStep(t, st, t', st', w, e)
    ensures Effect(sp, slot, t, st, t', st', w, e, c)
  {
    var lc := LeftJob(c, t.mid);
    OwnFacts(sp, st, t.left, lc, t.leftSum);
    assert Whole(t.left);
    WholeOwnsNothing(t.left, lc, t.leftSum);
    PositionsJoin(c.lo, t.mid, c.hi);
    assert Whole(t') && WholeOk(sp, t', c);
    assert Tree(sp, st', t', c, Stored(slot, w));
  }

  /** The children are done: their results become one sum_node, and the sums are joined. */
  lemma FinishEffect(sp: Splitter, slot: Option<BodyId>, t: Task, st: Store, t': Task, st': Store, c: Job)
    requires ValidSplitter(sp) && Tree(sp, st, t, c, slot) && !Whole(t) && FinishStep(t, slot, st, t', st')
    ensures Effect(sp, slot, t, st, t', st', None, Quiet, c)
  {
    FinishOwn(sp, slot, t, st, t', st', c);
    FinishTree(sp, slot, t, st, t', st', c);
    OwnFacts(sp, st, t, c, slot);
    OwnFacts(sp, st, t.left, LeftJob(c, t.mid), t.leftSum);
    if t.zombie.Some? { OwnFacts(sp, st, t.right, RightJob(c, t.mid, t.zombie.value), slot); }
  }

  lemma FinishOwn(sp: Splitter, slot: Option<BodyId>, t: Task, st: Store, t': Task, st': Store, c: Job)
    requires ValidSplitter(sp) && Tree(sp, st, t, c, slot) && !Whole(t) && FinishStep(t, slot, st, t', st')
    ensures Own(t', c, slot) <= Own(t, c, slot)
  {
    OwnFacts(sp, st, t.left, LeftJob(c, t.mid), t.leftSum);
    if t.zombie.Some? { OwnFacts(sp, st, t.right, RightJob(c, t.mid, t.zombie.value), slot); }
    FinishLeft(sp, slot, t, st, t', st', c);
    FinishRight(sp, slot, t, st, t', st', c);
    hide SumOk;
  }

  lemma FinishTree(sp: Splitter, slot: Option<BodyId>, t: Task, st: Store, t': Task, st': Store, c: Job)
    requires ValidSplitter(sp) && Tree(sp, st, t, c, slot) && !Whole(t) && FinishStep(t, slot, st, t', st')
    ensures Tree(sp, st', t', c, slot)
  {
    OwnFacts(sp, st, t.left, LeftJob(c, t.mid), t.leftSum);
    if t.zombie.Some? { OwnFacts(sp, st, t.right, RightJob(c, t.mid, t.zombie.value), slot); }
    PositionsJoin(c.lo, t.mid, c.hi);
    FinishSum(sp, slot, t, st, t', st', c);
    FinishLeft(sp, slot, t, st, t', st', c);
    FinishRight(sp, slot, t, st, t', st', c);
  }

  lemma FinishLeft(sp: Splitter, slot: Option<BodyId>, t: Task, st: Store, t': Task, st': Store, c: Job)
    requires ValidSplitter(sp) && Tree(sp, st, t, c, slot) && !Whole(t) && FinishStep(t, slot, st, t', st')
    ensures var s := NodeOf(t).left;
      s.Some? ==> SumOk(sp, st', s.value, c.lo, t.mid, c.final)
                  && Bodies(s.value) <= {c.body} + Own(t.left, LeftJob(c, t.mid), t.leftSum)
  {
    var lc, s := LeftJob(c, t.mid), NodeOf(t);
    OwnFacts(sp, st, t.left, lc, t.leftSum);
    if t.zombie.Some? { OwnFacts(sp, st, t.right, RightJob(c, t.mid, t.zombie.value), slot); }
    if s.left.Some? {
      assert Bodies(s.left.value) <= {c.body} + Own(t.left, lc, t.leftSum);
      SumFrame(sp, st, st', s.left.value, c.lo, t.mid, c.final);
    }
  }

  lemma FinishRight(sp: Splitter, slot: Option<BodyId>, t: Task, st: Store, t': Task, st': Store, c: Job)
    requires ValidSplitter(sp) && Tree(sp, st, t, c, slot) && !Whole(t) && FinishStep(t, slot, st, t', st')
    ensures var s := NodeOf(t).right;
      s.Some? ==> t.zombie.Some? && SumOk(sp, st', s.value, t.mid, c.hi, false)
                  && Bodies(s.value) <= {t.zombie.value} + Own(t.right, RightJob(c, t.mid, t.zombie.value), slot)
  {
    var s := NodeOf(t);
    if s.right.Some? {
      var rc := RightJob(c, t.mid, t.zombie.value);
      OwnFacts(sp, st, t.right, rc, slot);
      assert Bodies(s.right.value) <= {t.zombie.value} + Own(t.right, rc, slot);
      SumFrame(sp, st, st', s.right.value, t.mid, c.hi, false);
    }
  }

  lemma FinishSum(sp: Splitter, slot: Option<BodyId>, t: Task, st: Store, t': Task, st': Store, c: Job)
    requires ValidSplitter(sp) && Tree(sp, st, t, c, slot) && !Whole(t) && FinishStep(t, slot, st, t', st')
    ensures SumOk(sp, st', NodeOf(t), c.lo, c.hi, c.final)
  {
    OwnFacts(sp, st, t.left, LeftJob(c, t.mid), t.leftSum);
    assert t.leftSum.value == c.body || t.leftSum.value in Own(t.left, LeftJob(c, t.mid), t.leftSum);
    if t.zombie.Some? { OwnFacts(sp, st, t.right, RightJob(c, t.mid, t.zombie.value), slot); }
    FinishLeft(sp, slot, t, st, t', st', c);
    FinishRight(sp, slot, t, st, t', st', c);
  }

  lemma WholeEffect(sp: Splitter, slot: Option<BodyId>, t: Task, st: Store, t': Task, st': Store,
                    w: Option<BodyId>, e: Event, c: Job)
    requires Tree(sp, st, t, c, slot) && Step(sp, slot, t, st, t', st', w, e) && Whole(t)
    ensures Effect(sp, slot, t, st, t', st', w, e, c)
  {
    WholeStep(sp, slot, t, st, t', st', w, e, c);
    WholeOwnsNothing(t', c, slot);
  }

  lemma LeftPart(sp: Splitter, slot: Option<BodyId>, t: Task, st: Store, c: Job)
    requires Tree(sp, st, t, c, slot) && t.Join? && !Whole(t)
    ensures Tree(sp, st, t.left, LeftJob(c, t.mid), t.leftSum)
  {
  }

  /** A right child that takes steps of its own has a body of its own. */
  lemma RightPart(sp: Splitter, slot: Option<BodyId>, t: Task, st: Store, r': Task, st': Store,
                  w: Option<BodyId>, e: Event, c: Job)
    requires Tree(sp, st, t, c, slot) && t.Join? && !Whole(t) && Step(sp, slot, t.right, st, r', st', w, e)
    ensures t.zombie.Some? && Tree(sp, st, t.right, RightJob(c, t.mid, t.zombie.value), slot)
  {
  }

  lemma {:induction false} StepEffect(sp: Splitter, slot: Option<BodyId>, t: Task, st: Store, t': Task, st': Store,
                                      w: Option<BodyId>, e: Event, c: Job)
    requires ValidSplitter(sp) && Tree(sp, st, t, c, slot) && Step(sp, slot, t, st, t', st', w, e)
    ensures Effect(sp, slot, t, st, t', st', w, e, c)
    decreases t
  {
    hide Effect, Tree, Own, StolenStep, SharedStep, FinishStep, StartStep;
    if Whole(t) {
      WholeEffect(sp, slot, t, st, t', st', w, e, c);
    } else if t.Start? {
      StartEffect(sp, slot, t, st, t', st', w, e, c);
    } else if StolenStep(sp, t, st, t', st', w, e) {
      StolenEffect(sp, slot, t, st, t', st', w, e, c);
    } else if SharedStep(t, st, t', st', w, e) {
      SharedEffect(sp, slot, t, st, t', st', w, e, c);
    } else if FinishStep(t, slot, st, t', st') && w == None && e == Quiet {
      FinishEffect(sp, slot, t, st, t', st', c);
    } else if r' :| Step(sp, slot, t.right, st, r', st', w, e) && t' == t.(right := r') {
      RightPart(sp, slot, t, st, r', st', w, e, c);
      StepEffect(sp, slot, t.right, st, r', st', w, e, RightJob(c, t.mid, t.zombie.value));
      RightEffect(sp, slot, t, st, r', st', w, e, c);
    } else {
      var l', w0 :| Step(sp, t.leftSum, t.left, st, l', st', w0, e)
                    && w == None && t' == t.(left := l', leftSum := Stored(t.leftSum, w0));
      LeftPart(sp, slot, t, st, c);
      StepEffect(sp, t.leftSum, t.left, st, l', st', w0, e, LeftJob(c, t.mid));
      LeftEffect(sp, slot, t, st, l', st', w0, e, c);
    }
  }
}
