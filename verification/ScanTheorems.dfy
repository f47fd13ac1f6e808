/** The main results about parallel_scan: for every way of splitting and every schedule. */
module ScanTheorems {
  import opened Options
  import opened ScanModel
  import opened ScanFirst
  import opened ScanSecond

  function RootJob(n: nat): Job { Job(0, n, 0, true, false) }

  ghost predicate Inv(sp: Splitter, s: State, n: nat) {
    match s.phase
    case First(t) => Tree(sp, s.st, t, RootJob(n), None) && s.scanned == Scanned(sp, t, RootJob(n))
    case Second(t) =>
      Tree2(sp, s.st, t, 0, n, true) && s.scanned == Interval(0, n) - Todo(sp, t, 0, n)
      && (LastDone(t) ==> s.user == Positions(0, n))
    case Finished => s.user == Positions(0, n) && s.scanned == Interval(0, n)
  }

  /** What a step scans for good: positions nobody has scanned, from the sum of everything before. */
  ghost predicate ScansRight(s: State, s': State, e: Event, n: nat) {
    && (e.FinalScan? ==> e.lo < e.hi <= n && e.acc == Positions(0, e.lo))
    && Covered(e) !! s.scanned && s'.scanned == s.scanned + Covered(e)
  }

  lemma EndedTodo(sp: Splitter, t: Task2, lo: nat, hi: nat)
    requires AllEnd(t)
    ensures Todo(sp, t, lo, hi) == {} && LastDone(t)
  {
  }

  lemma NextKeeps(sp: Splitter, s: State, s': State, e: Event, n: nat)
    requires ValidSplitter(sp) && Inv(sp, s, n) && Next(sp, s, s', e)
    ensures Inv(sp, s', n) && ScansRight(s, s', e, n)
  {
    match s.phase {
      case First(t) =>
        if t.Done? {
          if t.slot.Some? { FinalPartInside(sp, s.st, t.slot.value, 0, n, true); }
        } else {
          var t' :| Step(sp, None, t, s.st, t', s'.st, None, e) && s'.phase == First(t');
          StepEffect(sp, None, t, s.st, t', s'.st, None, e, RootJob(n));
        }
      case Second(t) =>
        Todo2Inside(sp, s.st, t, 0, n, true);
        if AllEnd(t) {
          EndedTodo(sp, t, 0, n);
        } else {
          var t' :| Step2(sp, t, s.st, s.user, t', s'.st, s'.user, e) && s'.phase == Second(t');
          Step2Effect(sp, t, s.st, s.user, t', s'.st, s'.user, e, 0, n, true);
        }
    }
  }

  // ---------------------------------------------------------------- runs

  ghost predicate IsRun(sp: Splitter, n: nat, states: seq<State>, events: seq<Event>) {
    && |states| == |events| + 1 && Init(states[0], n)
    && forall i :: 0 <= i < |events| ==> Next(sp, states[i], states[i + 1], events[i])
  }

  lemma {:induction false} RunInvariant(sp: Splitter, n: nat, states: seq<State>, events: seq<Event>, i: nat)
    requires ValidSplitter(sp) && IsRun(sp, n, states, events) && i < |states|
    ensures Inv(sp, states[i], n)
  {
    if i == 0 {
      assert Interval(0, 0) == {};
    } else {
      RunInvariant(sp, n, states, events, i - 1);
      NextKeeps(sp, states[i - 1], states[i], events[i - 1], n);
    }
  }

  /** One of the events scans position p for good. */
  ghost predicate CoveredBy(events: seq<Event>, p: nat) {
    exists k :: 0 <= k < |events| && p in Covered(events[k])
  }

  /** The positions scanned before step i are those covered by the events before it. */
  lemma {:induction false} ScannedByEvents(sp: Splitter, n: nat, states: seq<State>, events: seq<Event>, i: nat)
    requires ValidSplitter(sp) && IsRun(sp, n, states, events) && i < |states|
    ensures forall p :: p in states[i].scanned <==> CoveredBy(events[..i], p)
  {
    if i > 0 {
      assert events[..i] == events[..i - 1] + [events[i - 1]];
      ScannedByEvents(sp, n, states, events, i - 1);
      RunInvariant(sp, n, states, events, i - 1);
      NextKeeps(sp, states[i - 1], states[i], events[i - 1], n);
    }
  }

  /** In every run, every final scan is applied to positions within the range with an accumulator
      that is the ordered sum of everything to its left, and no position is scanned twice. */
  lemma FinalScansAreRight(sp: Splitter, n: nat, states: seq<State>, events: seq<Event>, i: nat, j: nat)
    requires ValidSplitter(sp) && IsRun(sp, n, states, events) && i < j < |events|
    ensures ScansRight(states[i], states[i + 1], events[i], n) && ScansRight(states[j], states[j + 1], events[j], n)
    ensures Covered(events[i]) !! Covered(events[j])
  {
    RunInvariant(sp, n, states, events, i);
    NextKeeps(sp, states[i], states[i + 1], events[i], n);
    RunInvariant(sp, n, states, events, j);
    NextKeeps(sp, states[j], states[j + 1], events[j], n);
    ScannedByEvents(sp, n, states, events, j);
    assert events[..j][i] == events[i];
    forall p | p in Covered(events[i]) ensures p in states[j].scanned {
      assert CoveredBy(events[..j], p);
    }
  }

  /** When a run ends, the user's body holds the whole range in order, and every position has been
      scanned for good in one step. */
  lemma RunEndsRight(sp: Splitter, n: nat, states: seq<State>, events: seq<Event>)
    requires ValidSplitter(sp) && IsRun(sp, n, states, events) && states[|events|].phase.Finished?
    ensures states[|events|].user == Positions(0, n)
    ensures forall p | p in Interval(0, n) :: CoveredBy(events, p)
  {
    RunInvariant(sp, n, states, events, |events|);
    ScannedByEvents(sp, n, states, events, |events|);
    assert events[..|events|] == events;
  }

  // ---------------------------------------------------------------- progress

  lemma FreshId(st: Store) returns (z: BodyId)
    ensures z !in st
  {
    z := Above(st.Keys);
  }

  lemma {:induction false} Above(ids: set<nat>) returns (z: nat)
    ensures forall x | x in ids :: x < z
    decreases |ids|
  {
    if ids == {} {
      z := 0;
    } else {
      var x :| x in ids;
      var z0 := Above(ids - {x});
      z := if x < z0 then z0 else x + 1;
      assert forall y | y in ids :: y == x || y in ids - {x};
    }
  }

  /** A task of the first pass that is not done can take a step somewhere. */
  lemma {:induction false} FirstRuns(sp: Splitter, slot: Option<BodyId>, t: Task, st: Store, c: Job)
    returns (t': Task, st': Store, w: Option<BodyId>, e: Event)
    requires Tree(sp, st, t, c, slot) && !t.Done?
    ensures Step(sp, slot, t, st, t', st', w, e)
    decreases t
  {
    if Whole(t) {
      t', st', w, e := WholeRuns(sp, slot, t, st, c);
    } else if t.Start? {
      t', st', w, e := Done(None), LeafStore(st, t), if c.total then Some(c.body) else None, LeafEvent(st, t);
      assert LeafStep(t, st, t', st', w, e);
    } else if !t.left.Done? {
      var l', w0;
      l', st', w0, e := FirstRuns(sp, t.leftSum, t.left, st, LeftJob(c, t.mid));
      t', w := t.(left := l', leftSum := Stored(t.leftSum, w0)), None;
    } else if t.zombie.None? {
      var z := FreshId(st);
      var s0 := t.right.(body := z, final := false, isRight := false);
      var st0 := st[z := []];
      st', w, e := LeafStore(st0, s0), if c.total then Some(z) else None, LeafEvent(st0, s0);
      t' := t.(zombie := Some(z), right := Done(None));
      assert LeafStep(s0, st0, Done(None), st', w, e);
      assert StolenStep(sp, t, st, t', st', w, e);
    } else if !t.right.Done? {
      var r';
      r', st', w, e := FirstRuns(sp, slot, t.right, st, RightJob(c, t.mid, t.zombie.value));
      t' := t.(right := r');
    } else {
      t', st', w, e := FinishRuns(sp, slot, t, st, c);
    }
  }

  lemma FinishRuns(sp: Splitter, slot: Option<BodyId>, t: Task, st: Store, c: Job)
    returns (t': Task, st': Store, w: Option<BodyId>, e: Event)
    requires Tree(sp, st, t, c, slot) && !Whole(t) && t.Join? && t.left.Done? && t.right.Done?
    ensures Step(sp, slot, t, st, t', st', w, e)
  {
    var z := t.zombie.value;
    OwnFacts(sp, st, t.left, LeftJob(c, t.mid), t.leftSum);
    OwnFacts(sp, st, t.right, RightJob(c, t.mid, z), slot);
    w, e := None, Quiet;
    t' := Done(Some(NodeOf(t)));
    st' := if t.total then st[slot.value := st[t.leftSum.value] + st[slot.value]]
           else if t.right.slot.None? then st - {z} else st;
    assert FinishStep(t, slot, st, t', st');
  }

  lemma {:induction false} WholeRuns(sp: Splitter, slot: Option<BodyId>, t: Task, st: Store, c: Job)
    returns (t': Task, st': Store, w: Option<BodyId>, e: Event)
    requires Whole(t) && WholeOk(sp, t, c) && !t.Done?
    ensures Step(sp, slot, t, st, t', st', w, e)
    decreases t
  {
    w, e := None, Quiet;
    if t.left.Done? {
      t', st' := Done(None), st;
      assert FinishStep(t, slot, st, t', st');
    } else {
      var l', w0;
      l', st', w0, e := WholeRuns(sp, t.leftSum, t.left, st, LeftJob(c, t.mid));
      t' := t.(left := l', leftSum := Stored(t.leftSum, w0));
    }
  }

  lemma {:induction false} SecondRuns(sp: Splitter, t: Task2, st: Store, user: seq<nat>, lo: nat, hi: nat, last: bool)
    returns (t': Task2, st': Store, user': seq<nat>, e: Event)
    requires Tree2(sp, st, t, lo, hi, last) && !AllEnd(t)
    ensures Step2(sp, t, st, user, t', st', user', e)
    decreases t
  {
    match t {
      case Pend(_, _, _, _) => t', st', user', e := PendChildren(sp, t), PendStore(st, t), user, Quiet;
      case Leaf(_, _, f, isLast) =>
        t', st', e := End, st - {f}, FinalScan(lo, hi, st[f]);
        user' := if isLast then st[f] + Positions(lo, hi) else user;
      case Both(m, left, right) =>
        if AllEnd(left) {
          var r';
          r', st', user', e := SecondRuns(sp, right, st, user, m, hi, last);
          t' := t.(right := r');
        } else {
          var l';
          l', st', user', e := SecondRuns(sp, left, st, user, lo, m, false);
          t' := t.(left := l');
        }
    }
  }

  /** No run gets stuck: a state that is not finished has a next one. */
  lemma NeverStuck(sp: Splitter, n: nat, states: seq<State>, events: seq<Event>) returns (s': State, e: Event)
    requires ValidSplitter(sp) && IsRun(sp, n, states, events) && !states[|events|].phase.Finished?
    ensures Next(sp, states[|events|], s', e)
  {
    var s := states[|events|];
    RunInvariant(sp, n, states, events, |events|);
    match s.phase {
      case First(t) =>
        if t.Done? {
          e := Quiet;
          s' := if t.slot.None? then s.(phase := Finished, user := s.st[0])
                else s.(phase := Second(Pend(t.slot.value, 0, None, true)));
        } else {
          var t', st', w;
          t', st', w, e := FirstRuns(sp, None, t, s.st, RootJob(n));
          StepEffect(sp, None, t, s.st, t', st', w, e, RootJob(n));
          s' := State(First(t'), st', s.user, s.scanned + Covered(e));
        }
      case Second(t) =>
        if AllEnd(t) {
          e := Quiet;
          s' := s.(phase := Finished);
        } else {
          var t', st', user';
          t', st', user', e := SecondRuns(sp, t, s.st, s.user, 0, n, true);
          s' := State(Second(t'), st', user', s.scanned + Covered(e));
        }
    }
  }

  // ---------------------------------------------------------------- bodies

  /** A step makes and destroys only bodies that its task tree owns. */
  ghost predicate OwnKept(slot: Option<BodyId>, t: Task, st: Store, t': Task, st': Store, w: Option<BodyId>, c: Job) {
    SameBeside(st, Own(t, c, slot), st', Own(t', c, Stored(slot, w)))
  }

  /** Beside the bodies a in one store, and a' in the other, the same bodies exist. */
  ghost predicate SameBeside(st: Store, a: set<BodyId>, st': Store, a': set<BodyId>) {
    forall x: BodyId :: x in st' && x !in a' <==> x in st && x !in a
  }

  lemma StartOwns(sp: Splitter, slot: Option<BodyId>, t: Task, st: Store, t': Task, st': Store,
                  w: Option<BodyId>, e: Event, c: Job)
    requires t.Start? && StartStep(sp, t, st, t', st', w, e)
    ensures (forall x :: x in st' <==> x in st) && Own(t', c, Stored(slot, w)) == Own(t, c, slot) == {}
  {
  }

  lemma StolenOwns(sp: Splitter, slot: Option<BodyId>, t: Task, st: Store, t': Task, st': Store,
                   w: Option<BodyId>, e: Event, c: Job)
    requires Tree(sp, st, t, c, slot) && !Whole(t) && StolenStep(sp, t, st, t', st', w, e)
    ensures OwnKept(slot, t, st, t', st', w, c)
  {
    var z, r' :| z !in st
      && StartStep(sp, t.right.(body := z, final := false, isRight := false), st[z := []], r', st', w, e)
      && t' == t.(zombie := Some(z), right := r');
    StartOwns(sp, slot, t.right.(body := z, final := false, isRight := false), st[z := []], r', st', w, e,
              RightJob(c, t.mid, z));
  }

  /** The sets of bodies when a Join is finished; `ol` and `ow` are what its parts own, `bl` and `br` the bodies of
      their sum_nodes. */
  lemma FinishSets(own: set<BodyId>, own': set<BodyId>, ol: set<BodyId>, ow: set<BodyId>, left: Option<set<BodyId>>,
                   right: Option<set<BodyId>>, leftSum: BodyId, body: BodyId, z: BodyId, slot: Option<BodyId>)
    requires forall x :: x in own <==> x in ol || x == z || x in ow
    requires forall x :: x in own' <==>
               || ((x == leftSum || (left.Some? && x in left.value) || (right.Some? && x in right.value)) && x != body)
               || slot == Some(x)
    requires if left.Some? then forall x :: x in ol || x == body <==> x in left.value || x == leftSum
             else ol == {} && leftSum == body
    requires if right.Some? then forall x :: x in ow || x == z <==> x in right.value || slot == Some(x)
             else ow == {} && (slot.Some? ==> slot.value == z)
    requires body !in ol && body !in ow && z != body && z !in ol
    ensures forall x :: x in own' <==> x in own && (slot.Some? || right.Some? || x != z)
  {
  }

  lemma FinishOwns(sp: Splitter, slot: Option<BodyId>, t: Task, st: Store, t': Task, st': Store, c: Job)
    requires ValidSplitter(sp) && Tree(sp, st, t, c, slot) && !Whole(t) && FinishStep(t, slot, st, t', st')
    ensures OwnKept(slot, t, st, t', st', None, c)
  {
    hide Tree, Own, Bodies, SumOk, FinishStep;
    FinishParts(sp, slot, t, st, t', st', c);
    var z := t.zombie.value;
    var lc, rc := LeftJob(c, t.mid), RightJob(c, t.mid, z);
    OwnFacts(sp, st, t, c, slot);
    OwnFacts(sp, st, t.left, lc, t.leftSum);
    OwnFacts(sp, st, t.right, rc, slot);
    PartOwns(sp, t.left, st, lc, t.leftSum);
    PartOwns(sp, t.right, st, rc, slot);
    OwnOfJoin(t, c, slot);
    OwnOfDone(t, c, slot);
    var wanted := if c.total then slot else None;
    var bl := if t.left.slot.Some? then Some(Bodies(t.left.slot.value)) else None;
    var br := if t.right.slot.Some? then Some(Bodies(t.right.slot.value)) else None;
    FinishSets(Own(t, c, slot), Own(t', c, slot), Own(t.left, lc, t.leftSum), Own(t.right, rc, slot), bl, br,
               t.leftSum.value, c.body, z, wanted);
  }

  lemma FinishParts(sp: Splitter, slot: Option<BodyId>, t: Task, st: Store, t': Task, st': Store, c: Job)
    requires Tree(sp, st, t, c, slot) && !Whole(t) && FinishStep(t, slot, st, t', st')
    ensures t.Join? && t.zombie.Some? && t.left.Done? && t.right.Done? && t.leftSum.Some? && (c.total ==> slot.Some?)
    ensures t' == Done(Some(NodeOf(t)))
    ensures var z := t.zombie.value;
      && Tree(sp, st, t.left, LeftJob(c, t.mid), t.leftSum) && Tree(sp, st, t.right, RightJob(c, t.mid, z), slot)
      && z != c.body && z !in Own(t.left, LeftJob(c, t.mid), t.leftSum) && c.body !in Own(t.right, RightJob(c, t.mid, z), slot)
      && forall x :: x in st' <==> x in st && (c.total || t.right.slot.Some? || x != z)
  {
    hide SumOk, Bodies;
  }

  lemma OwnOfJoin(t: Task, c: Job, slot: Option<BodyId>)
    requires t.Join? && t.zombie.Some?
    ensures var z := t.zombie.value;
      forall x :: x in Own(t, c, slot) <==>
        x in Own(t.left, LeftJob(c, t.mid), t.leftSum) || x == z || x in Own(t.right, RightJob(c, t.mid, z), slot)
  {
  }

  lemma OwnOfDone(t: Task, c: Job, slot: Option<BodyId>)
    requires t.Join? && t.left.Done? && t.right.Done? && t.leftSum.Some? && (c.total ==> slot.Some?)
    ensures forall x :: x in Own(Done(Some(NodeOf(t))), c, slot) <==>
      || ((|| x == t.leftSum.value || (t.left.slot.Some? && x in Bodies(t.left.slot.value))
           || (t.right.slot.Some? && x in Bodies(t.right.slot.value))) && x != c.body)
      || (c.total && slot == Some(x))
  {
  }

  /** What a finished part owns: its sum, and what its sum_node keeps. */
  lemma PartOwns(sp: Splitter, t: Task, st: Store, c: Job, slot: Option<BodyId>)
    requires Tree(sp, st, t, c, slot) && t.Done? && (c.total ==> slot.Some?)
    ensures t.slot.None? ==> Own(t, c, slot) == {} && (c.total ==> slot.value == c.body)
    ensures t.slot.Some? ==>
              forall x :: x in Own(t, c, slot) || x == c.body <==> x in Bodies(t.slot.value) || (c.total && x == slot.value)
  {
    if t.slot.Some? { BodiesInStore(sp, st, t.slot.value, c.lo, c.hi, c.final); }
  }

  lemma {:induction false} StepOwns(sp: Splitter, slot: Option<BodyId>, t: Task, st: Store, t': Task, st': Store,
                                    w: Option<BodyId>, e: Event, c: Job)
    requires ValidSplitter(sp) && Tree(sp, st, t, c, slot) && Step(sp, slot, t, st, t', st', w, e)
    ensures OwnKept(slot, t, st, t', st', w, c)
    decreases t
  {
    hide Tree, StolenStep, SharedStep, FinishStep, StartStep, Own, OwnKept;
    if Whole(t) {
      WholeTree(sp, st, t, c, slot);
      WholeStep(sp, slot, t, st, t', st', w, e, c);
      WholeKeeps(slot, t, st, t', w, c);
    } else if t.Start? {
      StartOwns(sp, slot, t, st, t', st', w, e, c);
      SameOwn(slot, t, st, t', st', w, c);
    } else if StolenStep(sp, t, st, t', st', w, e) {
      StolenOwns(sp, slot, t, st, t', st', w, e, c);
    } else if SharedStep(t, st, t', st', w, e) {
      SharedOwns(sp, slot, t, st, t', st', w, e, c);
    } else if FinishStep(t, slot, st, t', st') && w == None && e == Quiet {
      FinishOwns(sp, slot, t, st, t', st', c);
    } else if r' :| Step(sp, slot, t.right, st, r', st', w, e) && t' == t.(right := r') {
      RightPart(sp, slot, t, st, r', st', w, e, c);
      var rc := RightJob(c, t.mid, t.zombie.value);
      StepOwns(sp, slot, t.right, st, r', st', w, e, rc);
      RightOwns(slot, t, st, r', st', w, c);
    } else {
      var l', w0 :| Step(sp, t.leftSum, t.left, st, l', st', w0, e)
                    && w == None && t' == t.(left := l', leftSum := Stored(t.leftSum, w0));
      LeftPart(sp, slot, t, st, c);
      var lc := LeftJob(c, t.mid);
      StepOwns(sp, t.leftSum, t.left, st, l', st', w0, e, lc);
      LeftOwns(slot, t, st, l', st', w0, c);
    }
  }


  lemma WholeKeeps(slot: Option<BodyId>, t: Task, st: Store, t': Task, w: Option<BodyId>, c: Job)
    requires Whole(t) && Whole(t')
    ensures OwnKept(slot, t, st, t', st, w, c)
  {
    hide Own;
    WholeOwnsNothing(t, c, slot);
    WholeOwnsNothing(t', c, Stored(slot, w));
  }

  lemma SameOwn(slot: Option<BodyId>, t: Task, st: Store, t': Task, st': Store, w: Option<BodyId>, c: Job)
    requires (forall x :: x in st' <==> x in st) && Own(t', c, Stored(slot, w)) == Own(t, c, slot)
    ensures OwnKept(slot, t, st, t', st', w, c)
  {
    hide Own;
  }

  lemma RightOwns(slot: Option<BodyId>, t: Task, st: Store, r': Task, st': Store, w: Option<BodyId>, c: Job)
    requires t.Join? && t.zombie.Some? && OwnKept(slot, t.right, st, r', st', w, RightJob(c, t.mid, t.zombie.value))
    ensures OwnKept(slot, t, st, t.(right := r'), st', w, c)
  {
    OwnOfJoin(t, c, slot);
    OwnOfJoin(t.(right := r'), c, Stored(slot, w));
    hide Own;
  }

  lemma LeftOwns(slot: Option<BodyId>, t: Task, st: Store, l': Task, st': Store, w0: Option<BodyId>, c: Job)
    requires t.Join? && OwnKept(t.leftSum, t.left, st, l', st', w0, LeftJob(c, t.mid))
    ensures OwnKept(slot, t, st, t.(left := l', leftSum := Stored(t.leftSum, w0)), st', None, c)
  {
    var t' := t.(left := l', leftSum := Stored(t.leftSum, w0));
    if t.zombie.Some? {
      OwnOfJoin(t, c, slot);
      OwnOfJoin(t', c, slot);
    } else {
      OwnOfPair(t, c, slot);
      OwnOfPair(t', c, slot);
    }
    hide Own;
  }

  lemma OwnOfPair(t: Task, c: Job, slot: Option<BodyId>)
    requires t.Join? && t.zombie.None?
    ensures forall x :: x in Own(t, c, slot) <==> x in Own(t.left, LeftJob(c, t.mid), t.leftSum)
  {
  }

  lemma WholeTree(sp: Splitter, st: Store, t: Task, c: Job, slot: Option<BodyId>)
    requires Tree(sp, st, t, c, slot) && Whole(t)
    ensures WholeOk(sp, t, c)
  {
  }

  lemma SharedOwns(sp: Splitter, slot: Option<BodyId>, t: Task, st: Store, t': Task, st': Store,
                   w: Option<BodyId>, e: Event, c: Job)
    requires Tree(sp, st, t, c, slot) && !Whole(t) && SharedStep(t, st, t', st', w, e)
    ensures OwnKept(slot, t, st, t', st', w, c)
  {
  }

  /** In the second pass the bodies are those that its tasks will read or write; a task destroys its body. */
  lemma {:induction false} Step2Owns(sp: Splitter, t: Task2, st: Store, user: seq<nat>, t': Task2, st': Store,
                                     user': seq<nat>, e: Event, lo: nat, hi: nat, last: bool)
    requires ValidSplitter(sp) && Tree2(sp, st, t, lo, hi, last) && Step2(sp, t, st, user, t', st', user', e)
    ensures SameBeside(st, Bodies2(t), st', Bodies2(t'))
    decreases t
  {
    match t {
      case Pend(_, _, _, _) => PendOwns(sp, t, st, lo, hi, last);
      case Leaf(_, _, _, _) =>
      case Both(m, left, right) =>
        if l' :| Step2(sp, left, st, user, l', st', user', e) && t' == t.(left := l') {
          Step2Owns(sp, left, st, user, l', st', user', e, lo, m, false);
        } else {
          var r' :| Step2(sp, right, st, user, r', st', user', e) && t' == t.(right := r');
          Step2Owns(sp, right, st, user, r', st', user', e, m, hi, last);
        }
    }
  }

  lemma PendOwns(sp: Splitter, t: Task2, st: Store, lo: nat, hi: nat, last: bool)
    requires Tree2(sp, st, t, lo, hi, last) && t.Pend?
    ensures t.sum.leftSum in st && (t.incoming.Some? ==> t.incoming.value in st)
    ensures SameBeside(st, Bodies2(t), PendStore(st, t), Bodies2(PendChildren(sp, t)))
  {
  }

  lemma {:induction false} Bodies2InStore(sp: Splitter, st: Store, t: Task2, lo: nat, hi: nat, last: bool)
    requires Tree2(sp, st, t, lo, hi, last)
    ensures Bodies2(t) <= st.Keys
    decreases t
  {
    match t {
      case End =>
      case Leaf(_, _, _, _) =>
      case Pend(s, _, incoming, _) => BodiesInStore(sp, st, s, lo, hi, incoming.None?);
      case Both(m, left, right) =>
        Bodies2InStore(sp, st, left, lo, m, false);
        Bodies2InStore(sp, st, right, m, hi, last);
    }
  }

  lemma {:induction false} AllEndOwnsNothing(t: Task2)
    requires AllEnd(t)
    ensures Bodies2(t) == {}
    decreases t
  {
    if t.Both? {
      AllEndOwnsNothing(t.left);
      AllEndOwnsNothing(t.right);
    }
  }

  /** The bodies there are: the temporary body, and those of the tasks; after a second pass none. */
  ghost predicate Accounted(s: State, n: nat) {
    match s.phase
    case First(t) => forall x :: x in s.st <==> x in Own(t, RootJob(n), None) || x == 0
    case Second(t) => forall x :: x in s.st <==> x in Bodies2(t)
    case Finished => forall x | x in s.st :: x == 0
  }

  lemma NextAccounts(sp: Splitter, s: State, s': State, e: Event, n: nat)
    requires ValidSplitter(sp) && Inv(sp, s, n) && Accounted(s, n) && Next(sp, s, s', e)
    ensures Accounted(s', n)
  {
    match s.phase {
      case First(t) =>
        OwnFacts(sp, s.st, t, RootJob(n), None);
        if t.Done? {
          if t.slot.Some? { BodiesInStore(sp, s.st, t.slot.value, 0, n, true); }
        } else {
          var t' :| Step(sp, None, t, s.st, t', s'.st, None, e) && s'.phase == First(t');
          StepEffect(sp, None, t, s.st, t', s'.st, None, e, RootJob(n));
          StepOwns(sp, None, t, s.st, t', s'.st, None, e, RootJob(n));
          OwnFacts(sp, s'.st, t', RootJob(n), None);
        }
      case Second(t) =>
        if AllEnd(t) {
          AllEndOwnsNothing(t);
        } else {
          var t' :| Step2(sp, t, s.st, s.user, t', s'.st, s'.user, e) && s'.phase == Second(t');
          Step2Effect(sp, t, s.st, s.user, t', s'.st, s'.user, e, 0, n, true);
          Step2Owns(sp, t, s.st, s.user, t', s'.st, s'.user, e, 0, n, true);
          Bodies2InStore(sp, s'.st, t', 0, n, true);
        }
    }
  }

  lemma {:induction false} BodiesAccounted(sp: Splitter, n: nat, states: seq<State>, events: seq<Event>, i: nat)
    requires ValidSplitter(sp) && IsRun(sp, n, states, events) && i < |states|
    ensures Accounted(states[i], n)
    decreases i
  {
    hide Next, Inv;
    if i > 0 {
      BodiesAccounted(sp, n, states, events, i - 1);
      RunInvariant(sp, n, states, events, i - 1);
      NextAccounts(sp, states[i - 1], states[i], events[i - 1], n);
    }
  }

  /** Every body that stealing has made is destroyed again: at the end of a run there is at most the temporary one. */
  lemma NoBodyLeft(sp: Splitter, n: nat, states: seq<State>, events: seq<Event>)
    requires ValidSplitter(sp) && IsRun(sp, n, states, events) && states[|events|].phase.Finished?
    ensures forall x | x in states[|events|].st :: x == 0
  {
    BodiesAccounted(sp, n, states, events, |events|);
  }

  // ---------------------------------------------------------------- what stealing costs

  /** Without stealing one pass is enough, although the range has been split: the right task goes on with its
      sibling's sum, and the user's body has got the whole range. */
  lemma OnePass(sp: Splitter, n: nat, user: seq<nat>) returns (states: seq<State>, events: seq<Event>)
    requires ValidSplitter(sp) && n > 0 && sp.divisible(0, n)
    ensures IsRun(sp, n, states, events) && states[|events|].phase == Finished
    ensures states[1].phase.First? && states[1].phase.task.Join?
    ensures forall i :: 0 <= i < |states| ==> !states[i].phase.Second?
    ensures states[|events|].user == Positions(0, n) && states[0].user == user
    ensures exists m :: 0 < m < n && events[1] == FinalScan(0, m, []) && events[2] == FinalScan(m, n, Positions(0, m))
  {
    var m := sp.mid(0, n);
    var root := Start(0, n, 0, true, false, false);
    var right := Start(m, n, 0, true, false, true);
    var split := Join(0, m, n, true, false, None, None, Start(0, m, 0, true, true, false), right);
    var half := split.(leftSum := Some(0), left := Done(None));
    var whole := half.(right := Done(None));
    var st0: Store := map[0 := []];
    var st1, st2 := st0[0 := [] + Positions(0, m)], st0[0 := Positions(0, m) + Positions(m, n)];
    PositionsJoin(0, m, n);
    assert [] + Positions(0, m) == Positions(0, m);
    states := [State(First(root), st0, user, {}), State(First(split), st0, user, {}),
               State(First(half), st1, user, {} + Interval(0, m)),
               State(First(whole), st2, user, {} + Interval(0, m) + Interval(m, n)),
               State(First(Done(None)), st2, user, {} + Interval(0, m) + Interval(m, n)),
               State(Finished, st2, Positions(0, n), {} + Interval(0, m) + Interval(m, n))];
    events := [Quiet, FinalScan(0, m, []), FinalScan(m, n, Positions(0, m)), Quiet, Quiet];
    assert SplitStep(sp, root, st0, split, st0, None, Quiet);
    assert StartStep(sp, split.left, st0, Done(None), st1, Some(0), events[1]);
    assert Step(sp, None, split.left, st0, Done(None), st1, Some(0), events[1]);
    assert st1[0 := st1[0] + Positions(m, n)] == st2;
    assert SharedStep(half, st1, whole, st2, None, events[2]);
    assert FinishStep(whole, None, st2, Done(None), st2);
  }

  /** A stolen right part that is not split is scanned in the first pass only if its sum is wanted; nothing else changes,
      and no final scan takes place. */
  lemma StolenLeaf(sp: Splitter, j: Task, st: Store, j': Task, st': Store, w: Option<BodyId>, e: Event)
    requires StolenStep(sp, j, st, j', st', w, e) && j'.right.Done? && j'.zombie.Some?
    ensures var z := j'.zombie.value;
      && z !in st && z in st' && st'[z] == (if j.right.total then Positions(j.right.lo, j.right.hi) else [])
      && (forall x | x in st :: x in st' && st'[x] == st[x]) && e == Quiet
      && w == if j.right.total then Some(z) else None
  {
  }

  /** The work a task tree still has to do. */
  function Work(t: Task): int {
    match t
    case Start(lo, hi, _, _, _, _) => 4 * (hi - lo) - 2
    case Join(_, _, _, _, _, _, _, left, right) => 1 + Work(left) + Work(right)
    case Done(_) => 0
  }

  function SumWork(s: Sum): nat {
    3 + (if s.left.Some? then SumWork(s.left.value) else 1) + (if s.right.Some? then SumWork(s.right.value) else 1)
  }

  function Work2(t: Task2): nat {
    match t
    case End => 0
    case Leaf(_, _, _, _) => 1
    case Pend(s, _, _, _) => SumWork(s)
    case Both(_, left, right) => Work2(left) + Work2(right)
  }

  lemma StartWorks(sp: Splitter, t: Task, st: Store, t': Task, st': Store, w: Option<BodyId>, e: Event)
    requires ValidSplitter(sp) && t.Start? && t.lo < t.hi && StartStep(sp, t, st, t', st', w, e)
    ensures 0 <= Work(t') < Work(t)
  {
    if SplitStep(sp, t, st, t', st', w, e) {
      assert Work(t'.left) == 4 * (t'.mid - t.lo) - 2 && Work(t'.right) == 4 * (t.hi - t'.mid) - 2;
    }
  }

  /** A right child runs for the first time, or a Join is finished. */
  lemma JoinWorks(sp: Splitter, slot: Option<BodyId>, t: Task, st: Store, t': Task, st': Store,
                  w: Option<BodyId>, e: Event, c: Job)
    requires ValidSplitter(sp) && Tree(sp, st, t, c, slot)
    requires StolenStep(sp, t, st, t', st', w, e) || SharedStep(t, st, t', st', w, e) || FinishStep(t, slot, st, t', st')
    ensures Work(t') < Work(t)
  {
    if StolenStep(sp, t, st, t', st', w, e) {
      var z, r' :| z !in st
        && StartStep(sp, t.right.(body := z, final := false, isRight := false), st[z := []], r', st', w, e)
        && t' == t.(zombie := Some(z), right := r');
      StartWorks(sp, t.right.(body := z, final := false, isRight := false), st[z := []], r', st', w, e);
    }
  }

  lemma {:induction false} StepWorks(sp: Splitter, slot: Option<BodyId>, t: Task, st: Store, t': Task, st': Store,
                                     w: Option<BodyId>, e: Event, c: Job)
    requires ValidSplitter(sp) && Tree(sp, st, t, c, slot) && Step(sp, slot, t, st, t', st', w, e)
    ensures Work(t') < Work(t)
    decreases t
  {
    if Whole(t) {
      WholeLess(sp, slot, t, st, t', st', w, e);
    } else if t.Start? {
      StartWorks(sp, t, st, t', st', w, e);
    } else if StolenStep(sp, t, st, t', st', w, e) || SharedStep(t, st, t', st', w, e) || FinishStep(t, slot, st, t', st') {
      JoinWorks(sp, slot, t, st, t', st', w, e, c);
    } else if r' :| Step(sp, slot, t.right, st, r', st', w, e) && t' == t.(right := r') {
      StepWorks(sp, slot, t.right, st, r', st', w, e, RightJob(c, t.mid, t.zombie.value));
    } else {
      var l', w0 :| Step(sp, t.leftSum, t.left, st, l', st', w0, e)
                    && w == None && t' == t.(left := l', leftSum := Stored(t.leftSum, w0));
      StepWorks(sp, t.leftSum, t.left, st, l', st', w0, e, LeftJob(c, t.mid));
    }
  }

  lemma {:induction false} WholeLess(sp: Splitter, slot: Option<BodyId>, t: Task, st: Store, t': Task, st': Store,
                                     w: Option<BodyId>, e: Event)
    requires Whole(t) && Step(sp, slot, t, st, t', st', w, e)
    ensures Work(t') < Work(t)
    decreases t
  {
    WholeWork(t);
    if l', w0 :| Step(sp, t.leftSum, t.left, st, l', st', w0, e)
                 && w == None && t' == t.(left := l', leftSum := Stored(t.leftSum, w0)) {
      WholeLess(sp, t.leftSum, t.left, st, l', st', w0, e);
    } else {
      assert t.Join?;
      assert FinishStep(t, slot, st, t', st');
    }
  }

  lemma {:induction false} WholeWork(t: Task)
    requires Whole(t)
    ensures Work(t) >= 0
    decreases t
  {
    if t.Join? { WholeWork(t.left); }
  }

  lemma {:induction false} WorkNonNegative(sp: Splitter, st: Store, t: Task, c: Job, slot: Option<BodyId>)
    requires Tree(sp, st, t, c, slot)
    ensures Work(t) >= 0 && (!t.Done? ==> Work(t) > 0)
    decreases t
  {
    if Whole(t) {
      WholeWork(t);
      if t.Join? { WholeWork(t.left); }
    } else if t.Join? {
      WorkNonNegative(sp, st, t.left, LeftJob(c, t.mid), t.leftSum);
      if t.zombie.Some? { WorkNonNegative(sp, st, t.right, RightJob(c, t.mid, t.zombie.value), slot); }
    }
  }

  lemma {:induction false} Step2Works(sp: Splitter, t: Task2, st: Store, user: seq<nat>, t': Task2, st': Store,
                                      user': seq<nat>, e: Event)
    requires Step2(sp, t, st, user, t', st', user', e)
    ensures Work2(t') < Work2(t)
    decreases t
  {
    if t.Both? {
      if l' :| Step2(sp, t.left, st, user, l', st', user', e) && t' == t.(left := l') {
        Step2Works(sp, t.left, st, user, l', st', user', e);
      } else {
        var r' :| Step2(sp, t.right, st, user, r', st', user', e) && t' == t.(right := r');
        Step2Works(sp, t.right, st, user, r', st', user', e);
      }
    }
  }

  function Rank(s: State): nat {
    match s.phase case First(_) => 2 case Second(_) => 1 case Finished => 0
  }

  function PhaseWork(s: State): int {
    match s.phase case First(t) => Work(t) case Second(t) => Work2(t) case Finished => 0
  }

  /** Every run ends: each step lowers the phase, or the work left in it. */
  lemma EveryStepProgresses(sp: Splitter, n: nat, states: seq<State>, events: seq<Event>, i: nat)
    requires ValidSplitter(sp) && IsRun(sp, n, states, events) && i < |events|
    ensures var s, s' := states[i], states[i + 1];
            PhaseWork(s') >= 0 && (Rank(s') < Rank(s) || (Rank(s') == Rank(s) && PhaseWork(s') < PhaseWork(s)))
  {
    var s, s', e := states[i], states[i + 1], events[i];
    RunInvariant(sp, n, states, events, i);
    match s.phase {
      case First(t) =>
        if !t.Done? {
          var t' :| Step(sp, None, t, s.st, t', s'.st, None, e) && s'.phase == First(t');
          StepWorks(sp, None, t, s.st, t', s'.st, None, e, RootJob(n));
          StepEffect(sp, None, t, s.st, t', s'.st, None, e, RootJob(n));
          WorkNonNegative(sp, s'.st, t', RootJob(n), None);
        }
      case Second(t) =>
        if !AllEnd(t) {
          var t' :| Step2(sp, t, s.st, s.user, t', s'.st, s'.user, e) && s'.phase == Second(t');
          Step2Works(sp, t, s.st, s.user, t', s'.st, s'.user, e);
        }
    }
  }

  // ---------------------------------------------------------------- any associative join

  /** An associative operation with an identity, and the value of each position. */
  datatype Monoid<!V> = Monoid(op: (V, V) -> V, unit: V, at: nat -> V)

  ghost predicate ValidMonoid<V(!new)>(m: Monoid<V>) {
    && (forall x, y, z :: m.op(m.op(x, y), z) == m.op(x, m.op(y, z)))
    && (forall x :: m.op(m.unit, x) == x && m.op(x, m.unit) == x)
  }

  /** The value of a body that has accumulated the positions s. */
  function Value<V>(m: Monoid<V>, s: seq<nat>): V {
    if s == [] then m.unit else m.op(m.at(s[0]), Value(m, s[1..]))
  }

  /** The serial loop over [0, n). */
  function Serial<V>(m: Monoid<V>, n: nat): V {
    if n == 0 then m.unit else m.op(Serial(m, n - 1), m.at(n - 1))
  }

  /** reverse_join and accumulation on positions are the user's join and accumulation on values. */
  lemma {:induction false} ValueJoins<V(!new)>(m: Monoid<V>, a: seq<nat>, b: seq<nat>)
    requires ValidMonoid(m)
    ensures Value(m, a + b) == m.op(Value(m, a), Value(m, b))
  {
    if a == [] {
      assert a + b == b;
    } else {
      assert (a + b)[1..] == a[1..] + b;
      ValueJoins(m, a[1..], b);
    }
  }

  lemma {:induction false} SerialValue<V(!new)>(m: Monoid<V>, n: nat)
    requires ValidMonoid(m)
    ensures Value(m, Positions(0, n)) == Serial(m, n)
  {
    if n > 0 {
      SerialValue(m, n - 1);
      PositionsJoin(0, n - 1, n);
      ValueJoins(m, Positions(0, n - 1), Positions(n - 1, n));
      assert Positions(n - 1, n) == [n - 1];
      assert Value(m, [n - 1]) == m.op(m.at(n - 1), Value(m, []));
    }
  }

  /** For every associative join with an identity: each final scan starts from the value of the serial
      loop up to its range, and the user's body ends with the serial loop's total. */
  lemma Total<V(!new)>(m: Monoid<V>, sp: Splitter, n: nat, states: seq<State>, events: seq<Event>)
    requires ValidMonoid(m) && ValidSplitter(sp) && IsRun(sp, n, states, events)
    ensures forall i :: 0 <= i < |events| && events[i].FinalScan? ==> Value(m, events[i].acc) == Serial(m, events[i].lo)
    ensures states[|events|].phase.Finished? ==> Value(m, states[|events|].user) == Serial(m, n)
  {
    forall i | 0 <= i < |events| && events[i].FinalScan?
      ensures Value(m, events[i].acc) == Serial(m, events[i].lo)
    {
      RunInvariant(sp, n, states, events, i);
      NextKeeps(sp, states[i], states[i + 1], events[i], n);
      SerialValue(m, events[i].lo);
    }
    if states[|events|].phase.Finished? {
      RunEndsRight(sp, n, states, events);
      SerialValue(m, n);
    }
  }
}
