/** Bookkeeping for the serializability of a batch of queue operations: which operations have been
    given their place in the serial order, and which pushes and pops still wait for theirs. */
module BatchProof {
  import opened QueueSpec

  datatype Op<T> = PushOp(elem: T) | PopOp
  datatype Result<T> = Waiting | Pushed | OutOfMemory | Got(elem: T) | Empty

  predicate Answers<T>(op: Op<T>, r: Result<T>) {
    if op.PushOp? then r.Pushed? || r.OutOfMemory? else r.Got? || r.Empty?
  }

  /** An operation with its answer, as a call on the serial queue. */
  function CallOf<T>(op: Op<T>, r: Result<T>): Call<T>
    requires Answers(op, r)
  {
    if op.PushOp? then (if r.Pushed? then Push(op.elem) else PushFailed(op.elem))
    else if r.Got? then Popped(r.elem) else PopFailed
  }

  function Upto(n: nat): (s: seq<nat>)
    ensures |s| == n && forall i :: 0 <= i < n ==> s[i] == i
  {
    seq(n, i requires 0 <= i < n => i)
  }

  /** The queue held `bag` when the batch began; `calls` is the serial history of the batch so far,
      of the operations `order`; `pending` are the pushes of the unsorted tail, `pops` the postponed
      pops. */
  datatype Progress<!T> = Progress(less: Less<T>, ops: seq<Op<T>>, results: seq<Result<T>>, bag: multiset<T>,
                                   order: seq<nat>, calls: seq<Call<T>>, pending: seq<nat>, pops: seq<nat>,
                                   data: seq<T>, mark: nat, seen: nat)

  /** The serial history so far leaves exactly the heap part of the data. */
  ghost predicate HistoryOk<T(!new)>(less: Less<T>, bag: multiset<T>, calls: seq<Call<T>>, data: seq<T>, mark: nat) {
    && StrictWeak(less) && mark <= |data| && Heap(less, data, mark)
    && Legal(less, bag, calls) && After(bag, calls) == multiset(data[..mark])
  }

  predicate Placed<T(==)>(ops: seq<Op<T>>, results: seq<Result<T>>, i: nat, c: Call<T>) {
    i < |ops| && i < |results| && Answers(ops[i], results[i]) && c == CallOf(ops[i], results[i])
  }

  /** The calls of the batch are those of the placed operations, in the serial order. */
  ghost predicate OrderOk<T>(ops: seq<Op<T>>, results: seq<Result<T>>, order: seq<nat>,
                             calls: seq<Call<T>>)
  {
    && |calls| == |order|
    && forall k :: 0 <= k < |order| ==> Placed(ops, results, order[k], calls[k])
  }

  predicate Pending<T(==)>(ops: seq<Op<T>>, results: seq<Result<T>>, i: nat, x: T) {
    i < |ops| && i < |results| && ops[i] == PushOp(x) && results[i] == Pushed
  }

  /** The unsorted tail holds the elements of the pending pushes, in order. */
  ghost predicate TailOk<T>(ops: seq<Op<T>>, results: seq<Result<T>>, pending: seq<nat>, tail: seq<T>) {
    |pending| == |tail| && forall k :: 0 <= k < |pending| ==> Pending(ops, results, pending[k], tail[k])
  }

  predicate Postponed<T(!new)>(ops: seq<Op<T>>, results: seq<Result<T>>, i: nat, seen: nat) {
    i < seen && i < |ops| && i < |results| && ops[i].PopOp? && results[i].Waiting?
  }

  ghost predicate PopsOk<T(!new)>(ops: seq<Op<T>>, results: seq<Result<T>>, pops: seq<nat>, seen: nat) {
    && |results| == |ops| && seen <= |ops|
    && (forall k :: 0 <= k < |pops| ==> Postponed(ops, results, pops[k], seen))
    && (forall k, l :: 0 <= k < l < |pops| ==> pops[l] < pops[k])
    && (forall i :: seen <= i < |ops| ==> results[i].Waiting?)
  }

  /** Every operation seen so far is placed, pending or postponed. */
  ghost predicate Accounted(order: seq<nat>, pending: seq<nat>, pops: seq<nat>, seen: nat) {
    multiset(order) + multiset(pending) + multiset(pops) == multiset(Upto(seen))
  }

  ghost predicate ProgressOk<T(!new)>(p: Progress<T>) {
    && HistoryOk(p.less, p.bag, p.calls, p.data, p.mark)
    && OrderOk(p.ops, p.results, p.order, p.calls)
    && TailOk(p.ops, p.results, p.pending, p.data[p.mark..])
    && PopsOk(p.ops, p.results, p.pops, p.seen)
    && Accounted(p.order, p.pending, p.pops, p.seen)
  }

  lemma UptoNext(n: nat)
    ensures multiset(Upto(n + 1)) == multiset(Upto(n)) + multiset{n}
  {
    assert Upto(n + 1) == Upto(n) + [n];
  }

  lemma TakeNext<T>(s: seq<T>, n: nat)
    requires n < |s|
    ensures multiset(s[..n + 1]) == multiset(s[..n]) + multiset{s[n]}
  {
    assert s[..n + 1] == s[..n] + [s[n]];
  }

  lemma TakeAllButLast<T>(s: seq<T>, n: nat)
    requires |s| == n + 1
    ensures multiset(s) == multiset(s[..n]) + multiset{s[n]}
  {
    TakeNext(s, n);
    assert s[..n + 1] == s;
  }

  // ---------------------------------------------------------------- small steps of the bookkeeping

  /** Answering an operation that was waiting disturbs no placed and no pending operation. */
  lemma Answered<T(!new)>(ops: seq<Op<T>>, results: seq<Result<T>>, i: nat, r: Result<T>,
                          order: seq<nat>, calls: seq<Call<T>>, pending: seq<nat>, tail: seq<T>)
    requires i < |results| && results[i].Waiting?
    requires OrderOk(ops, results, order, calls) && TailOk(ops, results, pending, tail)
    ensures OrderOk(ops, results[i := r], order, calls)
    ensures TailOk(ops, results[i := r], pending, tail)
  {
    forall k | 0 <= k < |order| ensures Placed(ops, results[i := r], order[k], calls[k]) {
      assert Placed(ops, results, order[k], calls[k]);
    }
    forall k | 0 <= k < |pending| ensures Pending(ops, results[i := r], pending[k], tail[k]) {
      assert Pending(ops, results, pending[k], tail[k]);
    }
  }

  lemma OrderExtended<T>(ops: seq<Op<T>>, results: seq<Result<T>>, order: seq<nat>, calls: seq<Call<T>>,
                         i: nat, c: Call<T>)
    requires OrderOk(ops, results, order, calls) && Placed(ops, results, i, c)
    ensures OrderOk(ops, results, order + [i], calls + [c])
  {
    forall k | 0 <= k < |order + [i]| ensures Placed(ops, results, (order + [i])[k], (calls + [c])[k]) {
      if k < |order| { assert Placed(ops, results, order[k], calls[k]); }
    }
  }

  /** A placed push: it answers its operation, and the history takes its element. */
  lemma PlacePush<T(!new)>(p: Progress<T>, order: seq<nat>, calls: seq<Call<T>>, i: nat, x: T)
    requires OrderOk(p.ops, p.results, order, calls) && Pending(p.ops, p.results, i, x)
    requires Legal(p.less, p.bag, calls)
    ensures OrderOk(p.ops, p.results, order + [i], calls + [Push(x)])
    ensures Legal(p.less, p.bag, calls + [Push(x)])
    ensures After(p.bag, calls + [Push(x)]) == After(p.bag, calls) + multiset{x}
    ensures multiset(order + [i]) == multiset(order) + multiset{i}
  {
    OrderExtended(p.ops, p.results, order, calls, i, Push(x));
    Extend(p.less, p.bag, calls, Push(x));
  }

  /** A placed pop. */
  lemma PlacePop<T(!new)>(p: Progress<T>, order: seq<nat>, calls: seq<Call<T>>, i: nat, x: T)
    requires OrderOk(p.ops, p.results, order, calls) && i < |p.ops| && i < |p.results|
    requires p.ops[i].PopOp? && p.results[i] == Got(x)
    requires Legal(p.less, p.bag, calls) && Allowed(p.less, After(p.bag, calls), Popped(x))
    ensures OrderOk(p.ops, p.results, order + [i], calls + [Popped(x)])
    ensures Legal(p.less, p.bag, calls + [Popped(x)])
    ensures After(p.bag, calls + [Popped(x)]) == After(p.bag, calls) - multiset{x}
  {
    OrderExtended(p.ops, p.results, order, calls, i, Popped(x));
    Extend(p.less, p.bag, calls, Popped(x));
  }

  /** The last pending push is placed. */
  lemma AccountLast(order: seq<nat>, pending: seq<nat>, pops: seq<nat>, seen: nat, n: nat)
    requires Accounted(order, pending, pops, seen) && |pending| == n + 1
    ensures Accounted(order + [pending[n]], pending[..n], pops, seen)
  {
    TakeAllButLast(pending, n);
  }

  lemma HeapPrefix<T(!new)>(less: Less<T>, s: seq<T>, s': seq<T>, n: nat)
    requires n <= |s| && n <= |s'| && Heap(less, s, n) && s'[..n] == s[..n]
    ensures Heap(less, s', n)
  {
    forall i | 1 <= i < n ensures Fits(less, s', i) {
      assert Fits(less, s, i);
      assert s'[i] == s'[..n][i] && s'[ParentOf(i)] == s'[..n][ParentOf(i)];
      assert s[i] == s[..n][i] && s[ParentOf(i)] == s[..n][ParentOf(i)];
    }
  }

  // ---------------------------------------------------------------- the first pass

  /** A push that succeeds joins the unsorted tail. */
  lemma PushSeen<T(!new)>(p: Progress<T>) returns (q: Progress<T>)
    requires ProgressOk(p) && p.seen < |p.ops| && p.ops[p.seen].PushOp?
    ensures q == p.(results := p.results[p.seen := Pushed], pending := p.pending + [p.seen],
                    data := p.data + [p.ops[p.seen].elem], seen := p.seen + 1)
    ensures ProgressOk(q)
  {
    var x := p.ops[p.seen].elem;
    q := p.(results := p.results[p.seen := Pushed], pending := p.pending + [p.seen],
            data := p.data + [x], seen := p.seen + 1);
    UptoNext(p.seen);
    Answered(p.ops, p.results, p.seen, Pushed, p.order, p.calls, p.pending, p.data[p.mark..]);
    assert q.data[..q.mark] == p.data[..p.mark];
    HeapPrefix(p.less, p.data, q.data, p.mark);
    assert q.data[q.mark..] == p.data[p.mark..] + [x];
    assert PopsOk(q.ops, q.results, q.pops, q.seen) by { PopsAnswered(p, p.seen, Pushed, p.pops, p.seen + 1); }
  }

  /** A push without memory changes nothing. */
  lemma PushFails<T(!new)>(p: Progress<T>) returns (q: Progress<T>)
    requires ProgressOk(p) && p.seen < |p.ops| && p.ops[p.seen].PushOp?
    ensures q == p.(results := p.results[p.seen := OutOfMemory], order := p.order + [p.seen],
                    calls := p.calls + [PushFailed(p.ops[p.seen].elem)], seen := p.seen + 1)
    ensures ProgressOk(q)
  {
    var c := PushFailed(p.ops[p.seen].elem);
    q := AnswerGiven(p, p.seen, OutOfMemory, p.pops, p.seen + 1);
    OrderExtended(q.ops, q.results, q.order, q.calls, p.seen, c);
    Extend(p.less, p.bag, p.calls, c);
    q := q.(order := p.order + [p.seen], calls := p.calls + [c]);
  }

  lemma Postpone<T(!new)>(p: Progress<T>) returns (q: Progress<T>)
    requires ProgressOk(p) && p.seen < |p.ops| && p.ops[p.seen].PopOp?
    ensures q == p.(pops := [p.seen] + p.pops, seen := p.seen + 1)
    ensures ProgressOk(q)
  {
    hide HistoryOk, OrderOk, TailOk, Upto;
    q := p.(pops := [p.seen] + p.pops, seen := p.seen + 1);
    UptoNext(p.seen);
    forall k | 0 <= k < |q.pops| ensures Postponed(q.ops, q.results, q.pops[k], q.seen) {
      if k > 0 { assert Postponed(p.ops, p.results, p.pops[k - 1], p.seen); }
    }
    forall k, l | 0 <= k < l < |q.pops| ensures q.pops[l] < q.pops[k] {
      assert Postponed(p.ops, p.results, p.pops[l - 1], p.seen);
      if k > 0 { assert p.pops[l - 1] < p.pops[k - 1]; }
    }
  }

  // ---------------------------------------------------------------- pops

  /** Operation i gets its answer: it is either the one just seen, or the first postponed pop. */
  ghost predicate Taken<T(!new)>(p: Progress<T>, i: nat, pops: seq<nat>, seen: nat) {
    && i < |p.ops| && i < |p.results|
    && ((i == p.seen && pops == p.pops && seen == p.seen + 1)
        || (p.pops != [] && i == p.pops[0] && pops == p.pops[1..] && seen == p.seen))
  }

  lemma PopsAnswered<T(!new)>(p: Progress<T>, i: nat, r: Result<T>, pops: seq<nat>, seen: nat)
    requires PopsOk(p.ops, p.results, p.pops, p.seen) && Taken(p, i, pops, seen)
    ensures p.results[i].Waiting?
    ensures PopsOk(p.ops, p.results[i := r], pops, seen)
    ensures forall order, pending | Accounted(order, pending, p.pops, p.seen) :: Accounted(order + [i], pending, pops, seen)
  {
    hide Upto;
    if i == p.seen {
      UptoNext(p.seen);
      forall k | 0 <= k < |pops| ensures Postponed(p.ops, p.results[i := r], pops[k], seen) {
        assert Postponed(p.ops, p.results, p.pops[k], p.seen);
      }
    } else {
      assert p.pops == [i] + pops;
      assert Postponed(p.ops, p.results, p.pops[0], p.seen);
      forall k | 0 <= k < |pops| ensures Postponed(p.ops, p.results[i := r], pops[k], seen) {
        assert Postponed(p.ops, p.results, p.pops[k + 1], p.seen);
        assert p.pops[k + 1] < p.pops[0];
      }
    }
  }

  /** Operation i is answered with r, and has yet to be placed. */
  lemma AnswerGiven<T(!new)>(p: Progress<T>, i: nat, r: Result<T>, pops: seq<nat>, seen: nat) returns (q: Progress<T>)
    requires ProgressOk(p) && Taken(p, i, pops, seen)
    ensures q == p.(results := p.results[i := r], pops := pops, seen := seen)
    ensures OrderOk(q.ops, q.results, q.order, q.calls)
    ensures TailOk(q.ops, q.results, q.pending, q.data[q.mark..])
    ensures PopsOk(q.ops, q.results, q.pops, q.seen)
    ensures Accounted(q.order + [i], q.pending, q.pops, q.seen)
  {
    q := p.(results := p.results[i := r], pops := pops, seen := seen);
    PopsAnswered(p, i, r, pops, seen);
    Answered(p.ops, p.results, i, r, p.order, p.calls, p.pending, p.data[p.mark..]);
  }

  lemma TailIsHighest<T(!new)>(less: Less<T>, s: seq<T>, n: nat, x: T)
    requires StrictWeak(less) && n <= |s| && Heap(less, s, n) && (n > 0 ==> less(s[0], x))
    ensures Allowed(less, multiset(s[..n]) + multiset{x}, Popped(x))
  {
    forall y | y in multiset(s[..n]) + multiset{x} ensures !less(x, y) {
      if y in multiset(s[..n]) { NoneAboveRoot(less, s, n); }
    }
  }

  /** The last pushed element is above the root: push it and pop it. */
  lemma PopTail<T(!new)>(p: Progress<T>, i: nat, pops: seq<nat>, seen: nat) returns (q: Progress<T>)
    requires ProgressOk(p) && Taken(p, i, pops, seen) && p.ops[i].PopOp?
    requires p.mark < |p.data| && p.less(p.data[0], p.data[|p.data| - 1])
    ensures ProgressOk(q) && q.less == p.less && q.ops == p.ops && q.bag == p.bag && q.seen == seen
    ensures q.results == p.results[i := Got(p.data[|p.data| - 1])] && q.pops == pops
    ensures q.data == p.data[..|p.data| - 1] && q.mark == p.mark
  {
    hide HistoryOk, TailOk, OrderOk, PopsOk, Accounted, After, Legal;
    var p1 := AnswerGiven(p, i, Got(p.data[|p.data| - 1]), pops, seen);
    var order, calls := TailAnswer(p1, i);
    TailHistory(p, calls);
    q := p1.(order := order, calls := calls, pending := p.pending[..|p.pending| - 1], data := p.data[..|p.data| - 1]);
  }

  /** The pop of the last element of the tail follows its push in the history. */
  lemma TailAnswer<T(!new)>(p: Progress<T>, i: nat) returns (order: seq<nat>, calls: seq<Call<T>>)
    requires HistoryOk(p.less, p.bag, p.calls, p.data, p.mark) && OrderOk(p.ops, p.results, p.order, p.calls)
    requires TailOk(p.ops, p.results, p.pending, p.data[p.mark..]) && Accounted(p.order + [i], p.pending, p.pops, p.seen)
    requires p.mark < |p.data| && p.less(p.data[0], p.data[|p.data| - 1])
    requires i < |p.ops| && i < |p.results| && p.ops[i].PopOp? && p.results[i] == Got(p.data[|p.data| - 1])
    ensures |p.pending| > 0
    ensures var m, n := |p.data| - 1, |p.pending| - 1;
      && OrderOk(p.ops, p.results, order, calls) && TailOk(p.ops, p.results, p.pending[..n], p.data[..m][p.mark..])
      && Accounted(order, p.pending[..n], p.pops, p.seen)
      && Legal(p.less, p.bag, calls) && After(p.bag, calls) == After(p.bag, p.calls)
  {
    hide After, Legal, OrderOk, StrictWeak;
    var m, n := |p.data| - 1, |p.pending| - 1;
    assert Pending(p.ops, p.results, p.pending[n], p.data[p.mark..][n]);
    order, calls := PushAndPop(p, i, p.pending[n], p.data[m]);
    TailShorter(p, n);
    TakeAllButLast(p.pending, n);
    TailSlice(p.data, p.mark, n);
    hide TailOk, HistoryOk;
  }

  lemma TailSlice<T>(data: seq<T>, mark: nat, n: nat)
    requires mark < |data| && n == |data[mark..]| - 1
    ensures data[..|data| - 1][mark..] == data[mark..][..n]
  {
  }

  /** The same in the first pass, for the operation just seen. */
  lemma PopTailSeen<T(!new)>(p: Progress<T>) returns (q: Progress<T>)
    requires ProgressOk(p) && p.seen < |p.ops| && p.ops[p.seen].PopOp?
    requires p.mark < |p.data| && p.less(p.data[0], p.data[|p.data| - 1])
    ensures ProgressOk(q) && q.less == p.less && q.ops == p.ops && q.bag == p.bag && q.seen == p.seen + 1
    ensures q.results == p.results[p.seen := Got(p.data[|p.data| - 1])] && q.pops == p.pops
    ensures q.data == p.data[..|p.data| - 1] && q.mark == p.mark
  {
    q := PopTail(p, p.seen, p.pops, p.seen + 1);
  }

  /** A pending push of an element that no element of the heap exceeds, and the pop that returns it. */
  lemma PushAndPop<T(!new)>(p: Progress<T>, i: nat, j: nat, x: T) returns (order: seq<nat>, calls: seq<Call<T>>)
    requires HistoryOk(p.less, p.bag, p.calls, p.data, p.mark) && OrderOk(p.ops, p.results, p.order, p.calls)
    requires Pending(p.ops, p.results, j, x) && (p.mark > 0 ==> p.less(p.data[0], x))
    requires i < |p.ops| && i < |p.results| && p.ops[i].PopOp? && p.results[i] == Got(x)
    ensures OrderOk(p.ops, p.results, order, calls) && Legal(p.less, p.bag, calls)
    ensures After(p.bag, calls) == After(p.bag, p.calls)
    ensures multiset(order) == multiset(p.order + [i]) + multiset{j}
  {
    hide After, Legal, OrderOk, StrictWeak;
    PlacePush(p, p.order, p.calls, j, x);
    TailIsHighest(p.less, p.data, p.mark, x);
    hide HistoryOk, Pending, Allowed;
    order, calls := p.order + [j], p.calls + [Push(x)];
    PlacePop(p, order, calls, i, x);
    BothPlaced(p.order, i, j);
    order, calls := order + [i], calls + [Popped(x)];
  }

  lemma BothPlaced(order: seq<nat>, i: nat, j: nat)
    ensures multiset(order + [j] + [i]) == multiset(order + [i]) + multiset{j}
  {
  }

  /** A shorter tail leaves the heap as it is. */
  lemma TailHistory<T(!new)>(p: Progress<T>, calls: seq<Call<T>>)
    requires HistoryOk(p.less, p.bag, p.calls, p.data, p.mark) && p.mark < |p.data|
    requires Legal(p.less, p.bag, calls) && After(p.bag, calls) == After(p.bag, p.calls)
    ensures HistoryOk(p.less, p.bag, calls, p.data[..|p.data| - 1], p.mark)
  {
    hide After, Legal, StrictWeak;
    var data' := p.data[..|p.data| - 1];
    assert p.data[..p.mark] == data'[..p.mark];
    HeapPrefix(p.less, p.data, data', p.mark);
  }

  lemma TailShorter<T(!new)>(p: Progress<T>, n: nat)
    requires p.mark <= |p.data| && TailOk(p.ops, p.results, p.pending, p.data[p.mark..]) && n <= |p.pending|
    ensures TailOk(p.ops, p.results, p.pending[..n], p.data[p.mark..][..n])
  {
    forall k | 0 <= k < n ensures Pending(p.ops, p.results, p.pending[..n][k], p.data[p.mark..][..n][k]) {
      assert Pending(p.ops, p.results, p.pending[k], p.data[p.mark..][k]);
    }
  }

  /** The same in the second pass, for the first postponed pop. */
  lemma PopTailPostponed<T(!new)>(p: Progress<T>) returns (q: Progress<T>)
    requires ProgressOk(p) && p.pops != [] && p.mark < |p.data| && p.less(p.data[0], p.data[|p.data| - 1])
    ensures AnsweredPop(p, q, Got(p.data[|p.data| - 1])) && q.data == p.data[..|p.data| - 1] && q.mark == p.mark
  {
    assert Postponed(p.ops, p.results, p.pops[0], p.seen);
    q := PopTail(p, p.pops[0], p.pops[1..], p.seen);
  }

  /** The first postponed pop has got its answer. */
  ghost predicate AnsweredPop<T(!new)>(p: Progress<T>, q: Progress<T>, answer: Result<T>) {
    && p.pops != [] && p.pops[0] < |p.ops| && p.pops[0] < |p.results| && p.ops[p.pops[0]].PopOp?
    && ProgressOk(q) && q.less == p.less && q.ops == p.ops && q.bag == p.bag && q.seen == p.seen
    && q.results == p.results[p.pops[0] := answer] && q.pops == p.pops[1..]
  }

  /** Nothing is left to pop. */
  lemma PopNothing<T(!new)>(p: Progress<T>) returns (q: Progress<T>)
    requires ProgressOk(p) && p.pops != [] && p.data == []
    ensures AnsweredPop(p, q, Empty) && q.data == p.data && q.mark == p.mark
  {
    assert Postponed(p.ops, p.results, p.pops[0], p.seen);
    var i, pops := p.pops[0], p.pops[1..];
    var p1 := AnswerGiven(p, i, Empty, pops, p.seen);
    OrderExtended(p1.ops, p1.results, p1.order, p1.calls, i, PopFailed);
    Extend(p.less, p.bag, p.calls, PopFailed);
    q := p1.(order := p.order + [i], calls := p.calls + [PopFailed]);
  }

  /** What reheap makes of the data: the root is gone, and the last element has taken its place in
      the heap, or in front of the tail if there is no heap. */
  ghost predicate Reheaped<T(!new)>(less: Less<T>, s: seq<T>, mark: nat, s': seq<T>, mark': nat) {
    && mark <= |s| && s != [] && |s'| == |s| - 1 && mark' == (if mark < |s| then mark else |s| - 1)
    && Heap(less, s', mark')
    && if mark == 0 then s' == (if |s| == 1 then [] else [s[|s| - 1]] + s[1..|s| - 1])
       else if mark == |s| then multiset(s') == multiset(s) - multiset{s[0]}
       else multiset(s'[..mark]) == multiset(s[..mark]) - multiset{s[0]} + multiset{s[|s| - 1]}
            && s'[mark..] == s[mark..|s| - 1]
  }

  lemma RootAllowed<T(!new)>(less: Less<T>, s: seq<T>, n: nat)
    requires StrictWeak(less) && 0 < n <= |s| && Heap(less, s, n)
    ensures Allowed(less, multiset(s[..n]), Popped(s[0]))
  {
    NoneAboveRoot(less, s, n);
    assert s[..n][0] == s[0];
  }

  /** The root is popped; if the tail is not empty its last element has become part of the heap. */
  lemma PopRoot<T(!new)>(p: Progress<T>, i: nat, pops: seq<nat>, data': seq<T>, mark': nat) returns (q: Progress<T>)
    requires ProgressOk(p) && Taken(p, i, pops, p.seen) && p.ops[i].PopOp? && p.mark > 0
    requires Reheaped(p.less, p.data, p.mark, data', mark')
    ensures ProgressOk(q) && q.less == p.less && q.ops == p.ops && q.bag == p.bag && q.seen == p.seen
    ensures q.results == p.results[i := Got(p.data[0])] && q.pops == pops && q.data == data' && q.mark == mark'
  {
    hide After, Legal, OrderOk;
    var x := p.data[0];
    var p1 := AnswerGiven(p, i, Got(x), pops, p.seen);
    RootAllowed(p.less, p.data, p.mark);
    PlacePop(p1, p.order, p.calls, i, x);
    var p2 := p1.(order := p.order + [i], calls := p.calls + [Popped(x)]);
    if p.mark == |p.data| {
      q := p2.(data := data', mark := mark');
      assert p.data[..p.mark] == p.data && data'[..mark'] == data';
    } else {
      q := PushLast(p2, data');
    }
  }

  /** The last pending push takes its place, after the pop that made room for it. */
  lemma PushLast<T(!new)>(p: Progress<T>, data': seq<T>) returns (q: Progress<T>)
    requires 0 < p.mark < |p.data| && StrictWeak(p.less) && Reheaped(p.less, p.data, p.mark, data', p.mark)
    requires Legal(p.less, p.bag, p.calls)
    requires After(p.bag, p.calls) == multiset(p.data[..p.mark]) - multiset{p.data[0]}
    requires OrderOk(p.ops, p.results, p.order, p.calls)
    requires TailOk(p.ops, p.results, p.pending, p.data[p.mark..])
    requires PopsOk(p.ops, p.results, p.pops, p.seen) && Accounted(p.order, p.pending, p.pops, p.seen)
    ensures ProgressOk(q) && q.less == p.less && q.ops == p.ops && q.bag == p.bag && q.seen == p.seen
    ensures q.results == p.results && q.pops == p.pops && q.data == data' && q.mark == p.mark
  {
    var n := |p.pending| - 1;
    var y, j := p.data[|p.data| - 1], p.pending[n];
    assert Pending(p.ops, p.results, p.pending[n], p.data[p.mark..][n]);
    PlacePush(p, p.order, p.calls, j, y);
    TailShorter(p, n);
    AccountLast(p.order, p.pending, p.pops, p.seen, n);
    var order, calls := p.order + [j], p.calls + [Push(y)];
    assert HistoryOk(p.less, p.bag, calls, data', p.mark);
    assert data'[p.mark..] == p.data[p.mark..][..n];
    q := p.(order := order, calls := calls, pending := p.pending[..n], data := data');
  }

  /** No heap yet: the oldest element of the tail is pushed and popped, and the newest moves to the
      front of the tail. */
  lemma PopFirst<T(!new)>(p: Progress<T>, i: nat, pops: seq<nat>, data': seq<T>, mark': nat) returns (q: Progress<T>)
    requires ProgressOk(p) && Taken(p, i, pops, p.seen) && p.ops[i].PopOp? && p.mark == 0
    requires Reheaped(p.less, p.data, p.mark, data', mark')
    ensures ProgressOk(q) && q.less == p.less && q.ops == p.ops && q.bag == p.bag && q.seen == p.seen
    ensures q.results == p.results[i := Got(p.data[0])] && q.pops == pops && q.data == data' && q.mark == mark'
  {
    hide After, Legal, OrderOk;
    var x, j := p.data[0], p.pending[0];
    var p1 := AnswerGiven(p, i, Got(x), pops, p.seen);
    assert Pending(p1.ops, p1.results, p1.pending[0], p1.data[p1.mark..][0]);
    var order, calls := PushAndPop(p1, i, j, x);
    assert p.data[0..] == p.data && data'[0..] == data' == Rotated(p.data);
    RotatedTail(p1);
    RotatedBag(p.pending);
    assert p.data[..0] == [] && data'[..0] == [];
    q := p1.(order := order, calls := calls, pending := Rotated(p.pending), data := data', mark := mark');
  }

  /** What reheap does to the data answers the first postponed pop with data[0]. */
  lemma PopByReheap<T(!new)>(p: Progress<T>, data': seq<T>, mark': nat) returns (q: Progress<T>)
    requires ProgressOk(p) && p.pops != [] && Reheaped(p.less, p.data, p.mark, data', mark')
    ensures AnsweredPop(p, q, Got(p.data[0])) && q.data == data' && q.mark == mark'
  {
    assert Postponed(p.ops, p.results, p.pops[0], p.seen);
    if p.mark > 0 {
      q := PopRoot(p, p.pops[0], p.pops[1..], data', mark');
    } else {
      q := PopFirst(p, p.pops[0], p.pops[1..], data', mark');
    }
  }

  /** The first element is dropped and the last one takes its place. */
  function Rotated<T>(s: seq<T>): seq<T>
    requires s != []
  {
    if |s| == 1 then [] else [s[|s| - 1]] + s[1..|s| - 1]
  }

  lemma RotatedTail<T(!new)>(p: Progress<T>)
    requires TailOk(p.ops, p.results, p.pending, p.data) && p.data != []
    ensures TailOk(p.ops, p.results, Rotated(p.pending), Rotated(p.data))
  {
    forall k | 0 <= k < |p.data| - 1
      ensures Pending(p.ops, p.results, Rotated(p.pending)[k], Rotated(p.data)[k])
    {
      var j := if k == 0 then |p.data| - 1 else k;
      assert Pending(p.ops, p.results, p.pending[j], p.data[j]);
    }
  }

  lemma RotatedBag<T>(s: seq<T>)
    requires s != []
    ensures multiset(Rotated(s)) + multiset{s[0]} == multiset(s)
  {
    var n := |s| - 1;
    if n > 0 {
      TakeAllButLast(s, n);
      assert s[..n] == [s[0]] + s[1..n];
    }
  }

  // ---------------------------------------------------------------- the end of the batch

  /** The n oldest pending pushes have got their places. */
  ghost predicate Absorbed<T(!new)>(p: Progress<T>, n: nat, order: seq<nat>, calls: seq<Call<T>>) {
    && p.mark + n <= |p.data| && n <= |p.pending|
    && OrderOk(p.ops, p.results, order, calls) && Legal(p.less, p.bag, calls)
    && After(p.bag, calls) == multiset(p.data[..p.mark + n])
    && multiset(order) == multiset(p.order) + multiset(p.pending[..n])
  }

  lemma AbsorbNext<T(!new)>(p: Progress<T>, n: nat, order: seq<nat>, calls: seq<Call<T>>)
    requires Absorbed(p, n, order, calls) && n < |p.pending| && p.mark + n < |p.data|
    requires Pending(p.ops, p.results, p.pending[n], p.data[p.mark + n])
    ensures Absorbed(p, n + 1, order + [p.pending[n]], calls + [Push(p.data[p.mark + n])])
  {
    hide After, Legal, OrderOk;
    PlacePush(p, order, calls, p.pending[n], p.data[p.mark + n]);
    TakeNext(p.data, p.mark + n);
    TakeNext(p.pending, n);
  }

  /** heapify takes all pending pushes into the heap, which gives them their places. */
  lemma {:induction false} AbsorbTail<T(!new)>(p: Progress<T>, n: nat) returns (order: seq<nat>, calls: seq<Call<T>>)
    requires ProgressOk(p) && n <= |p.pending|
    ensures Absorbed(p, n, order, calls)
    decreases n
  {
    if n == 0 {
      order, calls := p.order, p.calls;
    } else {
      hide After, Legal, OrderOk;
      order, calls := AbsorbTail(p, n - 1);
      assert Pending(p.ops, p.results, p.pending[n - 1], p.data[p.mark..][n - 1]);
      AbsorbNext(p, n - 1, order, calls);
      order, calls := order + [p.pending[n - 1]], calls + [Push(p.data[p.mark + n - 1])];
    }
  }

  /** No operation is left waiting: the serial order is a permutation of the batch. */
  lemma BatchEnds<T(!new)>(p: Progress<T>) returns (order: seq<nat>, calls: seq<Call<T>>)
    requires ProgressOk(p) && p.pops == [] && p.seen == |p.ops|
    ensures OrderOk(p.ops, p.results, order, calls) && Legal(p.less, p.bag, calls)
    ensures After(p.bag, calls) == multiset(p.data) && p.mark <= |p.data| && Heap(p.less, p.data, p.mark)
    ensures multiset(order) == multiset(Upto(|p.ops|))
  {
    hide After, Legal, OrderOk, Heap, PopsOk;
    order, calls := AbsorbTail(p, |p.pending|);
    assert p.data[..p.mark + |p.pending|] == p.data && p.pending[..|p.pending|] == p.pending;
  }

  lemma ProgressStarts<T(!new)>(p: Progress<T>)
    requires p.order == [] && p.calls == [] && p.pending == [] && p.pops == [] && p.seen == 0
    requires StrictWeak(p.less) && p.mark == |p.data| && Heap(p.less, p.data, p.mark) && p.bag == multiset(p.data)
    requires |p.results| == |p.ops| && forall i :: 0 <= i < |p.ops| ==> p.results[i].Waiting?
    ensures ProgressOk(p)
  {
    assert p.data[..p.mark] == p.data && p.data[p.mark..] == [];
  }

  lemma NoneAnswered<T>(ops: seq<Op<T>>, results: seq<Result<T>>, outOfMemory: seq<bool>)
    requires |ops| == |results| == |outOfMemory|
    ensures PushesAnswered(ops, results, outOfMemory, 0)
  {
  }

  /** One more operation: a push is answered now, and what has been answered stays. */
  lemma NextAnswered<T>(ops: seq<Op<T>>, results: seq<Result<T>>, results': seq<Result<T>>, outOfMemory: seq<bool>, i: nat)
    requires i < |ops| == |outOfMemory| && PushesAnswered(ops, results, outOfMemory, i)
    requires |results'| == |results| && forall k :: 0 <= k < i ==> results'[k] == results[k]
    requires ops[i].PushOp? ==> results'[i] == if outOfMemory[i] then OutOfMemory else Pushed
    ensures PushesAnswered(ops, results', outOfMemory, i + 1)
  {
  }

  /** A push succeeds unless there is no memory for it. */
  ghost predicate PushesAnswered<T>(ops: seq<Op<T>>, results: seq<Result<T>>, outOfMemory: seq<bool>, seen: nat)
    requires seen <= |ops| == |outOfMemory|
  {
    && |results| == |ops|
    && forall i :: 0 <= i < seen && ops[i].PushOp? ==> results[i] == if outOfMemory[i] then OutOfMemory else Pushed
  }

  lemma EachIsPlaced(order: seq<nat>, n: nat, i: nat)
    requires multiset(order) == multiset(Upto(n)) && i < n
    ensures exists k :: 0 <= k < |order| && order[k] == i
  {
    assert Upto(n)[i] == i;
    assert i in multiset(order);
  }

  /** A serializable batch answers every operation: a pop is answered by a pop, a push by a push. */
  lemma AllAnswered<T>(ops: seq<Op<T>>, results: seq<Result<T>>, order: seq<nat>, calls: seq<Call<T>>, i: nat)
    requires OrderOk(ops, results, order, calls) && multiset(order) == multiset(Upto(|ops|))
    requires i < |ops| == |results|
    ensures Answers(ops[i], results[i])
    ensures exists k :: 0 <= k < |order| && order[k] == i && calls[k] == CallOf(ops[i], results[i])
  {
    EachIsPlaced(order, |ops|, i);
    var k :| 0 <= k < |order| && order[k] == i;
    assert Placed(ops, results, order[k], calls[k]);
  }
}
