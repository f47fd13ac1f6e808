/** concurrent_priority_queue: a vector whose first `mark` elements are a heap and whose other elements
    have been pushed but not sorted in.  One thread at a time handles a batch of operations. */
module PriorityQueue {
  import opened QueueSpec
  import opened BatchProof

  /** Two sifting steps, as the loops below make them: the moving element is kept aside. */
  lemma MovedIsSwap<T>(s: seq<T>, x: T, i: nat, j: nat)
    requires i < |s| && j < |s| && i != j
    ensures s[i := s[j]][j := x] == Swap(s[i := x], i, j)
    ensures multiset(Swap(s[i := x], i, j)) == multiset(s[i := x])
  {
    var v := s[i := x];
    SwapKeeps(v, i, j, |v|);
    assert v[..|v|] == v && Swap(v, i, j)[..|v|] == Swap(v, i, j);
  }

  function Pushes<T>(elems: seq<T>): (calls: seq<Call<T>>)
    ensures |calls| == |elems| && forall i :: 0 <= i < |elems| ==> calls[i] == Push(elems[i])
  {
    seq(|elems|, i requires 0 <= i < |elems| => Push(elems[i]))
  }

  lemma PushesSnoc<T>(front: seq<T>, x: T)
    ensures Pushes(front + [x]) == Pushes(front) + [Push(x)]
  {
  }

  /** A queue filled element by element holds those elements. */
  lemma {:induction false} PushesLegal<T(!new)>(less: Less<T>, elems: seq<T>)
    ensures Legal(less, multiset{}, Pushes(elems))
    ensures After(multiset{}, Pushes(elems)) == multiset(elems)
    decreases |elems|
  {
    if elems != [] {
      var front, x := elems[..|elems| - 1], elems[|elems| - 1];
      PushesLegal(less, front);
      PushesSnoc(front, x);
      Extend(less, multiset{}, Pushes(front), Push(x));
      assert elems == front + [x];
    }
  }

  lemma RootGone<T>(s: seq<T>, v: seq<T>, n: nat)
    requires |s| == |v| == n + 1 && v[n] == s[n] && multiset(v) == multiset(s[0 := s[n]])
    ensures multiset(v[..n]) == multiset(s) - multiset{s[0]}
  {
    TakeAllButLast(v, n);
    var last, rest := multiset{s[n]}, multiset(s) - multiset{s[0]};
    assert multiset(s[0 := s[n]]) == rest + last;
    assert multiset(v[..n]) == multiset(v) - last && rest == (rest + last) - last;
  }

  /** The element kept aside has found its place: cut off its old place at the end. */
  lemma RootReplaced<T>(s: seq<T>, x: T)
    requires s != []
    ensures multiset(s[0 := x]) == multiset(s) - multiset{s[0]} + multiset{x}
  {
  }

  lemma ShorterHeap<T(!new)>(less: Less<T>, v: seq<T>, n: nat, n': nat)
    requires n <= n' <= |v| && Heap(less, v, n')
    ensures Heap(less, v, n)
  {
  }

  /** v is s with the last element for the first one, and with the elements below mark in some order. */
  ghost predicate Settled<T(!new)>(less: Less<T>, s: seq<T>, mark: nat, v: seq<T>) {
    && s != [] && mark <= |s| == |v| && Heap(less, v, mark) && v[|s| - 1] == s[|s| - 1]
    && var moved := s[0 := s[|s| - 1]];
       multiset(v[..mark]) == multiset(moved[..mark]) && v[mark..] == moved[mark..]
  }

  lemma ReheapDone<T(!new)>(less: Less<T>, s: seq<T>, mark: nat, v: seq<T>)
    requires Settled(less, s, mark, v)
    ensures Reheaped(less, s, mark, v[..|s| - 1], if mark < |s| then mark else |s| - 1)
  {
    if mark == 0 {
      assert v == v[0..];
    } else if mark == |s| {
      WholeDone(less, s, v);
    } else {
      PartDone(less, s, mark, v);
    }
  }

  lemma WholeDone<T(!new)>(less: Less<T>, s: seq<T>, v: seq<T>)
    requires Settled(less, s, |s|, v)
    ensures Heap(less, v[..|s| - 1], |s| - 1) && multiset(v[..|s| - 1]) == multiset(s) - multiset{s[0]}
  {
    hide ParentOf, Heap;
    var n := |s| - 1;
    ShorterHeap(less, v, n, |s|);
    HeapPrefix(less, v, v[..n], n);
    assert v[..|s|] == v && s[0 := s[n]][..|s|] == s[0 := s[n]];
    RootGone(s, v, n);
  }

  lemma PartDone<T(!new)>(less: Less<T>, s: seq<T>, mark: nat, v: seq<T>)
    requires 0 < mark < |s| && Settled(less, s, mark, v)
    ensures Heap(less, v[..|s| - 1], mark) && v[..|s| - 1][mark..] == s[mark..|s| - 1]
    ensures multiset(v[..|s| - 1][..mark]) == multiset(s[..mark]) - multiset{s[0]} + multiset{s[|s| - 1]}
  {
    hide ParentOf, Heap;
    var n, last := |s| - 1, s[|s| - 1];
    var moved, s' := s[0 := last], v[..n];
    assert s'[..mark] == v[..mark];
    HeapPrefix(less, v, s', mark);
    assert moved[..mark] == s[..mark][0 := last];
    RootReplaced(s[..mark], last);
    assert s'[mark..] == v[mark..][..n - mark] == moved[mark..][..n - mark] == s[mark..n];
  }

  /** The first child of the hole, or the second one if that is higher. */
  ghost predicate IsTarget<T(!new)>(less: Less<T>, d: seq<T>, n: nat, hole: nat, target: nat) {
    && n <= |d| && 2 * hole + 1 < n
    && target == if 2 * hole + 2 < n && less(d[2 * hole + 1], d[2 * hole + 2]) then 2 * hole + 2 else 2 * hole + 1
  }

  /** `v` is s with its last element in place of its root, except that elements have moved up and made
      room for it at `hole`. */
  ghost predicate Sunk<T(!new)>(less: Less<T>, s: seq<T>, mark: nat, v: seq<T>, hole: nat) {
    && s != [] && mark <= |s| == |v| && hole < |s| && (mark > 0 ==> hole < mark)
    && HeapBelow(less, v, mark, hole)
    && multiset(v[..mark]) == multiset(s[0 := s[|s| - 1]][..mark])
    && v[mark..] == s[0 := s[|s| - 1]][mark..]
  }

  /** The state of reheap's loop: the last element, which will fill the hole, is still at its place. */
  ghost predicate Sinking<T(!new)>(less: Less<T>, s: seq<T>, mark: nat, d: seq<T>, hole: nat) {
    && s != [] && |s| == |d| && hole < |d| && d[|d| - 1] == s[|s| - 1]
    && Sunk(less, s, mark, d[hole := s[|s| - 1]], hole)
  }

  lemma SinkingStarts<T(!new)>(less: Less<T>, s: seq<T>, mark: nat)
    requires s != [] && mark <= |s| && Heap(less, s, mark)
    ensures Sinking(less, s, mark, s, 0)
  {
    var v := s[0 := s[|s| - 1]];
    forall i | 1 <= i < mark ensures FitsBelow(less, v, i, 0) {
      assert Fits(less, s, i);
    }
  }

  lemma TargetIsHighest<T(!new)>(less: Less<T>, d: seq<T>, n: nat, hole: nat, target: nat, i: nat)
    requires StrictWeak(less) && IsTarget(less, d, n, hole, target) && 1 <= i < n && ParentOf(i) == hole
    ensures !less(d[target], d[i])
  {
    assert i == 2 * hole + 1 || i == 2 * hole + 2;
  }

  lemma SinkingStep<T(!new)>(less: Less<T>, s: seq<T>, mark: nat, d: seq<T>, hole: nat, target: nat)
    requires StrictWeak(less) && Sinking(less, s, mark, d, hole)
    requires IsTarget(less, d, mark, hole, target) && !less(d[target], s[|s| - 1])
    ensures Sinking(less, s, mark, d[hole := d[target]], target)
  {
    var v := SwapSinks(less, s, mark, d, hole, target);
    hide StrictWeak, Sunk, Swap;
    MovedIsSwap(d, s[|s| - 1], hole, target);
  }

  /** The same with the last element already in the hole: it is swapped with the target. */
  lemma SwapSinks<T(!new)>(less: Less<T>, s: seq<T>, mark: nat, d: seq<T>, hole: nat, target: nat) returns (v: seq<T>)
    requires StrictWeak(less) && Sinking(less, s, mark, d, hole)
    requires IsTarget(less, d, mark, hole, target) && !less(d[target], s[|s| - 1])
    ensures |s| == |d| && v == d[hole := s[|s| - 1]] && Sunk(less, s, mark, Swap(v, hole, target), target)
  {
    hide StrictWeak, FitsBelow;
    v := d[hole := s[|s| - 1]];
    forall i | 1 <= i < mark && ParentOf(i) == hole ensures !less(v[target], v[i]) {
      TargetIsHighest(less, d, mark, hole, target, i);
    }
    SiftDown(less, v, mark, hole, target);
    SwapKeeps(v, hole, target, mark);
    NowSunk(less, s, mark, v, Swap(v, hole, target), hole, target);
  }

  lemma NowSunk<T(!new)>(less: Less<T>, s: seq<T>, mark: nat, v: seq<T>, v': seq<T>, hole: nat, target: nat)
    requires Sunk(less, s, mark, v, hole) && |v'| == |v| && target < mark && HeapBelow(less, v', mark, target)
    requires multiset(v'[..mark]) == multiset(v[..mark]) && v'[mark..] == v[mark..]
    ensures Sunk(less, s, mark, v', target)
  {
    hide HeapBelow;
  }

  /** The loop ends where the last element is below no child of the hole. */
  ghost predicate Sunken<T(!new)>(less: Less<T>, s: seq<T>, mark: nat, d: seq<T>, hole: nat) {
    && Sinking(less, s, mark, d, hole)
    && (2 * hole + 1 < mark ==>
          exists target: nat :: IsTarget(less, d, mark, hole, target) && less(d[target], d[|d| - 1]))
  }

  lemma SinkingEnds<T(!new)>(less: Less<T>, s: seq<T>, mark: nat, d: seq<T>, hole: nat)
    requires StrictWeak(less) && Sunken(less, s, mark, d, hole)
    ensures Reheaped(less, s, mark, d[hole := d[|d| - 1]][..|d| - 1], if mark < |d| then mark else |d| - 1)
  {
    var x := s[|s| - 1];
    var v := d[hole := x];
    forall i | 1 <= i < mark ensures Fits(less, v, i) {
      assert FitsBelow(less, v, i, hole);
      if ParentOf(i) == hole {
        var target: nat :| IsTarget(less, d, mark, hole, target) && less(d[target], x);
        TargetIsHighest(less, d, mark, hole, target, i);
      }
    }
    ReheapDone(less, s, mark, v);
  }

  class ConcurrentPriorityQueue<T(!new)> {
    const less: Less<T>
    var data: seq<T>
    var mark: nat
    var mySize: nat
    /** The serial history of all operations handled so far. */
    ghost var history: seq<Call<T>>

    /** Between batches the data is a heap, and it holds what the serial history leaves. */
    ghost predicate Valid()
      reads this
    {
      && StrictWeak(less) && mark == |data| == mySize && Heap(less, data, mark)
      && Legal(less, multiset{}, history) && After(multiset{}, history) == multiset(data)
    }

    /** Builds the queue from the elements of a range. */
    constructor (less: Less<T>, elems: seq<T>)
      requires StrictWeak(less)
      ensures Valid() && this.less == less && multiset(data) == multiset(elems) && history == Pushes(elems)
    {
      this.less := less;
      this.mark := 0;
      this.data := elems;
      this.mySize := 0;
      this.history := Pushes(elems);
      new;
      Heapify();
      mySize := |data|;
      PushesLegal(less, elems);
    }

    /** Merges the unsorted elements into the heap. */
    method Heapify()
      requires StrictWeak(less) && mark <= |data| && Heap(less, data, mark)
      modifies this`data, this`mark
      ensures mark == |data| == old(|data|) && Heap(less, data, mark)
      ensures multiset(data) == multiset(old(data))
    {
      if mark == 0 && |data| > 0 { mark := 1; }
      while mark < |data|
        invariant mark <= |data| == old(|data|) && (|data| > 0 ==> mark > 0)
        invariant Heap(less, data, mark) && multiset(data) == multiset(old(data))
      {
        SiftLastUp();
      }
    }

    /** One round of heapify's loop: the element at `mark` is pushed up the heap. */
    method SiftLastUp()
      requires StrictWeak(less) && 0 < mark < |data| && Heap(less, data, mark)
      modifies this`data, this`mark
      ensures |data| == old(|data|) && mark == old(mark) + 1 && Heap(less, data, mark)
      ensures multiset(data) == multiset(old(data))
    {
      var curPos, toPlace := mark, data[mark];
      assert data[curPos := toPlace] == data;
      while curPos != 0
        invariant 0 <= curPos <= mark < |data| == old(|data|) && mark == old(mark)
        invariant HeapAbove(less, data[curPos := toPlace], mark + 1, curPos)
        invariant multiset(data[curPos := toPlace]) == multiset(old(data))
      {
        var parent := ParentOf(curPos);
        if !less(data[parent], toPlace) { break; }
        SiftUp(less, data[curPos := toPlace], mark + 1, curPos);
        MovedIsSwap(data, toPlace, curPos, parent);
        data := data[curPos := data[parent]];
        curPos := parent;
      }
      data := data[curPos := toPlace];
      mark := mark + 1;
      forall i | 1 <= i < mark ensures Fits(less, data, i) {
        assert FitsAbove(less, data, i, curPos);
      }
    }

    /** The loop of reheap: elements move up until there is room for the last one at `curPos`. */
    method MoveUp() returns (curPos: nat)
      requires StrictWeak(less) && data != [] && mark <= |data| && Heap(less, data, mark)
      modifies this`data
      ensures Sunken(less, old(data), mark, data, curPos)
    {
      hide Sunk, Heap;
      var child := 1;
      curPos := 0;
      SinkingStarts(less, data, mark);
      while child < mark
        invariant |data| == |old(data)|
        invariant child == 2 * curPos + 1 && 0 <= curPos < |data|
        invariant Sinking(less, old(data), mark, data, curPos)
      {
        var target := child;
        if child + 1 < mark && less(data[child], data[child + 1]) { target := target + 1; }
        if less(data[target], data[|data| - 1]) { break; }
        SinkingStep(less, old(data), mark, data, curPos, target);
        data := data[curPos := data[target]];
        curPos := target;
        child := 2 * curPos + 1;
      }
    }

    /** Extracts the root by pushing the last element down the heap from the root. */
    method Reheap()
      requires StrictWeak(less) && data != [] && mark <= |data| && Heap(less, data, mark)
      modifies this`data, this`mark
      ensures Reheaped(less, old(data), old(mark), data, mark)
    {
      hide Sunk, IsTarget, Reheaped, Heap;
      var curPos := MoveUp();
      SinkingEnds(less, old(data), mark, data, curPos);
      if curPos != |data| - 1 {
        data := data[curPos := data[|data| - 1]];
      }
      data := data[..|data| - 1];
      if mark > |data| { mark := |data|; }
    }

    // ---------------------------------------------------------------- a batch of operations

    /** The bookkeeping p describes the queue in the middle of a batch. */
    ghost predicate Tracks(p: Progress<T>, results: seq<Result<T>>)
      reads this
    {
      ProgressOk(p) && p.less == less && p.data == data && p.mark == mark && mySize == |data| && p.results == results
    }

    /** The first pass answers every push, and each pop for which the last pushed element is above the root;
        it postpones the other pops. */
    method FirstPass(ops: seq<Op<T>>, outOfMemory: seq<bool>)
      returns (results: seq<Result<T>>, popList: seq<nat>, ghost p: Progress<T>)
      requires Valid() && |outOfMemory| == |ops|
      modifies this`data, this`mySize
      ensures Tracks(p, results) && p.ops == ops && p.bag == multiset(old(data)) && p.seen == |ops| && p.pops == popList
      ensures PushesAnswered(ops, results, outOfMemory, |ops|)
    {
      hide ProgressOk, PushesAnswered;
      results, popList := seq(|ops|, i => Waiting), [];
      NoneAnswered(ops, results, outOfMemory);
      p := Progress(less, ops, results, multiset(data), [], [], [], [], data, mark, 0);
      ProgressStarts(p);
      var i := 0;
      while i < |ops|
        invariant 0 <= i <= |ops| && p.seen == i && p.ops == ops && p.bag == multiset(old(data)) && p.pops == popList
        invariant Tracks(p, results) && |results| == |ops| && PushesAnswered(ops, results, outOfMemory, i)
      {
        ghost var before := results;
        results, popList, p := SeeOperation(ops[i], i, outOfMemory[i], results, popList, p);
        NextAnswered(ops, before, results, outOfMemory, i);
        i := i + 1;
      }
    }

    /** The first pass on the i-th operation. */
    method SeeOperation(op: Op<T>, i: nat, outOfMemory: bool, results: seq<Result<T>>, popList: seq<nat>, ghost p: Progress<T>)
      returns (results': seq<Result<T>>, popList': seq<nat>, ghost q: Progress<T>)
      requires Tracks(p, results) && p.seen == i < |p.ops| == |results| && p.ops[i] == op && p.pops == popList
      modifies this`data, this`mySize
      ensures Tracks(q, results') && q.ops == p.ops && q.bag == p.bag && q.seen == i + 1 && q.pops == popList'
      ensures |results'| == |results| && forall k :: 0 <= k < i ==> results'[k] == results[k]
      ensures op.PushOp? ==> results'[i] == if outOfMemory then OutOfMemory else Pushed
      ensures op.PopOp? && mark < old(|data|) && old(less(data[0], data[|data| - 1])) ==>
                results'[i] == Got(old(data[|data| - 1])) && popList' == popList && data == old(data[..|data| - 1])
      ensures op.PopOp? && !(mark < old(|data|) && old(less(data[0], data[|data| - 1]))) ==>
                results' == results && popList' == [i] + popList && data == old(data)
    {
      hide ProgressOk;
      results', popList' := results, popList;
      if op.PopOp? {
        if mark < |data| && less(data[0], data[|data| - 1]) {
          q := PopTailSeen(p);
          results' := results[i := Got(data[|data| - 1])];
          mySize := mySize - 1;
          data := data[..|data| - 1];
        } else {
          q := Postpone(p);
          popList' := [i] + popList;
        }
      } else if outOfMemory {
        q := PushFails(p);
        results' := results[i := OutOfMemory];
      } else {
        q := PushSeen(p);
        data := data + [op.elem];
        mySize := mySize + 1;
        results' := results[i := Pushed];
      }
    }

    /** A postponed pop: its answer is the last pushed element if that is above the root, else the root. */
    method AnswerPop(ghost p: Progress<T>) returns (answer: Result<T>, ghost q: Progress<T>)
      requires Tracks(p, p.results) && p.pops != []
      modifies this`data, this`mySize, this`mark
      ensures AnsweredPop(p, q, answer) && Tracks(q, q.results)
    {
      hide ProgressOk;
      if data == [] {
        q := PopNothing(p);
        answer := Empty;
      } else if mark < |data| && less(data[0], data[|data| - 1]) {
        q := PopTailPostponed(p);
        answer := Got(data[|data| - 1]);
        mySize := mySize - 1;
        data := data[..|data| - 1];
      } else {
        answer, q := ExtractTop(p);
      }
    }

    /** Extracts the root and pushes the last element down the heap. */
    method ExtractTop(ghost p: Progress<T>) returns (answer: Result<T>, ghost q: Progress<T>)
      requires Tracks(p, p.results) && p.pops != [] && data != []
      modifies this`data, this`mySize, this`mark
      ensures AnsweredPop(p, q, answer) && answer == Got(old(data[0])) && Tracks(q, q.results)
    {
      answer := Got(data[0]);
      mySize := mySize - 1;
      Reheap();
      q := PopByReheap(p, data, mark);
    }

    /** The second pass answers the postponed pops, the latest first. */
    method SecondPass(given: seq<Result<T>>, postponed: seq<nat>, ghost q: Progress<T>)
      returns (results: seq<Result<T>>, ghost p: Progress<T>)
      requires Tracks(q, given) && q.pops == postponed
      modifies this`data, this`mySize, this`mark
      ensures Tracks(p, results) && p.ops == q.ops && p.bag == q.bag && p.seen == q.seen && p.pops == []
      ensures |results| == |given|
      ensures forall i :: 0 <= i < |given| && i < |q.ops| && q.ops[i].PushOp? ==> results[i] == given[i]
    {
      hide ProgressOk;
      var popList := postponed;
      results, p := given, q;
      while popList != []
        invariant Tracks(p, results) && p.ops == q.ops && p.bag == q.bag && p.seen == q.seen && p.pops == popList
        invariant |results| == |given|
        invariant forall i :: 0 <= i < |given| && i < |q.ops| && q.ops[i].PushOp? ==> results[i] == given[i]
        decreases |popList|
      {
        var tmp := popList[0];
        popList := popList[1..];
        var answer;
        answer, p := AnswerPop(p);
        results := results[tmp := answer];
      }
    }

    /** Runs a batch of operations; `outOfMemory` says which pushes find no memory.  The answers are those
        of a plain priority queue that runs the operations one at a time in the order `order`. */
    method HandleOperations(ops: seq<Op<T>>, outOfMemory: seq<bool>)
      returns (results: seq<Result<T>>, ghost order: seq<nat>, ghost calls: seq<Call<T>>)
      requires Valid() && |outOfMemory| == |ops|
      modifies this
      ensures Valid()
      ensures |results| == |ops| && PushesAnswered(ops, results, outOfMemory, |ops|)
      ensures multiset(order) == multiset(Upto(|ops|)) && OrderOk(ops, results, order, calls)
      ensures Legal(less, multiset(old(data)), calls) && After(multiset(old(data)), calls) == multiset(data)
      ensures history == old(history) + calls
    {
      hide ProgressOk, OrderOk, After, Legal, Heap, Upto;
      var given, popList;
      ghost var p;
      given, popList, p := FirstPass(ops, outOfMemory);
      results, p := SecondPass(given, popList, p);
      order, calls := BatchEnds(p);
      if mark < |data| { Heapify(); }
      Concat(less, multiset{}, history, calls);
      history := history + calls;
    }
  }
}
