/** concurrent_lru_cache.  Its aggregator runs the serial operations one at a time, so each of them is a
    method of a serial object; a call that has to compute the value does so between two of them. */
module LruCache {
  type Key = int

  /** map_value_type: `listed` says that the list iterator is not at the end. */
  datatype Entry<V> = Entry(value: V, refs: nat, listed: bool, ready: bool)

  function Without(s: seq<Key>, k: Key): (r: seq<Key>)
    ensures forall x :: x in r <==> x in s && x != k
    ensures k !in s ==> r == s
    ensures |r| <= |s|
  {
    if s == [] then [] else if s[0] == k then Without(s[1..], k) else [s[0]] + Without(s[1..], k)
  }

  /** The list is in the order of release, most recent first. */
  ghost predicate Ordered(history: seq<Key>, released: map<Key, nat>) {
    && (forall i :: 0 <= i < |history| ==> history[i] in released)
    && (forall i, j :: 0 <= i < j < |history| ==> released[history[j]] < released[history[i]])
  }

  lemma ConsOrdered(k: Key, rest: seq<Key>, released: map<Key, nat>)
    requires Ordered(rest, released) && k in released
    requires forall x | x in rest :: x in released && released[x] < released[k]
    ensures Ordered([k] + rest, released)
  {
    var all := [k] + rest;
    forall i, j | 0 <= i < j < |all| ensures released[all[j]] < released[all[i]] {
      assert all[j] == rest[j - 1] && all[j] in rest;
      if i > 0 { assert all[i] == rest[i - 1]; }
    }
  }

  lemma TailOrdered(history: seq<Key>, released: map<Key, nat>)
    requires Ordered(history, released) && history != []
    ensures Ordered(history[1..], released)
    ensures forall x | x in history[1..] :: x in released && released[x] < released[history[0]]
  {
    forall x | x in history[1..] ensures x in released && released[x] < released[history[0]] {
      var i :| 0 <= i < |history[1..]| && history[1..][i] == x;
      assert history[i + 1] == x;
    }
  }

  lemma {:induction false} WithoutOrdered(history: seq<Key>, released: map<Key, nat>, k: Key)
    requires Ordered(history, released)
    ensures Ordered(Without(history, k), released)
    decreases |history|
  {
    hide Ordered;
    if history != [] {
      TailOrdered(history, released);
      WithoutOrdered(history[1..], released, k);
      InOrdered(history, released, 0);
      if history[0] != k { ConsOrdered(history[0], Without(history[1..], k), released); }
    } else {
      EmptyOrdered(released);
    }
  }

  lemma EmptyOrdered(released: map<Key, nat>)
    ensures Ordered([], released)
  {
  }

  lemma InOrdered(history: seq<Key>, released: map<Key, nat>, i: nat)
    requires Ordered(history, released) && i < |history|
    ensures history[i] in released
  {
  }

  /** Without its last element, which has the earliest time, the list is still in order. */
  lemma FrontOrdered(history: seq<Key>, released: map<Key, nat>)
    requires Ordered(history, released) && history != []
    ensures var n := |history| - 1;
            && Ordered(history[..n], released) && history[n] !in history[..n] && history[n] in released
            && forall x | x in history && x != history[n] :: x in released && released[history[n]] < released[x]
  {
  }

  lemma PushOrdered(history: seq<Key>, released: map<Key, nat>, k: Key, clock: nat)
    requires Ordered(history, released) && k !in history && forall x | x in released :: released[x] < clock
    ensures Ordered([k] + history, released[k := clock])
  {
    var released' := released[k := clock];
    forall x | x in history ensures x in released' && released'[x] == released[x] && released'[x] < clock {
      var i :| 0 <= i < |history| && history[i] == x;
    }
    assert Ordered(history, released');
    ConsOrdered(k, history, released');
  }

  class LruCache<V> {
    const limit: nat
    const compute: Key -> V
    const noValue: V
    var storage: map<Key, Entry<V>>
    /** The keys of unused entries, the most recently released first. */
    var history: seq<Key>
    /** The handles that exist, or will when the value is there; and when each key was last released. */
    ghost var handles: multiset<Key>
    ghost var released: map<Key, nat>
    ghost var clock: nat

    ghost predicate Valid()
      reads this
    {
      && |history| <= limit
      && Ordered(history, released) && (forall k | k in released :: released[k] < clock)
      && (forall k :: k in history <==> k in storage && storage[k].refs == 0)
      && (forall k | k in storage :: EntryOk(k))
      && (forall k | k in handles :: k in storage)
    }

    /** An entry counts its handles; it is listed exactly if it has none; its value, once it is ready,
        is the computed one, and it is not given up before. */
    ghost predicate EntryOk(k: Key)
      requires k in storage
      reads this
    {
      var e := storage[k];
      e.refs == handles[k] && (e.listed <==> k in history) && (e.ready ==> e.value == compute(k)) && (e.refs == 0 ==> e.ready)
    }

    constructor (compute: Key -> V, limit: nat, noValue: V)
      ensures Valid() && this.limit == limit && this.compute == compute && storage == map[] && history == []
      ensures handles == multiset{} && released == map[]
    {
      this.compute, this.limit, this.noValue := compute, limit, noValue;
      storage, history, handles, released, clock := map[], [], multiset{}, map[], 0;
    }

    /** Finds or makes the entry of a key and takes a reference.  Exactly the caller that finds no entry
        is told to compute the value. */
    method RetrieveSerial(k: Key) returns (isNewValueNeeded: bool)
      requires Valid()
      modifies this`storage, this`history, this`handles
      ensures Valid() && handles == old(handles) + multiset{k}
      ensures isNewValueNeeded <==> k !in old(storage)
      ensures storage.Keys == old(storage).Keys + {k} && history == Without(old(history), k)
      ensures storage[k] == (if k in old(storage) then old(storage)[k] else Entry(noValue, 0, false, false))
                            .(refs := handles[k], listed := false)
      ensures forall x | x in old(storage) && x != k :: storage[x] == old(storage)[x]
    {
      hide Ordered, Without;
      isNewValueNeeded := false;
      WithoutOrdered(history, released, k);
      if k !in storage {
        storage := storage[k := Entry(noValue, 0, false, false)];
        isNewValueNeeded := true;
      } else if storage[k].listed {
        history := Without(history, k);
        storage := storage[k := storage[k].(listed := false)];
      }
      storage := storage[k := storage[k].(refs := storage[k].refs + 1)];
      handles := handles + multiset{k};
      assert history == Without(old(history), k);
      assert k in old(storage) ==> old(EntryOk(k));
      assert EntryOk(k);
      forall x | x in storage && x != k ensures EntryOk(x) { assert old(EntryOk(x)); }
    }

    /** The caller that was told to computes the value, which the others wait for. */
    method ComputeValue(k: Key)
      requires Valid() && k in storage && !storage[k].ready
      modifies this`storage
      ensures Valid() && storage == old(storage)[k := old(storage)[k].(value := compute(k), ready := true)]
    {
      storage := storage[k := storage[k].(value := compute(k), ready := true)];
    }

    /** The value a handle gives access to. */
    function Value(k: Key): (v: V)
      requires Valid() && k in handles && storage[k].ready
      reads this
      ensures v == compute(k)
    {
      assert EntryOk(k);
      storage[k].value
    }

    /** Drops a reference.  An entry without references goes to the front of the list, and if that is full
        the entry that has been unused for longest is given up.  `defined` is false if the last element of an
        empty list is asked for: then nothing is known of what follows. */
    method SignalEndOfUsageSerial(k: Key) returns (defined: bool)
      requires Valid() && k in handles && storage[k].ready
      modifies this
      ensures defined <==> limit > 0 || old(handles)[k] > 1
      ensures defined ==> Valid() && handles == old(handles) - multiset{k} && k in storage
      ensures defined && handles[k] > 0 ==> history == old(history) && storage.Keys == old(storage).Keys
      ensures defined && handles[k] == 0 && |old(history)| < limit ==>
                history == [k] + old(history) && storage.Keys == old(storage).Keys
      ensures defined && handles[k] == 0 && |old(history)| == limit ==>
                && history == [k] + old(history)[..limit - 1]
                && storage.Keys == old(storage).Keys - {old(history)[limit - 1]}
                && forall x | x in old(history)[..limit - 1] ::
                     x in old(released) && old(history)[limit - 1] in old(released)
                     && old(released)[old(history)[limit - 1]] < old(released)[x]
      ensures defined ==> storage[k] == old(storage)[k].(refs := handles[k], listed := handles[k] == 0)
      ensures defined ==> forall x | x in storage && x != k :: storage[x] == old(storage)[x]
    {
      DropReference(k);
      if storage[k].refs == 0 {
        if |history| >= limit {
          defined := EvictLast(k);
          if !defined { return; }
        }
        PushFront(k);
      }
      defined := true;
    }

    /** All is well except that k, which has no references, is not yet in the list. */
    ghost predicate ValidBut(k: Key)
      reads this
    {
      && |history| <= limit
      && Ordered(history, released) && (forall x | x in released :: released[x] < clock)
      && (forall x :: x in history <==> x in storage && x != k && storage[x].refs == 0)
      && (forall x | x in storage :: EntryOk(x)) && k in storage && storage[k].refs == 0
      && (forall x | x in handles :: x in storage)
    }

    method DropReference(k: Key)
      requires Valid() && k in handles && storage[k].ready
      modifies this`storage, this`handles
      ensures handles == old(handles) - multiset{k} && storage.Keys == old(storage).Keys
      ensures k in storage && (if handles[k] == 0 then ValidBut(k) else Valid())
      ensures storage[k] == old(storage)[k].(refs := handles[k])
      ensures forall x | x in storage && x != k :: storage[x] == old(storage)[x]
    {
      assert EntryOk(k);
      storage := storage[k := storage[k].(refs := storage[k].refs - 1)];
      handles := handles - multiset{k};
    }

    method PushFront(k: Key)
      requires ValidBut(k) && |history| < limit
      modifies this`storage, this`history, this`released, this`clock
      ensures Valid() && history == [k] + old(history) && storage.Keys == old(storage).Keys
      ensures storage[k] == old(storage)[k].(listed := true)
      ensures forall x | x in storage && x != k :: storage[x] == old(storage)[x]
    {
      PushOrdered(history, released, k, clock);
      history := [k] + history;
      released, clock := released[k := clock], clock + 1;
      storage := storage[k := storage[k].(listed := true)];
    }

    /** Evicts as many items as are too many for one more, which is one: the one released first.  There is one
        if and only if the list may have items at all. */
    method EvictLast(ghost k: Key) returns (defined: bool)
      requires ValidBut(k) && |history| >= limit
      modifies this`storage, this`history
      ensures defined <==> limit > 0
      ensures defined ==> ValidBut(k) && |old(history)| == limit
      ensures defined ==> history == old(history)[..limit - 1] && storage == old(storage) - {old(history)[limit - 1]}
      ensures defined ==> old(history)[limit - 1] in released
      ensures defined ==> forall x | x in history :: x in released && released[old(history)[limit - 1]] < released[x]
      ensures !defined ==> history == [] && storage == old(storage)
    {
      hide Ordered;
      if history != [] { FrontOrdered(history, released); }
      var n := 1 + |history| - limit;
      var i := 0;
      while i < n
        invariant i <= n == 1 && (i > 0 ==> limit > 0)
        invariant if i == 0 then history == old(history) && storage == old(storage)
                  else history == old(history)[..limit - 1] && storage == old(storage) - {old(history)[limit - 1]}
      {
        if history == [] { return false; }
        var toEvict := history[|history| - 1];
        history := history[..|history| - 1];
        storage := storage - {toEvict};
        i := i + 1;
      }
      defined := true;
    }
  }

  // ---------------------------------------------------------------- sequences of calls

  datatype Call = Retrieve(key: Key) | Compute(key: Key) | Signal(key: Key)

  /** What a call does to entries that it does not evict: a value that is ready stays, and stays ready. */
  ghost predicate KeepsValues<V(!new)>(before: map<Key, Entry<V>>, after: map<Key, Entry<V>>) {
    forall x | x in before && x in after :: before[x].ready ==> after[x].ready && after[x].value == before[x].value
  }

  /** An entry is in the cache from its i-th state up to its j-th. */
  ghost predicate NotEvicted<V>(states: seq<map<Key, Entry<V>>>, i: nat, j: nat, x: Key) {
    i <= j < |states| && forall l :: i <= l <= j ==> x in states[l]
  }

  lemma {:induction false} ReadyStays<V(!new)>(states: seq<map<Key, Entry<V>>>, i: nat, j: nat, x: Key)
    requires forall l :: 0 <= l < |states| - 1 ==> KeepsValues(states[l], states[l + 1])
    requires NotEvicted(states, i, j, x) && states[i][x].ready
    ensures states[j][x].ready && states[j][x].value == states[i][x].value
    decreases j
  {
    if i < j {
      ReadyStays(states, i, j - 1, x);
      assert KeepsValues(states[j - 1], states[j]);
    }
  }

  /** Makes the calls one after the other, leaving out those that nobody may make; they end early if one is not
      defined.  Whatever the calls, an entry that has once been ready is so, with its value, until it is evicted. */
  method Perform<V(!new)>(cache: LruCache<V>, calls: seq<Call>) returns (ghost states: seq<map<Key, Entry<V>>>, defined: bool)
    requires cache.Valid()
    modifies cache
    ensures defined ==> cache.Valid() && |states| == |calls| + 1
    ensures cache.limit > 0 ==> defined
    ensures forall i: nat, j: nat, x :: NotEvicted(states, i, j, x) && states[i][x].ready ==>
              states[j][x].ready && states[j][x].value == states[i][x].value == cache.compute(x)
  {
    states, defined := [cache.storage], true;
    for i := 0 to |calls|
      invariant cache.Valid() && |states| == i + 1 && states[i] == cache.storage
      invariant forall l :: 0 <= l < i ==> KeepsValues(states[l], states[l + 1])
      invariant forall l, x :: 0 <= l <= i && x in states[l] && states[l][x].ready ==> states[l][x].value == cache.compute(x)
    {
      defined := MakeCall(cache, calls[i]);
      if !defined { break; }
      assert forall x | x in cache.storage :: cache.EntryOk(x);
      states := states + [cache.storage];
    }
    forall i: nat, j: nat, x | NotEvicted(states, i, j, x) && states[i][x].ready
      ensures states[j][x].ready && states[j][x].value == states[i][x].value == cache.compute(x)
    {
      ReadyStays(states, i, j, x);
    }
  }

  method MakeCall<V(!new)>(cache: LruCache<V>, call: Call) returns (defined: bool)
    requires cache.Valid()
    modifies cache
    ensures defined ==> cache.Valid() && KeepsValues(old(cache.storage), cache.storage)
    ensures cache.limit > 0 ==> defined
  {
    defined := true;
    match call {
      case Retrieve(k) => var _ := cache.RetrieveSerial(k);
      case Compute(k) => if k in cache.storage && !cache.storage[k].ready { cache.ComputeValue(k); }
      case Signal(k) =>
        if k in cache.storage && cache.storage[k].refs > 0 && cache.storage[k].ready {
          assert cache.EntryOk(k);
          defined := cache.SignalEndOfUsageSerial(k);
        }
    }
  }

  /** A cache that keeps no history asks for the last element of its empty list when the last handle goes. */
  method PopsEmptyList(compute: Key -> nat, k: Key) returns (defined: bool)
    ensures !defined
  {
    var cache := new LruCache<nat>(compute, 0, 0);
    var needed := cache.RetrieveSerial(k);
    assert k !in multiset{} + multiset{} && cache.handles[k] == 1;
    cache.ComputeValue(k);
    defined := cache.SignalEndOfUsageSerial(k);
  }
}
