# Threading Building Blocks: models and proofs of the algorithms in its headers

The headers of the library contain complete concurrent algorithms whose correctness rests on invariants
that no single function shows. This project models eleven of them and proves what they are for.

- **`concurrent_hash_map`, concurrent operations** (`HashPaths`, `HashMapProtocol`, `HashMapInvariant`,
  `HashMapProof`, `HashMapTheorems`, `HashMapSolo`): a step system of any number of threads that find, insert and erase
  with stale masks, rehash buckets lazily and recursively under bucket locks, and grow the table. It is
  linearizable to a finite map, operations commit once and within their call, "not found" is decided only
  when the key is nowhere in the table, it cannot deadlock, and a call that runs alone completes with the map's answer
  (`HashMapSolo`). Runs begin on any table that serial or earlier concurrent
  operations have left, and end in such a table. `HashMapItems` is a step system of item locks, accessors and
  the deletion of nodes.
- **`concurrent_hash_map` in one thread** (`HashMapSerial`, `HashMapLazy`, `HashMapTable`, `HashMapIteration`): find, insert
  and erase with recursive lazy rehashing, reserve, serial rehash, lookup by walking up to parents, iterators and ranges,
  as classes with loops that refine a finite map.
- **`parallel_scan`** (`ScanModel`, `ScanFirst`, `ScanSecond`, `ScanTheorems`): both passes as a step system
  over the task tree, for every way of splitting and stealing and every schedule.
- **`concurrent_priority_queue`** (`QueueSpec`, `BatchProof`, `PriorityQueue`): the class with its batch handler;
  every batch is serializable, and the serial order is constructed.
- **The table of `enumerable_thread_specific`** (`EtsTable`, `EtsProof`, `EtsTheorems`, `EtsCopy`, `Pigeonhole`):
  a lock-free step system, and the copy as a class with loops.
- **`aggregator`** (`Aggregator`, `AggregatorProof`, `AggregatorTheorems`): the mailbox protocol as a step system.
- **Range pool and `parallel_reduce`** (`RangePool`, `Reduce`, `ReduceTheorems`): the circular buffer as a class, the
  partitioners' loop with free decisions, and the tasks and bodies of the reduction as a step system.
- **`concurrent_vector`, concurrent growth** (`VectorGrowth`, `VectorGrowthProof`, `VectorGrowthTheorems`): `push_back`, `grow_by`
  and `grow_to_at_least` by any number of threads as a step system, with segments allocated by whoever has reserved
  their first index, a first block shared by several segments, and the change from the short to the long table.
- **`concurrent_vector` in one thread** (`Segments`, `ConcurrentVector`): reserve, bulk assign, resize, compaction, release and
  the iterator that caches a pointer, as classes with loops over segments.
- **`affinity_partitioner`** (`Affinity`): how tasks divide the slots of the affinity array up, for all runs of a loop.
- **`limiter_node`** (`Limiter`): its attempts and messages as a step system.
- **`parallel_sort`** (`ParallelSort`) and **`concurrent_lru_cache`** (`LruCache`): in-place splitting on an array, and
  the cache as a class.

## How the models follow the code

In the step systems every load, store, lock operation or compare-and-swap that another thread can observe is
one step, steps interleave freely, and memory is sequentially consistent. Where two loads cannot be told apart
from one (a key slot that never changes once it is set, the double test before a claim) they are one step. What
the code leaves to a scheduler, to stealing, to the clock or to a contended lock is nondeterministic. Whatever a step
predicate does not model as enabled is a wait.

- `HashMapProtocol`: `include/tbb/concurrent_hash_map.h:629-639` (`StepProbe`, `StepTryLock`, `StepLock`, `StepRecheck`),
  `:647-677` (`StepRecheck` marks the bucket, `StepScan`, `StepScanUpgrade`, `StepRelock`, `StepMove`, `StepScanned`),
  `:1037-1113` and `:1165-1199` (`StepLoadMask`, `StepSearch`, `StepUpgrade`, `StepUpgradeWait`, `StepUnlink`),
  `:245-273` (`StepCheckMask`, `StepCheckBucket`), `:276-289` (`StepCount`, `StepLink`, `StepGrow`), `:199-222` (`StepPublish`).
  A mask `2^k - 1` is the number k; `h & mask` is `h % Pow2(k)`. An item lock that cannot be had restarts the call.
- `HashMapItems`: `include/tbb/concurrent_hash_map.h:1083-1099` (`Finds`, `TriesItem`), `:1143-1161` (`Excludes`, `Upgrades`, `Deletes`),
  `:1184-1198` (`Unlinks`, `GetsItem`, `Deletes`). A thread is one accessor or one call, so a thread of the program that holds
  several accessors counts as several.
- `ScanModel`: `include/tbb/parallel_scan.h:252-297` (`LeafStep`, `SplitStep`, `StolenStep`, `SharedStep`), `:152-169`
  (`FinishStep`), `:104-132` (`CreateChild`, `PendChildren`, `PendStore`), `:70-75` (`Leaf` in `Step2`), `:225-248` (`Next`).
- `Aggregator`: `include/tbb/aggregator.h:108-138` (`Load`, `Cas`, `Wait`), `:149-177` (`SpinBusy` to `Release`), `:73-88`
  (`Handle`, `Apply`, `Finish`). An operation is a local variable of its call, so its address is its thread's number,
  and a later call of the same thread uses the same address again.
- `EtsTable`: `include/tbb/enumerable_thread_specific.h:164-234`, one step for each program counter value.
- `VectorGrowth`: `src/tbb/concurrent_vector.cpp:438-448` and `:454-505` (`Reserve`, `StepLoadTable`, `Continue`, `StepConstruct`),
  `:76-91` (`StepSetFirst`), `:108-111` and `:214-238` (`StepTestTable` to `StepSwapTable`), `:120-135` (`StepAcquire`,
  `StepTestSlot`, `StepAwaitOwner`, `StepCheckSlot`), `:259-296` (`StepEnableTable` to `StepEnableOwn`), `:464-486`
  (`StepAwaitTable`, `StepAwaitSegments`).
- `Limiter`: `include/tbb/flow_graph.h:2484-2555` (`Decrement` to `ForwardEnds`) and `:2674-2700` (`PutStarts` to `PutEnds`).
- `Reduce`: `include/tbb/parallel_reduce.h:155-169` (`OfferStep`), `:151` (`RunStep`), `:182-198` (`BeginStep`, `EndStep`), `:65-75`
  (`JoinStep`).

In `ScanModel` and `Reduce` a body's state is the sequence of positions it has accumulated. Sequences are the free
monoid, so `ScanTheorems.Total` and `ReduceTheorems.Total` carry the results over to every associative join with an
identity. Comparators are strict weak orders.

## Where the code does not do what it says

- `rehash` asserts at its end that no bucket is left marked "rehash required"
  (`include/tbb/concurrent_hash_map.h:1245-1251`). This fails for a table that has such buckets, is empty, and grows:
  `reserve` then treats the new segment as an initial one (`:294-296`) and the scan of the last segment finds nothing to do.
  It fails again when `rehash` is called on what that leaves behind and does not have to grow it, even if there are entries by
  then. `HashMapTable.GrowingEmptyKeepsMarks` and `HashMapTable.ScanningLastKeepsMarks` reach such tables by the table's own
  operations. For every table that these operations can leave, `HashMapTable.HashMap.Rehash` states exactly when no bucket is
  left: if there was none before; or if the table grows and is not empty; or if it does not grow and a bucket of the last
  segment was marked. Every key is nevertheless where the mask says, as the second assertion (`:1256-1261`) has it.
- "Each array in the list is half the size of its predecessor" (`include/tbb/enumerable_thread_specific.h:98`) does not
  hold: `EtsTheorems.SizesMaySkip` reaches sizes 16 and 4. `EtsTheorems.SizesAtLeastDouble` and
  `EtsTheorems.DoublesExactly` state what holds, and exactly when the comment does.
- "NULL if and only if my_count==0" (`:97`) does not hold between a thread's increment and the first installation:
  `EtsTheorems.RootMayLag`, and `EtsTheorems.RootNullExactly` for the exact condition.
- A `concurrent_lru_cache` with a history of length 0 takes the last element of an empty list when the last handle to an
  entry goes (`include/tbb/concurrent_lru_cache.h:215-222`). `LruCache.PopsEmptyList` does so, and
  `LruCache.LruCache.SignalEndOfUsageSerial` states that this is the only case.
- Resizing a `concurrent_vector` of 8 elements to 8 looks at a slot that its segment table does not have. A resize that does not
  grow walks the segments from the one of the first element to be destroyed (`src/tbb/concurrent_vector.cpp:516-519`), and the walk
  looks at one slot even if there is nothing to destroy (`:160-166`). With a short table (3 slots) that is full this is the slot of
  index 3: `concurrent_vector<int> v(8); v.resize(8);` does it, and `ConcurrentVector.ResizeReadsPast` is that run.
  `ConcurrentVector.ConcurrentVector.InternalResize` states that this is the only case.
- A `limiter_node` whose successor sends its decrement message before the limiter has counted the item ignores the message,
  since `if(my_count) --my_count` (`include/tbb/flow_graph.h:2549-2555`) finds 0, and counts the item afterwards
  (`:2694-2698`). A part of the threshold is then lost for good: `Limiter.MessageBeforeCount` is a run in which a limiter with a
  threshold of 1 passes one item, and `Limiter.StuckForGood` shows that none passes after it. `Limiter.NoneLostExactly`
  states for every run that no message is lost if and only if the n-th message comes after the n-th item has been counted, and
  `Limiter.IgnoredAreLost` what the lost ones cost. The threshold is never exceeded.

## Model

| member | source | states |
|---|---|---|
| HashMapTheorems.Linearizable | include/tbb/concurrent_hash_map.h:1037-1113 | Along every run of find, insert and erase, begun on any table with entries that serial or concurrent operations left, the table stores exactly the entries of a map, each in one place, and the committed operations transform that map one at a time with the answers they got. |
| HashMapTheorems.StepRefines | include/tbb/concurrent_hash_map.h:624-677 | Every step of every thread keeps the invariant and is either invisible or one operation of the abstract map. |
| HashMapTheorems.RunInvariant | include/tbb/concurrent_hash_map.h:1037-1113 | The invariant holds in every state of every run, with the history of maps that goes with it, and with what `my_size` counts: the entries and the nodes about to be linked. |
| HashMapTheorems.RestStarts | include/tbb/concurrent_hash_map.h:1211-1240 | Whenever no operation is under way `my_size` is the number of the map's entries, no segment is claimed, and the table is one that any operations, serial or concurrent, may begin on; a table closed under parent stays so. |
| HashMapTheorems.SizeStep | include/tbb/concurrent_hash_map.h:276-280 | Every step keeps `my_size` equal to the number of entries plus that of the nodes counted and not yet linked. |
| HashMapTheorems.DoneGrows | include/tbb/concurrent_hash_map.h:647-677 | A finished bucket stays finished, and one gets finished only after its parent. |
| HashMapTheorems.LockedBucketStays | include/tbb/concurrent_hash_map.h:1185-1191 | While a thread has a bucket locked no other thread changes it: a node found there stays there, and whoever takes a node out does not meet another holder of the node's bucket. |
| HashMapTheorems.StepWritesHeld | include/tbb/concurrent_hash_map.h:647-677 | A step changes only buckets that its thread has locked for writing. |
| HashMapTheorems.CommitsOnce | include/tbb/concurrent_hash_map.h:1165-1199 | An operation commits inside its own call, at most once, and returns only after it has committed; its step changes no other thread. |
| HashMapTheorems.AbsentAtCheck | include/tbb/concurrent_hash_map.h:245-273 | When an operation passes the mask race check to report "not found" or to insert, its key is in no bucket of the whole table at that moment. |
| HashMapTheorems.NoDeadlock | include/tbb/concurrent_hash_map.h:629-639 | In every reachable state with an operation under way, some operation under way can take a step. |
| HashMapTheorems.SomeoneRuns | include/tbb/concurrent_hash_map.h:647-656 | Waiting for locks goes down bucket indices: from a waiting thread one comes to a thread that waits for none or whose lock is free. |
| HashMapTheorems.InvRepresents | include/tbb/concurrent_hash_map.h:1037-1113 | The invariant implies that the nodes are exactly the map's entries and each key is stored in just one place. |
| HashMapSolo.Completes | include/tbb/concurrent_hash_map.h:1037-1113 | From every reachable state a call under way can return by its own steps once the others have returned: it waits for nothing and need not begin again for ever. |
| HashMapSolo.ReturnsAnswer | include/tbb/concurrent_hash_map.h:1037-1113 | However a call that runs alone proceeds, when it returns it has answered what the map says (found with the value or not, inserted or there already, erased or not there), the map is what its operation makes of it, and a call run from its beginning leaves twice the buckets, the first time 256, if and only if its entry has filled the table. |
| HashMapSolo.OwnStepNears | include/tbb/concurrent_hash_map.h:624-677 | Whatever the others do, every step of a call lowers a lexicographic measure of how far it is from its return, unless a lookup cannot have its item and begins again: contended locks and upgrades only make it wait. |
| HashMapSolo.OthersKeepPace | include/tbb/concurrent_hash_map.h:624-677 | No step of another call raises that measure, unless it makes the table larger. |
| HashMapSolo.StartsOverFor | include/tbb/concurrent_hash_map.h:245-273 | A call looks at the table again only if it has found its key and cannot have the item, or if a bucket of its key's path beyond its mask has been rehashed. |
| HashMapSolo.ReadersShare | include/tbb/concurrent_hash_map.h:629-639 | Readers of a rehashed bucket do not exclude one another. |
| HashMapSolo.RunAlone | include/tbb/concurrent_hash_map.h:624-677 | The run to the return is as long as the measure allows, and the call need not begin again once in it. |
| HashMapSolo.GoalKept | include/tbb/concurrent_hash_map.h:276-289 | No step of a call that runs alone changes how many buckets the table is going to have when it returns. |
| HashMapTheorems.FullGrows | include/tbb/concurrent_hash_map.h:276-289 | In every run, if an insert makes the number of entries reach the mask it works with, the mask is longer whenever no operation is under way after that. |
| HashMapTheorems.PublishDoubles | include/tbb/concurrent_hash_map.h:199-222 | A thread with a segment to publish doubles the buckets, or makes them 256; the new ones are marked and the others stay as they are. |
| HashMapProof.AbsentEverywhere | include/tbb/concurrent_hash_map.h:245-273 | A key missing from a locked bucket below which no bucket of its path is rehashed is missing from the map: a deeper bucket would be filled under the same lock. |
| HashMapProof.GuardUnmarkedNext | include/tbb/concurrent_hash_map.h:254-273 | If the next applicable bucket after a stale mask is not rehashed, no deeper bucket of the key's path is, nor any bucket under one of them, although only that one was looked at and buckets below the mask may be rehashed without their parents. |
| HashMapProof.GuardSameCut | include/tbb/concurrent_hash_map.h:256-256 | If the stale and the current mask select the same bucket, the thread looks at the deepest rehashed bucket of its path. |
| HashMapProof.FinishIsHarmless | include/tbb/concurrent_hash_map.h:647-677 | While a writer holds the deepest rehashed bucket of its path, nobody can finish rehashing the next one. |
| HashMapProof.FillerHoldsParent | include/tbb/concurrent_hash_map.h:647-674 | A bucket that holds nodes but is still being filled has a thread that scans its parent under the write lock. |
| HashMapProof.ScannedPlaced | include/tbb/concurrent_hash_map.h:661-676 | After a whole scan of the parent every key of the new bucket's path is in the new bucket or deeper. |
| HashMapProof.MarkStep | include/tbb/concurrent_hash_map.h:650-656 | Marking a bucket rehashed before its nodes have arrived keeps the invariant. |
| HashMapProof.MoveStep | include/tbb/concurrent_hash_map.h:668-674 | Moving a node from the parent to the new bucket keeps the invariant and the map. |
| HashMapProof.ScannedStep | include/tbb/concurrent_hash_map.h:661-676 | Finishing a bucket keeps the invariant for all threads. |
| HashMapProof.CheckMaskStep | include/tbb/concurrent_hash_map.h:245-251 | Loading the mask in the race check keeps the invariant, and a commit made there agrees with the map. |
| HashMapProof.CheckBucketStep | include/tbb/concurrent_hash_map.h:254-273 | Looking at the next bucket in the race check keeps the invariant, and a commit made there agrees with the map. |
| HashMapProof.LinkStep | include/tbb/concurrent_hash_map.h:276-278 | Linking a node inserts a key that was absent. |
| HashMapProof.UnlinkStep | include/tbb/concurrent_hash_map.h:1185-1191 | Taking a node out erases a key that was present. |
| HashMapProof.PublishStep | include/tbb/concurrent_hash_map.h:199-222 | Publishing a longer mask keeps the invariant although other threads go on with older ones. |
| HashMapProof.GrowStep | include/tbb/concurrent_hash_map.h:280-287 | Claiming a segment keeps the invariant: only the newest mask has an unclaimed segment, so one thread at a time grows the table. |
| HashPaths.PathBetween | include/tbb/concurrent_hash_map.h:651-659 | The bucket indices that a hash code takes under growing masks form a chain in which a bucket's parent is the element before it. |
| HashPaths.PathParent | include/tbb/concurrent_hash_map.h:651-656 | Those chains are closed under taking parents. |
| HashPaths.NextOnPathIsNext | include/tbb/concurrent_hash_map.h:256-262 | The loop over mask bits in the race check finds the first bucket of the chain beyond the stale mask. |
| HashPaths.MaskIsLast | include/tbb/concurrent_hash_map.h:225-231 | `h & mask` is the last bucket of the chain below the mask. |
| HashMapSerial.SplittingStarts | include/tbb/concurrent_hash_map.h:1221-1229 | Marking the subtree of the root leaves every key in place except those of the root, and marks each bucket they may have to go to. |
| HashMapSerial.MarksClosed | include/tbb/concurrent_hash_map.h:234-241 | Marking a subtree keeps "rehashed" closed under parent. |
| HashMapSerial.SplitMoves | include/tbb/concurrent_hash_map.h:1230-1236 | Moving a node of the root to the bucket the mask selects keeps all others in place. |
| HashMapSerial.LastSegmentIsAll | include/tbb/concurrent_hash_map.h:1213-1217 | If the last segment is rehashed, and the parents of its buckets are, then every bucket is. |
| HashMapSerial.KeyInSelected | include/tbb/concurrent_hash_map.h:1256-1261 | Once the last segment is rehashed each key is in the bucket the mask selects for it, even if earlier buckets are not rehashed. |
| HashMapSerial.KeysStayClear | include/tbb/concurrent_hash_map.h:651-659 | However rehashing spreads from buckets to their children, nothing becomes rehashed below a key, on its path or beside it. |
| HashMapSerial.ClosedKeysClear | include/tbb/concurrent_hash_map.h:647-677 | In a table closed under parent, keys in place have nothing rehashed below them, on their path or beside it. |
| HashMapTable.HashMap.constructor | include/tbb/concurrent_hash_map.h:139-153 | A new table is empty and has at least the number of buckets asked for, none to be rehashed; from 256 on no more than the least power of two that is enough. |
| HashMapTable.HashMap.RunConcurrently | include/tbb/concurrent_hash_map.h:1037-1113 | Any run of concurrent operations on a valid table object that ends with nobody at work leaves a valid table object, whose map is the one the committed operations made of the old one: serial and concurrent phases may follow one another. |
| HashMapTable.HashMap.Reserve | include/tbb/concurrent_hash_map.h:292-297 | Reserving grows the table to at least n buckets, marks the new ones to be rehashed unless the table is empty, and moves no key; if it grows, the number of buckets is the least power of two from 256 on that is not below n. |
| HashMapTable.HashMap.EnableSegment | include/tbb/concurrent_hash_map.h:199-222 | Enabling a segment brings the buckets to 256 if there are fewer, and from then on exactly doubles them; it appends them and keeps the others. |
| HashMapTable.HashMap.MarkRehashedLevels | include/tbb/concurrent_hash_map.h:234-241 | Exactly the buckets under h that have no other rehashed ancestor become empty rehashed buckets; no other bucket changes. |
| HashMapTable.HashMap.SplitBucket | include/tbb/concurrent_hash_map.h:1230-1238 | The nodes of the root that belong elsewhere move; the map stays the same and every key is in place. |
| HashMapTable.HashMap.RehashRootOf | include/tbb/concurrent_hash_map.h:1221-1239 | A marked bucket is rehashed together with the subtree of its nearest rehashed ancestor; rehashed buckets stay so, others become so only with their parents, and no key is lost. |
| HashMapTable.HashMap.Rehash | include/tbb/concurrent_hash_map.h:1211-1240 | Serial rehash keeps the map and leaves every key where the mask selects it. No bucket is left to be rehashed if and only if there was none before, or the table grows and is not empty, or it does not grow and a bucket of its last segment was marked. |
| HashMapTable.GrowingEmptyKeepsMarks | include/tbb/concurrent_hash_map.h:292-297 | Inserting, erasing and rehashing a new table leave an empty table with marked buckets, although none is in the last segment. |
| HashMapTable.ScanningLastKeepsMarks | include/tbb/concurrent_hash_map.h:1217-1220 | After one more insertion rehash leaves the same buckets marked in a table that is not empty. |
| HashMapTable.AllLeadToLast | include/tbb/concurrent_hash_map.h:1217-1220 | The condition of `Rehash` without growth holds if and only if every marked bucket has a marked bucket of the last segment below it with nothing rehashed between them. |
| HashMapTable.HashMap.EqualRange | include/tbb/concurrent_hash_map.h:1117-1132 | The lookup that walks up to the nearest rehashed parent finds exactly the map's entry, without changing the table. |
| HashMapTable.HashMap.ScanLastSegment | include/tbb/concurrent_hash_map.h:1217-1240 | After the loop of rehash the last segment has no bucket to be rehashed, and nothing is rehashed without its parent; if it had none before, nothing changes at all. |
| HashMapTable.HashMap.RehashBucket | include/tbb/concurrent_hash_map.h:647-677 | Lazy rehashing ends, since a parent's index is smaller; it rehashes the bucket and any ancestors that have to be, keeps the map and every key in place, and disturbs no bucket that waits for it. |
| HashMapTable.HashMap.FillFromParent | include/tbb/concurrent_hash_map.h:661-676 | The nodes of the parent that belong to the new bucket move there, which closes it: every key is in the deepest rehashed bucket of its path again. |
| HashMapTable.HashMap.Acquire | include/tbb/concurrent_hash_map.h:629-639 | The accessor's bucket is rehashed, with buckets of the key's own path only, and holds the key if and only if the map does. |
| HashMapTable.HashMap.SearchBucket | include/tbb/concurrent_hash_map.h:615-621 | The search finds a node with the key if and only if the bucket holds one. |
| HashMapTable.HashMap.Find | include/tbb/concurrent_hash_map.h:1074-1081 | Find answers what the map says, and changes the table only by rehashing. |
| HashMapTable.HashMap.Insert | include/tbb/concurrent_hash_map.h:1053-1073 | Insert adds the entry if and only if the key is absent, leaves an existing entry alone, and grows the table when it has become full (to 256 buckets, later to twice as many). |
| HashMapTable.HashMap.Erase | include/tbb/concurrent_hash_map.h:1165-1199 | Erase removes the entry if and only if the key is present. |
| HashMapLazy.MarkOpens | include/tbb/concurrent_hash_map.h:650-650 | Marking a bucket before it is filled leaves every key in place except with respect to that bucket. |
| HashMapLazy.FillMoves | include/tbb/concurrent_hash_map.h:668-674 | Moving a node from the parent to the bucket that is being filled keeps all keys in place. |
| HashMapLazy.FillEnds | include/tbb/concurrent_hash_map.h:661-676 | After a whole scan of the parent every key is in place with respect to the new bucket, too. |
| HashMapItems.NeverDeleted | include/tbb/concurrent_hash_map.h:1086-1099 | In every interleaving of lookups, accessors, erase and exclude whoever refers to a node finds it not deleted. |
| HashMapItems.DeletedAlone | include/tbb/concurrent_hash_map.h:1193-1198 | A node is deleted when no other thread refers to it any more, so after the last accessor is gone. |
| HashMapItems.DeletedStays | include/tbb/concurrent_hash_map.h:1157-1161 | A node is deleted at most once, also when several threads erase or exclude it. |
| HashMapItems.DisposerProceeds | include/tbb/concurrent_hash_map.h:1157-1161 | Every node taken out has a thread that will delete it, which can go on as soon as no accessor holds the item. |
| HashMapItems.WriterAlone | include/tbb/concurrent_hash_map.h:1086-1099 | While an accessor holds an item for writing no other holds it. |
| HashMapItems.LetsGo | include/tbb/concurrent_hash_map.h:1083-1099 | Whoever has a bucket or an item locked can let go of it, whatever the others do: a lookup gives the bucket back if it cannot have the item, an upgrade releases before it waits. |
| HashMapItems.LooksUp | include/tbb/concurrent_hash_map.h:1083-1099 | A lookup gets its accessor if the item lock is free for its mode. |
| HashMapItems.EraseDeletes | include/tbb/concurrent_hash_map.h:1184-1198 | Erasing a node that nobody else refers to deletes it, by the steps of that call alone. |
| HashMapItems.ExcludeDeletes | include/tbb/concurrent_hash_map.h:1135-1161 | Excluding an item through its only accessor deletes the node, with a writer's accessor without any upgrade. |
| Segments.WizardTest | include/tbb/concurrent_hash_map.h:343-345 | `k & (k-2)` is zero, for k from 2 on, exactly for the powers of two. |
| Segments.NextInSegment | include/tbb/concurrent_hash_map.h:343-346 | Where that test finds no beginning of a segment, the next place in memory is that of the next bucket. |
| HashMapIteration.Iterator.AdvanceToNextBucket | include/tbb/concurrent_hash_map.h:340-354 | The iterator goes on to the next bucket with items; the items it has yet to come by are those of the following buckets. |
| HashMapIteration.Iterator.Increment | include/tbb/concurrent_hash_map.h:411-415 | Incrementing drops exactly the first of the items still to come. |
| HashMapIteration.Traverse | include/tbb/concurrent_hash_map.h:877-878 | The loop from begin to end comes by the items of all buckets in order. |
| HashMapIteration.VisitsEachOnce | include/tbb/concurrent_hash_map.h:340-354 | The traversal comes by every entry of the map exactly once, also when buckets have not been rehashed. |
| HashMapIteration.Range.SetMidpoint | include/tbb/concurrent_hash_map.h:488-505 | The midpoint is the first item from the middle bucket on, or the end for a range of at most the grain size; it is never at begin unless the range is empty. |
| HashMapIteration.Range.Split | include/tbb/concurrent_hash_map.h:455-464 | Splitting a divisible range gives two non-empty ranges whose traversals make up that of the original. |
| HashMapIteration.Range.IsDivisible | include/tbb/concurrent_hash_map.h:451-453 | A range can be split if and only if it has more buckets than the grain size and an item in the second half of them. |
| ScanTheorems.FinalScansAreRight | include/tbb/parallel_scan.h:252-297 | In every run each final scan starts from the ordered sum of everything to its left, and no position is scanned for good twice, across both passes. |
| ScanTheorems.RunEndsRight | include/tbb/parallel_scan.h:225-248 | When a run ends the user's body holds the whole range in order and every position has been scanned for good. |
| ScanTheorems.Total | include/tbb/parallel_scan.h:225-248 | For every associative join with an identity, final scans start from the serial loop's value and the user's body ends with its total. |
| ScanTheorems.NextKeeps | include/tbb/parallel_scan.h:252-297 | Every step of both passes keeps the invariant and scans for good only positions nobody has scanned, from the right sum. |
| ScanTheorems.NeverStuck | include/tbb/parallel_scan.h:225-248 | Every unfinished state of every run has a next one. |
| ScanTheorems.EveryStepProgresses | include/tbb/parallel_scan.h:225-248 | A natural number decreases with every step, so every run ends. |
| ScanTheorems.OnePass | include/tbb/parallel_scan.h:252-297 | Without stealing a range that has been split needs one pass only: the right part is finally scanned from its sibling's sum. |
| ScanTheorems.StolenLeaf | include/tbb/parallel_scan.h:252-297 | A stolen right part is scanned in the first pass only if its sum is wanted, and never for good. |
| ScanTheorems.NoBodyLeft | include/tbb/parallel_scan.h:152-169 | Every body made for a stolen part is destroyed again, in the first pass or after its final scan: at the end there is at most the temporary one. |
| ScanFirst.StepEffect | include/tbb/parallel_scan.h:252-297 | A step of the first pass keeps what its task tree has to satisfy and touches only the bodies that belong to it. |
| ScanFirst.FinishEffect | include/tbb/parallel_scan.h:152-169 | finish_scan leaves a sum_node exactly if a second pass is needed, with the left part's sum in a body of its own. |
| ScanFirst.StolenEffect | include/tbb/parallel_scan.h:258-263 | A really or virtually stolen right child gets a new body that interferes with no other. |
| ScanFirst.SharedEffect | include/tbb/parallel_scan.h:265-272 | A right child that runs after its left sibling with the same body continues its sum. |
| ScanSecond.Step2Effect | include/tbb/parallel_scan.h:104-132 | A step of the second pass scans exactly positions the first pass has left, from the sum of everything before them. |
| ScanSecond.PendEffect | include/tbb/parallel_scan.h:116-131 | Executing a sum_node gives both children the sums of everything to their left. |
| PriorityQueue.ConcurrentPriorityQueue.HandleOperations | include/tbb/concurrent_priority_queue.h:329-410 | The answers of a batch are those of a plain priority queue that runs some permutation of its operations one at a time; the data holds what that leaves and is a whole heap again; pushes fail only without memory. |
| PriorityQueue.ConcurrentPriorityQueue.FirstPass | include/tbb/concurrent_priority_queue.h:334-376 | The first pass answers all pushes and the convenient pops and postpones the others; what has been answered is serializable. |
| PriorityQueue.ConcurrentPriorityQueue.SeeOperation | include/tbb/concurrent_priority_queue.h:336-375 | In the first pass a pop is answered at once, with the last pushed element, if and only if that is above the root; other pops are postponed and change nothing. |
| PriorityQueue.ConcurrentPriorityQueue.SecondPass | include/tbb/concurrent_priority_queue.h:378-404 | The second pass answers the postponed pops, the latest first, and no operation is left waiting. |
| PriorityQueue.ConcurrentPriorityQueue.AnswerPop | include/tbb/concurrent_priority_queue.h:383-403 | A postponed pop gets nothing, the last pushed element or the root, and stays serializable. |
| PriorityQueue.ConcurrentPriorityQueue.Heapify | include/tbb/concurrent_priority_queue.h:413-427 | heapify makes the whole data a heap of the same elements, from any mark. |
| PriorityQueue.ConcurrentPriorityQueue.SiftLastUp | include/tbb/concurrent_priority_queue.h:415-426 | One round of heapify extends the heap by the element at mark. |
| PriorityQueue.ConcurrentPriorityQueue.Reheap | include/tbb/concurrent_priority_queue.h:431-448 | reheap removes the root, puts the last element into the heap or, without a heap, to the front of the tail, keeps all others and the heap order below mark. |
| PriorityQueue.ConcurrentPriorityQueue.MoveUp | include/tbb/concurrent_priority_queue.h:432-443 | The loop of reheap moves elements up until the last one fits the hole. |
| PriorityQueue.ConcurrentPriorityQueue.constructor | include/tbb/concurrent_priority_queue.h:79-87 | A queue built from a range holds its elements as a heap, as if they had been pushed one at a time. |
| BatchProof.PopTail | include/tbb/concurrent_priority_queue.h:348-357 | A pop of the last pushed element, which is above the root, takes its place with that push just before it. |
| BatchProof.PopRoot | include/tbb/concurrent_priority_queue.h:397-402 | A pop of the root takes its place, and the last push right after it. |
| BatchProof.PopFirst | include/tbb/concurrent_priority_queue.h:397-402 | Without a heap, a pop of the oldest pushed element takes its place with that push just before it. |
| BatchProof.AbsorbTail | include/tbb/concurrent_priority_queue.h:406-408 | The final heapify gives all pending pushes their places. |
| BatchProof.AllAnswered | include/tbb/concurrent_priority_queue.h:329-410 | In a serializable batch every operation has an answer of its kind, which is that of its call in the serial order. |
| QueueSpec.SiftDown | include/tbb/concurrent_priority_queue.h:434-443 | Moving the higher child into the hole keeps heap order except below the new hole. |
| QueueSpec.SiftUp | include/tbb/concurrent_priority_queue.h:419-424 | Moving the smaller parent into the hole keeps heap order except above the new hole. |
| QueueSpec.NoneAboveRoot | include/tbb/concurrent_priority_queue.h:397-398 | No element of a heap is above its root. |
| QueueSpec.Concat | include/tbb/concurrent_priority_queue.h:329-410 | The serial histories of consecutive batches make up one. |
| EtsTheorems.ReturnsAgree | include/tbb/enumerable_thread_specific.h:164-234 | In every run two calls return the same element if and only if they are calls of the same thread. |
| EtsTheorems.KnownExactly | include/tbb/enumerable_thread_specific.h:164-234 | A call reports that the element existed if and only if an earlier call of the thread has returned. |
| EtsTheorems.MovedUp | include/tbb/enumerable_thread_specific.h:173-185 | When a call returns, its key and element are in an array made no earlier than the one that was the root when the call began: a key found further down has been inserted again. |
| EtsTheorems.HalfFull | include/tbb/enumerable_thread_specific.h:190-192 | No array is ever more than half full: any distinct slots in use are at most half its size. |
| EtsTheorems.ProbesAreShort | include/tbb/enumerable_thread_specific.h:173-175 | A probe never passes more than half the array, whatever others insert meanwhile, so an empty slot is always found. |
| EtsTheorems.WaitFree | include/tbb/enumerable_thread_specific.h:164-234 | A thread in a call can always take a step; each of its steps lowers a well-founded measure that no step of another thread raises. |
| EtsTheorems.SizesAtLeastDouble | include/tbb/enumerable_thread_specific.h:95-98 | Along the list each array is at least twice as large as every older one. |
| EtsTheorems.DoublesExactly | include/tbb/enumerable_thread_specific.h:98-98 | A new root is exactly twice as large as its predecessor if and only if its ticket is at most the predecessor's size. |
| EtsTheorems.SizesMaySkip | include/tbb/enumerable_thread_specific.h:98-98 | A reachable table whose second array is four times as large as its first. |
| EtsTheorems.RootMayLag | include/tbb/enumerable_thread_specific.h:97-97 | A reachable table with no root although the count is not 0. |
| EtsTheorems.RootNullExactly | include/tbb/enumerable_thread_specific.h:97-97 | The root is null if and only if no thread with a ticket has passed the growth of the table; it is null while the count is 0. |
| EtsProof.RunIsShort | include/tbb/enumerable_thread_specific.h:190-192 | Taken slots in a row are at most half the array because their owners' tickets differ and are at most half its size. |
| EtsProof.WorkKeeps | include/tbb/enumerable_thread_specific.h:164-234 | Every step of table_lookup keeps the invariant. |
| EtsProof.ProbeKeeps | include/tbb/enumerable_thread_specific.h:173-188 | A probe that comes to an empty slot has shown that its key is not in the array. |
| EtsProof.ClaimKeeps | include/tbb/enumerable_thread_specific.h:226-232 | Claiming an empty slot keeps keys unique in each array and findable by their probes. |
| EtsProof.InstallKeeps | include/tbb/enumerable_thread_specific.h:196-217 | A new root is larger than all older arrays, and has room for the installing thread's ticket. |
| EtsTable.GrowTo | include/tbb/enumerable_thread_specific.h:200-201 | The loop finds the smallest size, from the root's on, of which the ticket is at most half. |
| EtsTable.StartOf | include/tbb/enumerable_thread_specific.h:71-73 | The slot number consists of the upper bits of the hash code: the code lies in the slot's part of the range of codes. |
| EtsCopy.TableCopy.InternalCopy | include/tbb/enumerable_thread_specific.h:908-930 | Copying gives each thread that has an element exactly one new element, a copy of its own, gives no other thread any, and sets the count to the original's. |
| EtsCopy.TableCopy.CopyTable | include/tbb/enumerable_thread_specific.h:915-928 | Scanning one array adds its keys that have not been copied and skips the others. |
| EtsCopy.TableCopy.TableFind | include/tbb/enumerable_thread_specific.h:127-136 | The probe ends at the key's slot, or at the empty slot where the key belongs if it is in no slot. |
| EtsCopy.TableCopy.TableReserveForCopy | include/tbb/enumerable_thread_specific.h:137-146 | The copy gets one empty array as large as the original's root, or none. |
| EtsCopy.CopyAdds | include/tbb/enumerable_thread_specific.h:918-923 | A key that has not been copied gets the empty slot its probe has come to, and a new element. |
| AggregatorTheorems.MutualExclusion | include/tbb/aggregator.h:149-177 | At most one thread is between seeing an empty mailbox and taking the list, at most one between setting and clearing handler_busy, and nobody is about to set the flag while it is set. |
| AggregatorTheorems.TouchesLive | include/tbb/aggregator.h:73-88 | The operation a handler is about to read or write belongs to a call that has not returned and whose status is unset. |
| AggregatorTheorems.AppliedOnce | include/tbb/aggregator.h:108-135 | Each operation is run exactly once, during its call; a call does not end before its operation has been run. |
| AggregatorTheorems.HandlerIsDone | include/tbb/aggregator.h:127-128 | A handler's own operation is done when it returns. |
| AggregatorTheorems.StuckMeansDone | include/tbb/aggregator.h:108-177 | If no thread in a call can take a step then none is in a call, all operations have been run, and the mailbox is empty and the flag clear. |
| AggregatorTheorems.CallsEnd | include/tbb/aggregator.h:108-177 | Without new calls every schedule ends within a number of steps that is quadratic in the number of threads, failed compare-and-swaps included. |
| AggregatorProof.WorkKeeps | include/tbb/aggregator.h:108-177 | Every step keeps the lists of the mailbox and of the handler linked, disjoint and owned by waiting calls. |
| AggregatorProof.CasKeeps | include/tbb/aggregator.h:118-124 | A successful swap puts the operation in front of the list it is linked to, also when the mailbox has changed and changed back. |
| AggregatorProof.FinishKeeps | include/tbb/aggregator.h:82-87 | Setting a status gives the operation back, and the handler goes on with a link it read before. |
| RangePool.Execute | include/tbb/partitioner.h:231-267 | Whatever the partitioner decides about demand and depth, the loop ends, runs pieces from the left and offers pieces from the right of what is left, none of them empty, until nothing is left. The range is split first as often as the partitioner wants, or until it is indivisible; every piece from the pool, run or offered, is as long as halving that rest as often as its depth says makes it, to within one; and it is run only if it is indivisible, at the maximal depth, or the pool is full. |
| RangePool.RunPool | include/tbb/partitioner.h:250-265 | The range pool loop ends despite both of its continue paths, and takes its range apart in pieces that halving makes, offered with their depths. |
| RangePool.PoolRound | include/tbb/partitioner.h:252-265 | A round shortens what is left or makes the next round split. |
| RangePool.EachOnce | include/tbb/partitioner.h:231-267 | Every position of the range is run or offered exactly once. |
| RangePool.RangeVector.SplitToFill | include/tbb/partitioner.h:170-180 | Filling keeps the pool a tiling of its interval, rightmost piece first, up to the capacity or until the leftmost piece may not be split. |
| RangePool.RangeVector.SplitOnce | include/tbb/partitioner.h:172-178 | The inverse split puts the left half at the new back and leaves the right half where the range was, through wraparound: the two differ in length by at most one, the left one is not the longer one, and both are one level deeper than the range was. |
| RangePool.HalvedAgain | include/tbb/blocked_range.h:125-131 | Halving once more what repeated halving of n has made gives the integer next to n / 2^depth again. |
| RangePool.RangeVector.PopBack | include/tbb/partitioner.h:181-186 | Removes the leftmost piece. |
| RangePool.RangeVector.PopFront | include/tbb/partitioner.h:187-192 | Removes the rightmost piece. |
| RangePool.RangeVector.constructor | include/tbb/partitioner.h:158-162 | A pool starts with one range of depth 0. |
| ReduceTheorems.ReduceIsSerial | include/tbb/parallel_reduce.h:182-198 | Whatever is stolen, offered and run when, the user's body ends with the whole range in order and every split body is destroyed. |
| ReduceTheorems.Total | include/tbb/parallel_reduce.h:182-198 | For every associative join, commutative or not, with an identity the user's body ends with the serial loop's value. |
| ReduceTheorems.SplitsExactly | include/tbb/parallel_reduce.h:184-190 | A finish task has a body if and only if its left child's subtree is finished, so a right child splits the body exactly when it is not. |
| ReduceTheorems.OneUser | include/tbb/parallel_reduce.h:182-198 | No body is ever used by two tasks at once. |
| ReduceTheorems.StepEffect | include/tbb/parallel_reduce.h:65-75 | Every step keeps what a task tree has to satisfy and touches only its own bodies. |
| ReduceTheorems.BoundedRuns | include/tbb/parallel_reduce.h:182-198 | A run takes at most six steps for each position of the range. |
| ReduceTheorems.NeverStuck | include/tbb/parallel_reduce.h:182-198 | Until all tasks have returned one of them can take a step. |
| ReduceTheorems.ActionIsStep | include/tbb/parallel_reduce.h:150-169 | What the range pool loop does with a task's range are steps of that task. |
| Reduce.JoinEffect | include/tbb/parallel_reduce.h:65-75 | Joining the right body after the left one gives the sum of both parts in order. |
| ParallelSort.Sort | include/tbb/parallel_sort.h:195-204 | The array ends sorted and with the same elements; an array of at least 500 elements that is sorted already is left as it is. |
| ParallelSort.QuickSort | include/tbb/parallel_sort.h:169-174 | A range ends sorted with the same elements, whichever divisible ranges the partitioner wants split; the pieces left to the serial sort are those that are indivisible or not wanted split, and with one key between each two they make up the range. |
| ParallelSort.Split | include/tbb/parallel_sort.h:70-105 | Splitting puts the key between elements not after it and elements not before it, leaves it out of both parts, and permutes only the range; the key is the pseudo-median of the range. |
| ParallelSort.Narrow | include/tbb/parallel_sort.h:80-94 | One round of the two scans stays in bounds, brings the ends closer, and keeps both sides on their side of the key. |
| ParallelSort.ScanDown | include/tbb/parallel_sort.h:83-86 | The downward scan stops without a bound check, at or above the upward one. |
| ParallelSort.ScanUp | include/tbb/parallel_sort.h:87-91 | The upward scan stops at an element that does not come before the key or at the other end. |
| ParallelSort.Assemble | include/tbb/parallel_sort.h:97-105 | A split range whose parts have been sorted is sorted. |
| ParallelSort.Pretest | include/tbb/parallel_sort.h:157-168 | The pretest succeeds if and only if the sequence is sorted, for every cutting of the rest into pieces and every order of the tasks' rounds. |
| ParallelSort.PretestPieces | include/tbb/parallel_sort.h:163-168 | However the rounds of the tasks are interleaved, they end, and if none has cancelled all pieces are in order, and if one has the sequence is not sorted. |
| ParallelSort.PretestBody | include/tbb/parallel_sort.h:118-132 | A round of a task stops it if and only if an element is out of order, or, at every 64th element, a task has been cancelled. |
| ParallelSort.IsMedian | include/tbb/parallel_sort.h:43-46 | The chosen index is one whose element lies between the other two. |
| ParallelSort.NineIsCentral | include/tbb/parallel_sort.h:48-56 | Of the nine elements that the pseudo-median is taken from, four do not come after it and four do not come before it. |
| VectorGrowthTheorems.DistinctPlaces | src/tbb/concurrent_vector.cpp:240-296 | In every reachable state of concurrent growth elements lie within their blocks and no two have the same place. |
| VectorGrowthTheorems.NeverMoves | src/tbb/concurrent_vector.cpp:214-238 | Along every run an element that has been allocated stays where it is, also when the table is replaced. |
| VectorGrowthTheorems.ReservedOnce | src/tbb/concurrent_vector.cpp:438-448 | Every index below the size has been reserved by exactly one call. |
| VectorGrowthTheorems.ConstructsInPlace | src/tbb/concurrent_vector.cpp:494-505 | When a call constructs its elements, all their slots are set in the table it has loaded, and they agree with the current table. |
| VectorGrowthTheorems.ReturnsAllocated | src/tbb/concurrent_vector.cpp:464-486 | When `grow_to_at_least(n)` returns, all elements below n are allocated, by whichever calls. |
| VectorGrowthTheorems.GetsWhatItNeeds | src/tbb/concurrent_vector.cpp:438-505 | Whatever the call, when it returns the elements it provides are allocated: its own, and for `grow_to_at_least(n)` all below n, also when it finds the vector long enough. |
| VectorGrowthTheorems.NeedsAsked | src/tbb/concurrent_vector.cpp:454-490 | What a call has to provide is what it has been asked for: `push_back` and `grow_by` the indices they add, `grow_to_at_least(n)` all below n. |
| VectorGrowthTheorems.FirstBlockFits | src/tbb/concurrent_vector.cpp:76-91 | The first block is set once, and ends with the last segment that one of the calls needs. |
| VectorGrowthTheorems.NeverFails | src/tbb/concurrent_vector.cpp:120-135 | The check at the end of acquiring a segment never fails: no reference is into a table replaced before its slot was set. |
| VectorGrowthTheorems.NoBlockLost | src/tbb/concurrent_vector.cpp:264-294 | Each block allocated is in use by exactly one piece of the vector. |
| VectorGrowthTheorems.NoDeadlock | src/tbb/concurrent_vector.cpp:214-238 | While calls are under way some call can take a step, whatever they wait for: other calls' segments, the first block or the table. |
| VectorGrowthTheorems.EarliestProceeds | src/tbb/concurrent_vector.cpp:120-135 | The call with the earliest indices waits for nobody. |
| VectorGrowthTheorems.RunInvariant | src/tbb/concurrent_vector.cpp:494-505 | The invariant of concurrent growth holds in every state of every run. |
| VectorGrowthProof.LoadedIsCurrent | src/tbb/concurrent_vector.cpp:214-238 | A thread with a segment to publish has loaded the table that is current, since who copies the table waits for all earlier segments. |
| VectorGrowthProof.ExtendedThread | src/tbb/concurrent_vector.cpp:214-238 | Replacing the table keeps the invariant of every other thread: it needs the long table too, or all its segments have been copied. |
| VectorGrowthProof.BeforeStore | src/tbb/concurrent_vector.cpp:259-260 | Before a thread publishes a segment, it has reserved the segment's first index and the slot is empty in the current table. |
| VectorGrowthProof.EnableSharedKeeps | src/tbb/concurrent_vector.cpp:273-289 | Publishing a segment within the first block keeps the invariant. |
| VectorGrowthProof.EnableOwnKeeps | src/tbb/concurrent_vector.cpp:290-294 | Publishing a segment with a block of its own keeps the invariant. |
| VectorGrowthProof.ReserveKeeps | src/tbb/concurrent_vector.cpp:488-492 | A new call keeps the invariant: the segments that begin among its indices are its own to allocate. |
| Segments.SegmentBounds | include/tbb/concurrent_vector.h:217-223 | An element's segment is the one whose range its index falls into. |
| Segments.LocateUnique | include/tbb/concurrent_vector.h:217-231 | Indices and pairs of a segment and an offset in it are in one-to-one correspondence. |
| Segments.SameSegment | include/tbb/concurrent_vector.h:236-243 | Where no segment begins an element is one place behind the one before it. |
| ConcurrentVector.DistinctAddresses | include/tbb/concurrent_vector.h:1181-1195 | No two elements share a place, within the first block or outside it. |
| ConcurrentVector.EveryPlaceUsed | src/tbb/concurrent_vector.cpp:259-296 | Every place of every block is some element's, once the first block is complete. |
| ConcurrentVector.ConcurrentVector.EnableSegment | src/tbb/concurrent_vector.cpp:259-296 | The next segment is within the first block, which adds no block, or has a new one; those before it stay. |
| ConcurrentVector.ConcurrentVector.InternalReserve | src/tbb/concurrent_vector.cpp:358-370 | Exactly the segments needed for n elements are added, into one first block if there was none; contents stay, and too large an n changes nothing. |
| ConcurrentVector.ConcurrentVector.InternalAssignIterators | include/tbb/concurrent_vector.h:1217-1235 | Afterwards the vector holds the input, in order, or is empty if that is longer than allowed. |
| ConcurrentVector.ConcurrentVector.Apply | src/tbb/concurrent_vector.cpp:143-167 | Walking the segments with rebased offsets sets exactly the elements from start to finish, and leaves all others. |
| ConcurrentVector.ConcurrentVector.InternalResize | src/tbb/concurrent_vector.cpp:507-520 | The contents become longer by copies of the value, or shorter, or stay if the size is not allowed; when they become shorter exactly the elements cut off are destroyed, in order. Every slot looked at is one of the table if and only if a full short table is not asked to keep its size. |
| ConcurrentVector.ConcurrentVector.DestroyElements | src/tbb/concurrent_vector.cpp:143-167 | The walk that destroys elements calls the destructor for the places of exactly those from start to finish, in order and each once; it looks at a slot beyond the table if and only if there is nothing to destroy and the next element would need a slot there. |
| ConcurrentVector.ResizeReadsPast | src/tbb/concurrent_vector.cpp:516-519 | A new vector resized to 8 and to 8 again looks at a slot beyond its table. |
| ConcurrentVector.ConcurrentVector.InternalClear | src/tbb/concurrent_vector.cpp:522-530 | Clearing destroys all elements in order, leaves the segments, and names their number, or 1 if there is none. |
| ConcurrentVector.ConcurrentVector.InternalCompact | src/tbb/concurrent_vector.cpp:532-601 | The contents stay, no segment without elements is left, and the blocks handed over are exactly those no longer used. The first block then reaches as far as the elements, if that is less than before, and else over just those following segments whose own blocks would be smaller than a page, or smaller than 128 pages with half a page unused; all its elements lie in one block, in order. |
| ConcurrentVector.IncompactWastes | src/tbb/concurrent_vector.cpp:61-63 | The predicate that decides about merging says that a block is smaller than a page, or smaller than 128 pages and leaves half a page or more unused. |
| ConcurrentVector.ConcurrentVector.CopyPieces | src/tbb/concurrent_vector.cpp:559-576 | The copying loop brings all elements of the first k segments to their place in the new block. |
| ConcurrentVector.MovedAway | src/tbb/concurrent_vector.cpp:577-601 | When the first segments have moved, what is handed over is free to be released and is all that the vector does not use any more. |
| ConcurrentVector.TrimmedAway | src/tbb/concurrent_vector.cpp:593-600 | The same when only segments at the end go. |
| ConcurrentVector.FreeSegments | include/tbb/concurrent_vector.h:1163-1178 | Each block that a table owns is given back once, by its beginning and with its own size. |
| ConcurrentVector.ConcurrentVector.ShrinkToFit | include/tbb/concurrent_vector.h:1146-1157 | The contents stay, and exactly the blocks no longer used are given back; small segments are merged as compaction says. |
| ConcurrentVector.Iterator.Current | include/tbb/concurrent_vector.h:363-370 | The element is the one of the index, whether the pointer was cached or not. |
| ConcurrentVector.Iterator.Increment | include/tbb/concurrent_vector.h:376-390 | The pointer stays cached just within a segment, and is that of the next index. |
| ConcurrentVector.Iterator.Decrement | include/tbb/concurrent_vector.h:392-406 | The pointer stays cached just within a segment, and is that of the index before. |
| Affinity.OneTaskPerSlot | include/tbb/partitioner.h:389-430 | In every run of a loop no two tasks look at the same slot of the affinity array, and all slots looked at are within it. |
| Affinity.WaitingTasksOwn | include/tbb/partitioner.h:418-430 | A task that has not begun to run has a divisor other than 0 if and only if it owns the slots it stands for. |
| Affinity.DealsWholeGroups | include/tbb/partitioner.h:407-408 | Whatever a task went through before, it has a multiple of `factor` slots when it has more than one group of them. |
| Affinity.RunningSplits | include/tbb/partitioner.h:432-467 | Every running task can be split, in proportion or on demand, and one that begins with at most one slot can make a balancing task. |
| Affinity.BalancesOnce | include/tbb/partitioner.h:437-440 | Each task makes at most one balancing task. |
| Affinity.SplitsInHalves | include/tbb/partitioner.h:279-299 | A split on demand leaves the first half of the slots to the left task, and the right one gets the rest, which is as many or one less. |
| Affinity.ActionDivides | include/tbb/partitioner.h:389-417 | Each way of splitting divides a task's own slots up between it and the new task. |
| Affinity.SharesAreGroups | include/tbb/partitioner.h:407-415 | However the quotient is rounded both tasks get whole groups, at least one each and the right one about its share. |
| Affinity.AffinityPartition.SplitInProportion | include/tbb/partitioner.h:400-417 | The new task's slots are behind those left, and the sum stays. |
| Affinity.AffinityPartition.Split | include/tbb/partitioner.h:279-299 | The new task gets the last half of the slots, which is none of a single one; left and right differ by at most one slot. |
| Affinity.PartsNotEmpty | include/tbb/blocked_range.h:134-147 | In exact arithmetic a proportional split leaves both parts non-empty if and only if each one's share is at least one half, and the left one's more. |
| Affinity.SplitsDivisible | include/tbb/partitioner.h:469-483 | The proportions that the partitioner asks for split every divisible range into two non-empty parts; they are halves, or with nonuniform task creation a third for the right part. |
| Limiter.NeverOverThreshold | include/tbb/flow_graph.h:2484-2542 | In every interleaving `my_count + my_tries <= my_threshold`, `my_tries` is the number of open attempts, and items under way are no more than the threshold. |
| Limiter.NoLostWakeup | include/tbb/flow_graph.h:2484-2542 | Whenever an item could be forwarded, a task or a thread is going to look whether it can. |
| Limiter.PutPasses | include/tbb/flow_graph.h:2674-2700 | A put passes its item on, and has counted it when it returns, if there is room and a successor takes it; without room it changes nothing. |
| Limiter.MessageForwards | include/tbb/flow_graph.h:2484-2555 | A decrement message lets an item of a predecessor pass into the place it has freed, in the same thread, if a successor takes it and nobody else has a reservation. |
| Limiter.RejectedPut | include/tbb/flow_graph.h:2689-2698 | A rejected put leaves nothing behind but a forwarding task, if there is somebody to forward between. |
| Limiter.OneReservation | include/tbb/internal/_flow_graph_impl.h:428-470 | At most one thread has a reservation, and it is consumed or released when that thread's attempt ends. |
| Limiter.RoomFor | include/tbb/flow_graph.h:2549-2555 | In every run a decrement message makes room if and only if fewer messages have had an effect before it than items have been counted. |
| Limiter.NoneLostExactly | include/tbb/flow_graph.h:2549-2555 | Along every run no decrement message is lost if and only if before each of them more items have been counted than messages have come. |
| Limiter.IgnoredAreLost | include/tbb/flow_graph.h:2549-2555 | Items accepted, counted and announced as done balance up to the messages ignored, by which the threshold is reduced for good. |
| Limiter.StuckForGood | include/tbb/flow_graph.h:2674-2700 | Once as many messages have been ignored as the threshold, no attempt begins any more unless there are more messages than items. |
| Limiter.MessageBeforeCount | include/tbb/flow_graph.h:2674-2700 | A run in which the only item's message comes before the item is counted. |
| LruCache.LruCache.RetrieveSerial | include/tbb/concurrent_lru_cache.h:188-205 | Retrieving takes a reference and takes the entry off the list; a value is to be computed if and only if the key was absent. |
| LruCache.LruCache.SignalEndOfUsageSerial | include/tbb/concurrent_lru_cache.h:207-228 | The call is defined if and only if the history may have items or another handle remains. Then dropping the last reference puts the entry first in the list and, only if that is full, gives up the entry released longest ago; all other entries stay. The entry itself keeps its value and stays ready, with one reference less. |
| LruCache.LruCache.EvictLast | include/tbb/concurrent_lru_cache.h:215-224 | If the history may have items exactly one entry is given up, the one at the end of the list, which was released before all others; otherwise the last element of an empty list is asked for. |
| LruCache.PopsEmptyList | include/tbb/concurrent_lru_cache.h:215-222 | A cache without history reaches the undefined case by retrieving a value and giving its handle back. |
| LruCache.LruCache.ComputeValue | include/tbb/concurrent_lru_cache.h:86-92 | The value becomes ready and is the computed one. |
| LruCache.Perform | include/tbb/concurrent_lru_cache.h:188-228 | Over every sequence of calls an entry that has once been ready stays ready, with the computed value, until it is evicted. |
| LruCache.LruCache.Value | include/tbb/concurrent_lru_cache.h:114-117 | A handle gives access to the computed value of its key. |

## Left out

- Memory ordering: all models assume sequentially consistent steps.
- The mutexes: the bucket's reader-writer lock is abstract; the upgrade either succeeds at once or reports that it has been released and acquired again.
- The task scheduler, arenas, allocators and memory pools: scheduling is arbitrary.
- Exceptions, cancellation, `reset` and rollback, except a push without memory.
- Word sizes: bucket indices, masks, counters and depths are unbounded; the code assumes hash indices below 2^32 (`1u<<`), at most 64 segments and depths below 256.
- HashMapProtocol: `exclude`, `insert` with an accessor and `internal_fast_find`; item locks and deletion are in `HashMapItems`, and an item lock that cannot be had is a nondeterministic restart. Chains are sequences, so the pointer-to-pointer cursors within a locked chain are not modelled.
- HashMapTheorems.NoDeadlock: does not state starvation-freedom, which the code does not provide: a restart can happen any number of times.
- HashMapTable: the table is one sequence of buckets instead of segments, except for the iterator's pointers; `internal_copy`, locks and the mask race check, which one thread cannot meet, are left out. 
- HashMapIteration: iterators of a range stand on first items of buckets, and `empty` compares buckets instead of nodes.
- ScanModel: ranges are intervals of numbers that any deterministic splitter may cut; the partitioner's choice to stop splitting is arbitrary.
- PriorityQueue: `try_pop` and `push` as operations of the aggregator, copying, `swap` and `clear`; a batch is a sequence of operations with the handler's answers instead of a linked list with statuses.
- EtsTable: keys are thread numbers, arrays are never freed during calls, and `create_local` does not call back into the table; the specialization on native thread-local storage is left out.
- EtsCopy: elements are copied by a function on element numbers.
- Aggregator: the order in which a handler runs a list is modelled, but operations' effects are only counted.
- RangePool: the range type is `blocked_range` over integers with even splits in the pool; before the pool a split point is arbitrary within the range, which stands for proportional splits in exact arithmetic.
- Reduce: `parallel_deterministic_reduce` and the lambda bodies.
- HashMapItems: a bucket lock is what excludes others from the node's bucket; which bucket that is, and its rehashing, are in `HashMapProtocol`, and `HashMapTheorems.LockedBucketStays` is what this model takes from there for find, insert and erase.
- ParallelSort: the parts of a split are sorted one after another; they are disjoint parts of the array. The serial sort of a leaf is some sorting function.
- LruCache: the handle object and its moves; the aggregator that runs the serial operations one at a time is modelled separately.
- VectorGrowthTheorems.NeverFails: allocations succeed in this model, so a segment marked as failed, and the exceptions that follow from it, do not occur.
- VectorGrowth: allocations succeed; `reserve`, `clear`, `compact` and assignment, which may not run with other operations, are in `ConcurrentVector`. What an element's constructor does is left out, and the loop over elements is one step; `ConcurrentVector.Apply` is that loop.
- ConcurrentVector: exceptions, `internal_copy`, `internal_assign`, and `swap`; destroying is the list of places that the destructor is called for.
- Affinity: depths and the delay before a task answers demand; which actions a task takes, and when, is arbitrary.
- Limiter: the neighbours, whose answers are arbitrary, and graphs without a root task, in which no forwarding task can be spawned.
- Pipelines, flow graph nodes, `concurrent_queue`, `concurrent_unordered_map`, `combinable`, `parallel_do` and `parallel_invoke`: wrappers over code that is not part of this model.
