# locache: a verified model

locache is a distributed cache library. A consistent-hash ring names one owner
per key, etcd keeps the membership, the owner merges concurrent loads, and
requesters may keep short-lived copies of remote values. This project models
that core in Dafny and proves what the parts promise, alone and together.

| files | what they model |
|---|---|
| `LruModel`, `LruRuns`, `LruBudget`, `LruCache` | the byte-bounded LRU store with expiry: its meaning on values, whole runs, what the budget takes away, the mutable store |
| `ShardedModel`, `ShardedLru`, `Cache` | the sharded store and the node cache over it |
| `RingModel`, `HashRing` | the hash ring as a function of the member set, and the mutable ring |
| `MembershipModel`, `ClientPicker` | membership, epochs, and the snapshot-plus-watch loop that follows etcd |
| `Singleflight` | `Do` as a step system over any number of threads |
| `OwnerModel`, `OwnerSafety`, `OwnerReads`, `OwnerLoads`, `OwnerEpochs` | the owner side (`getLocal`, `setLocal`, `deleteLocal`) as a step system with singleflight inside |
| `OwnerAnswers`, `OwnerSettled` | what each of these calls answers, and that a later read finds an earlier write |
| `OwnerStore` | the owner cache of that step system against the sharded store |
| `Cluster` | all nodes together while the membership stands |
| `RoutingModel`, `Routing`, `RoutingWrites`, `Group` | `Get`, `Set` and `Delete` over a picker that may change between any two accesses, and the near cache |
| `RoutingGets`, `RoutingResults`, `RoutingUnwritten` | exactly when each of them succeeds, fails, tries again or runs out, against any environment |
| `RoutingCalm`, `RoutingNear` | what they return while the membership stands, and what the near cache holds after them |

Objects that the source updates in place are classes. Each method of a class is
proved against a function on values, and what the source promises is proved
about that function. Code in which threads interleave is a step system: one step
per lock-protected section, the Getter a start and a finish, and properties of
every run. The routing code runs against an environment: before each access to
shared state the environment may move the picker to a new epoch, advance the
clock, close the group and use the near cache, as long as it keeps the
invariant that these operations keep themselves.

## Where the code does less than it says

Each of these is modelled as the code is and has an exact condition; the first
three have a concrete run that shows them.

- `Set` can return nil without agreement on the write: when its fourth attempt is
  refused by the node itself, the loop ends and the call goes on to its end
  (group.go:305-308, 340-350). `RoutingResults.SetRunsOutIff` says exactly when, by
  the owners, epochs and replies of the attempts. Some of the attempts may have
  written by then; `RoutingResults.SetUnwrittenIff` says exactly when none has,
  and `RoutingUnwritten.SetMayReturnUnwritten` shows a run. `Delete` cannot.
- The comment at group.go:572-573 says that entries of an earlier ownership
  period never become authoritative again. The ownership check and the write are
  not one step, so a write may land after a later epoch was recorded.
  `OwnerEpochs.CurrentThroughoutIff` gives the exact condition,
  `OwnerEpochs.DisturbedServesStale` a run.
- The comment at singleflight/singleflight.go:46-48 says that a caller who
  arrives after the function has completed starts a new call. Between the end of
  the function and the removal it joins the finished one, so a `Get` that begins
  after a `Delete` has returned may return the deleted value.
  `OwnerReads.OutdatedIffJoinedEnded` gives the exact condition,
  `OwnerReads.LateJoinReturnsDeleted` a run.
- Two pickers at one revision hold the same members exactly when both are
  registered there, or they are one node; each always counts itself, registered
  or not (`Picker.MembersAgreeIff`).

## Model

| member | source | states |
|---|---|---|
| `LruModel.CutLongest` | store/lru.go:156-158 | what a capacity pass leaves fits the budget and every longer most-recent part does not |
| `LruModel.TrimIsCut` | store/lru.go:156-158 | removing the oldest entry until the rest fits removes exactly one prefix with its deadlines and keeps the state well formed |
| `LruModel.EvictKeepsLongest` | store/lru.go:147-159 | an eviction pass keeps, of the entries that have not expired, the longest most-recent run that fits |
| `LruRuns.RunValid` | store/lru.go:53-159 | after every run keys are distinct, deadlines belong to stored keys and the bytes are within a positive budget |
| `LruRuns.StepEntries` | store/lru.go:73-103 | whatever a step leaves was there before with the same deadline or is what the step wrote with the deadline it asked for |
| `LruRuns.SetStamps` | store/lru.go:82-101 | right after a write the key, if it stayed, has exactly the value and the deadline the write asked for |
| `LruRuns.HitIsLatestWrite` | store/lru.go:53-67 | whatever the budget, a hit returns the value of the latest Set of the key, with no later Delete or Clear and its deadline not reached |
| `LruRuns.UnlimitedIsExact` | store/lru.go:53-159 | with no budget and a clock that never goes back, Get equals the ideal timed map: it hits if and only if there is a live last write |
| `LruRuns.LateWriteFindsExpired` | cache.go:62-72 | when all writes to a key live equally long and a new one is dropped because its deadline has passed, every earlier entry of the key has expired too |
| `LruRuns.RunOrdered` | store/lru.go:65-66 | in every reachable state the recency list is strictly ordered by last Set or hit |
| `LruRuns.GetIncludedIff` | store/lru.go:53-67 | a Get on two stores keeps the smaller's list a suffix of the larger's if and only if it does not hit in the larger store alone |
| `LruRuns.StepIncluded` | store/lru.go:73-128 | every other operation keeps the suffix relation between two budgets |
| `LruRuns.RunIncluded` | store/lru.go:147-159 | inclusion over whole runs: the smaller store's recency list stays a suffix of the larger's, with the same deadlines |
| `LruBudget.SetKeepsLongest` | store/lru.go:73-103 | a Set leaves the longest most-recent part that fits the budget of the unexpired entries of the old list without the key, with the new entry last |
| `LruBudget.CleanupKeepsLongest` | store/lru.go:161-165 | so does a cleanup, of what is there |
| `LruBudget.SetStaysIff` | store/lru.go:73-103 | a written entry is stored if and only if it fits the budget by itself and has not expired by the eviction pass |
| `LruBudget.ExpiredGetFrees` | store/lru.go:61-64 | a Get that finds its entry expired removes it with its deadline and frees exactly its bytes |
| `LruBudget.UnaffectedIffRoomy` | store/lru.go:147-159 | a budget leaves every state of a run as it is without one if and only if what is stored without one always fits |
| `LruBudget.RoomyIsExact` | store/lru.go:53-159 | then Get equals the ideal timed map under any budget: it hits if and only if there is a live last write |
| `LruStore.LruCache.constructor` | store/lru.go:32-51 | an empty store with its budget |
| `LruStore.LruCache.Lookup` | store/lru.go:57-66 | the element that the index leads to is the abstract entry of the key |
| `LruStore.LruCache.RemoveElement` | store/lru.go:136-145 | list, index, expiry table and byte counter stay in agreement and exactly one key is gone |
| `LruStore.LruCache.MoveToBack` | store/lru.go:90-92 | the key becomes most recent with the given value and the counter follows the difference in size |
| `LruStore.LruCache.Get` | store/lru.go:53-67 | the abstract Get: expired entries are removed, hits move to the back |
| `LruStore.LruCache.GetWithExpiration` | store/lru.go:187-205 | the same hit as Get, with the time left, positive when there is a deadline and zero when there is none |
| `LruStore.LruCache.Delete` | store/lru.go:105-113 | the key and its deadline are gone; true exactly when it was stored |
| `LruStore.LruCache.Clear` | store/lru.go:115-128 | the empty store |
| `LruStore.LruCache.DropExpired` | store/lru.go:148-155 | exactly the expired entries are removed, in whatever order the table is visited |
| `LruStore.LruCache.EvictLocked` | store/lru.go:147-159 | the abstract eviction pass |
| `LruStore.LruCache.SetWithExpiration` | store/lru.go:73-103 | the abstract Set, each clock reading its own: a nil value deletes, else what `LruBudget.SetKeepsLongest` says is left |
| `LruStore.LruCache.Overwrite` | store/lru.go:82-93 | updating an element in place is the abstract write |
| `LruStore.LruCache.PushBack` | store/lru.go:82-101 | creating an element is the same abstract write |
| `ShardedModel.MaskIsMod` | store/sharded_lru.go:62-66 | masking with a power of two less one is the remainder |
| `ShardedModel.NextPowerOfTwo` | store/sharded_lru.go:112-121 | the least power of two at least n, and never above 2^62 for n up to 2^62 |
| `ShardedModel.ShardCount` | store/sharded_lru.go:16-28 | a power of two, no more than the least one at or above the number asked for (sixteen by default), at least 1 KiB per shard under a budget, and halved no further than that needs |
| `ShardedModel.BudgetsExact` | store/sharded_lru.go:35-53 | the shares of a positive budget sum to it and are all positive, so that no shard is taken for unlimited |
| `ShardedModel.ShardIsLoneStore` | store/sharded_lru.go:62-79 | each shard is exactly one LRU store with its share, driven by the operations that reach it |
| `ShardedModel.OneShardIsPlain` | store/store.go:46-55 | a store of one shard is one LRU store with the whole budget, after every run |
| `ShardedModel.ShardedHitIsLatestWrite` | store/sharded_lru.go:68-79 | a hit of the sharded store is the live last write of the whole run |
| `ShardedModel.ShardedIsOneStore` | store/sharded_lru.go:68-79 | without a budget the sharded store answers every Get as one store does, after every run |
| `ShardedModel.KeysInTheirShard` | store/sharded_lru.go:62-66 | a key is stored only in its masked shard |
| `ShardedModel.TotalWithinBudget` | store/sharded_lru.go:35-53 | over every run the bytes in all shards together never exceed a positive budget |
| `ShardedModel.SetKeepsLongest` | store/sharded_lru.go:70-72 | a write leaves in its key's shard the longest unexpired part that fits the share, and the other shards as they were |
| `ShardedModel.CleanupKeepsLongest` | store/sharded_lru.go:89-95 | a cleanup leaves no expired entry in any shard, and of the others the longest part that fits the share |
| `ShardedModel.ShardedRoomyIsExact` | store/sharded_lru.go:68-79 | while what reaches a shard always fits its share, Get of its keys equals the ideal timed map of the whole run |
| `ShardedStore.ShardedLru.constructor` | store/sharded_lru.go:16-60 | empty shards, as many and with the budgets that the configuration says |
| `ShardedStore.ShardedLru.Shard` | store/sharded_lru.go:62-66 | the shard of the key's masked hash |
| `ShardedStore.ShardedLru.Get` | store/sharded_lru.go:68-68 | the hit of the key's shard; the other shards are untouched |
| `ShardedStore.ShardedLru.SetWithExpiration` | store/sharded_lru.go:70-72 | the write reaches the key's shard and no other |
| `ShardedStore.ShardedLru.Delete` | store/sharded_lru.go:73-73 | the key is gone from its shard, true exactly when it was there |
| `ShardedStore.ShardedLru.Clear` | store/sharded_lru.go:75-79 | all shards are empty |
| `ShardedStore.ShardedLru.Cleanup` | store/sharded_lru.go:89-95 | one eviction pass in every shard, each with its own share |
| `NodeCache.DeadlineDrift` | cache.go:62-72 | a deadline turned into a time to live and back is late by exactly the time between the two clock readings |
| `NodeCache.Cache.constructor` | cache.go:35-53 | an open, empty cache over a sharded store of the given budget, or over one shard for the plain LRU type |
| `NodeCache.Cache.Close` | cache.go:114-119 | closed for good, with the store left as it was |
| `NodeCache.Cache.Add` | cache.go:55-60 | a write without deadline, ignored once closed |
| `NodeCache.Cache.AddWithExpiration` | cache.go:62-72 | a deadline already reached stores nothing and leaves the store as it was; otherwise the write of what is left of it |
| `NodeCache.Cache.Get` | cache.go:74-90 | the store's hit; an open cache counts each lookup once as hit or miss, a closed one misses and counts nothing |
| `NodeCache.Cache.Delete` | cache.go:92-97 | the store's delete, refused once closed |
| `NodeCache.Cache.Clear` | cache.go:99-106 | an empty store and zero counters, ignored once closed |
| `RingModel.LessTotal` | consistenthash/con_hash.go:142-152 | the order by hash, node and replica is total and strict |
| `RingModel.LessTransitive` | consistenthash/con_hash.go:142-152 | and transitive |
| `RingModel.RingIsFunctionOfNodes` | consistenthash/con_hash.go:16-19 | two rings with the same nodes, replicas and hash have the same points, whatever their history and collisions |
| `RingModel.CanonicalExists` | consistenthash/con_hash.go:57-86 | every node set has its sorted point sequence |
| `RingModel.SelectedIsOwner` | consistenthash/con_hash.go:117-122 | the point that the search selects is the least one at or after the hash, or the least of all when there is none |
| `RingModel.OwnerExists` | consistenthash/con_hash.go:108-123 | there is an owner exactly for non-empty keys on a ring with a point, and it is a node |
| `RingModel.AddMovesOnlyToNew` | consistenthash/con_hash.go:57-86 | adding a node moves a key to that node or not at all, wrap-around and ties included |
| `RingModel.RemoveMovesOnlyOwned` | consistenthash/con_hash.go:88-106 | removing a node moves only the keys it owned |
| `ConsistentHash.SortPoints` | consistenthash/con_hash.go:142-152 | the same points, strictly sorted |
| `ConsistentHash.FilterInPlace` | consistenthash/con_hash.go:97-102 | overwriting the slice that is being read still yields exactly the points of the other nodes, in order |
| `ConsistentHash.HashRing.constructor` | consistenthash/con_hash.go:48-54 | an empty ring with the given or default number of replicas |
| `ConsistentHash.HashRing.Add` | consistenthash/con_hash.go:57-86 | idempotent: the nodes gain the non-empty names and the points are the sorted sequence of the nodes again; an empty list is refused |
| `ConsistentHash.HashRing.AppendReplicas` | consistenthash/con_hash.go:72-79 | the points of one more node, without duplicates |
| `ConsistentHash.HashRing.Remove` | consistenthash/con_hash.go:88-106 | exactly that node and its points are gone; unknown and empty names are refused and change nothing |
| `ConsistentHash.HashRing.Get` | consistenthash/con_hash.go:108-123 | the binary search returns the owner as defined on the node set alone |
| `MembershipModel.ApplyKeepsView` | peers.go:172-213 | self stays a member, clients stay within members minus self, and the epoch rises exactly when the members change |
| `MembershipModel.RunKeepsView` | peers.go:284-326 | the same over every run of changes |
| `MembershipModel.EpochIdentifiesMembers` | peers.go:328-340 | two moments of a run with the same epoch have the same members |
| `MembershipModel.ClientsIff` | peers.go:188-203 | over every run an address has a client if and only if it is not this node and a change that could connect to it offered one at some moment since which it has been a member |
| `MembershipModel.JoinedHasClient` | peers.go:295-302 | a member other than this node has a client if connecting to it succeeded when it last joined |
| `MembershipModel.ParseRoundTrip` | peers.go:428-434 | registration keys and addresses determine each other |
| `MembershipModel.ReplayReaches` | peers.go:245-264 | replaying the events of a revision range leads from one registry state to the other |
| `MembershipModel.HappenLive` | peers.go:247-260 | a put adds exactly its address to the registered ones, a delete removes exactly its address |
| `MembershipModel.ReplayIsSound` | peers.go:239-265 | the events of a revision range are registrations and lead to the registry at its end |
| `MembershipModel.EventTracks` | peers.go:245-261 | handling one event keeps the members equal to self plus the registered addresses |
| `MembershipModel.EventMembers` | peers.go:247-260 | a put adds the address in its value, else the one in its key; a delete removes the one in its key, else the one in its old value, never this node |
| `MembershipModel.DeliveredIsSound` | peers.go:239-265 | what a watch from a revision delivers, nothing or a range of events, leads to the registry at the revision it reaches |
| `Picker.ClientPicker.constructor` | peers.go:103-138 | this node alone in members and ring, epoch 1 |
| `Picker.ClientPicker.ReplaceMembership` | peers.go:172-213 | the abstract change; the ring's nodes are the members and clients are kept or created for the others |
| `Picker.ClientPicker.AddMember` | peers.go:284-305 | the abstract change, in the same ring |
| `Picker.ClientPicker.RemoveMember` | peers.go:307-326 | the abstract change; self is never removed |
| `Picker.ClientPicker.PickOwner` | peers.go:328-340 | every key but the empty one has an owner among the members, a function of the members alone; a peer is never self |
| `Picker.ClientPicker.RefreshSnapshot` | peers.go:150-170 | members, clients and epoch change as by one replacement with self plus the addresses registered at the snapshot's revision |
| `Picker.ClientPicker.ApplyEvents` | peers.go:245-261 | members, clients and epoch are those of the changes that the events stand for, in order, and the members are self plus the registered addresses |
| `Picker.ClientPicker.HandleResponse` | peers.go:239-265 | the response's events are applied, with their effect on members, clients and epoch, whatever its header, and the members follow the registry up to the header revision |
| `Picker.ClientPicker.Receive` | peers.go:239-280 | one turn of the loop: the changes that the input stands for, and the revision to watch from next |
| `Picker.ClientPicker.WatchServiceChanges` | peers.go:227-282 | over any run of responses, interruptions, snapshots and failed refreshes the members are self plus the addresses registered at revision `rev - 1`, and members, clients and epoch are those of all changes received, in order |
| `Picker.MembersAgreeIff` | peers.go:158-168 | two pickers that track one revision hold the same members if and only if both are registered there or they are pickers of one node |
| `Picker.PickersAgree` | peers.go:328-340 | two pickers at one revision, both registered there, hold the same ring and pick the same owner for every key |
| `Singleflight.StepInv` | singleflight/singleflight.go:19-60 | every step keeps threads, calls and map in agreement |
| `Singleflight.RunInv` | singleflight/singleflight.go:19-60 | so does every run |
| `Singleflight.AtMostOneRuns` | singleflight/singleflight.go:24-43 | in every interleaving at most one function runs per key |
| `Singleflight.OneLeader` | singleflight/singleflight.go:32-53 | a key has at most one leader until its call is removed |
| `Singleflight.DeleteFindsOwnCall` | singleflight/singleflight.go:49-53 | the conditional delete always finds the thread's own call |
| `Singleflight.ReturnedIsResult` | singleflight/singleflight.go:26-30 | a returned caller got the one result of a call for its key, and that call is no longer mapped |
| `Singleflight.ResultsAreFinal` | singleflight/singleflight.go:54-59 | a result never changes, so all callers of a call read the same one |
| `Singleflight.ResultStep` | singleflight/singleflight.go:37-44 | only the end of the function changes the result of a call, from none to what it returned |
| `Singleflight.NobodyIsStuck` | singleflight/singleflight.go:19-60 | a caller inside Do can step, or waits for a call whose leader can |
| `OwnerSafety.StepFrame` | group.go:417-600 | which steps touch which part of the state, where each step may lead, and that only the stepping thread moves |
| `OwnerSafety.StepInv` | group.go:417-600 | every step keeps the key states, their counts, the generations and singleflight consistent |
| `OwnerSafety.RunInv` | group.go:417-600 | so does every run |
| `OwnerSafety.WriteBackIffUnmutated` | group.go:446-475 | a load hands its value to the cache if and only if no Set or Delete of the key took effect since it read the generation, although key states are reclaimed and reallocated |
| `OwnerSafety.HoldersShareState` | group.go:581-600 | all holders of a key hold the one state mapped to it, and its count is their number |
| `OwnerSafety.MappedIffHeld` | group.go:581-600 | the map holds exactly the keys that some thread holds |
| `OwnerSafety.OneGetterPerNode` | group.go:440-451 | on one node at most one Getter call per key runs, whatever else happens |
| `OwnerSafety.NobodyIsBlocked` | group.go:417-600 | in every run an unfinished thread can take its next step, or waits in Do for a call whose leader can |
| `OwnerReads.OutcomeFresh` | group.go:440-476 | what the loading function returns was set or loaded for the key and takes account of every mutation so far |
| `OwnerReads.CacheIsFresh` | group.go:465-475 | in every run an open owner cache holds only values set or loaded for their key that take account of every mutation of it |
| `OwnerReads.OutdatedIffJoinedEnded` | group.go:417-485 | a value that getLocal returns was set or loaded for that key; it leaves out a mutation that had taken effect when the call began if and only if the call entered, in Do, one whose function had ended and a mutation took effect between that end and its own beginning |
| `OwnerReads.LateJoinReturnsDeleted` | singleflight/singleflight.go:43-53 | a run in which a Get that begins after a Delete has returned gets the deleted value |
| `OwnerAnswers.CallEnters` | group.go:417-428 | an accepted call reaches its key state with the owner cache as it was, or empty if the cache held entries of another epoch |
| `OwnerAnswers.HitIsServed` | group.go:417-433 | whatever other calls are half-way through, getLocal of a key that is in the cache returns the cached value, with and without a Getter, with and without peers |
| `OwnerAnswers.MissWithoutGetter` | group.go:436-438 | without a Getter getLocal of any other key returns ErrCacheMiss |
| `OwnerAnswers.SetIsCached` | group.go:487-504 | setLocal ends without error and its value is in the cache, unless its time to live has run out before it could be stored; no other key changes |
| `OwnerAnswers.DeleteDrops` | group.go:514-535 | deleteLocal ends without error and its key is gone from the cache; no other key changes |
| `OwnerAnswers.CallIsRefused` | group.go:557-566 | a call on a closed group, or on a node that is not the owner, ends with the error that says so and leaves the cache as it was |
| `OwnerAnswers.LeaveGives` | singleflight/singleflight.go:26-30 | whoever leaves Do takes along the result of its call, whether it led the call or waited |
| `OwnerAnswers.LeaderEnds` | singleflight/singleflight.go:43-59 | the leader of a call whose function has returned ends with what the function returned |
| `OwnerAnswers.RecheckServes` | group.go:441-445 | a leader that finds the cache filled serves that value and does not call the Getter |
| `OwnerAnswers.MissReachesSource` | group.go:434-451 | a getLocal that misses calls the Getter if no call of its key is under way |
| `OwnerAnswers.SourceIsKept` | group.go:451-476 | a load that nothing overtakes returns the Getter's value and puts it into the cache |
| `OwnerAnswers.TopologyChanges` | group.go:458-463 | a load whose node no longer owns the key in that epoch ends with ErrTopologyChanged and leaves the cache as it was |
| `OwnerAnswers.MissLoads` | group.go:417-485 | a getLocal that misses, with no call of its key under way, returns the Getter's value and leaves it in the cache |
| `OwnerAnswers.MissFails` | group.go:451-456 | a Getter that fails or panics makes that getLocal fail with it; the cache is as it was |
| `OwnerSettled.SetSettles` | group.go:497-500 | a setLocal that takes effect leaves its value in the cache and has overtaken every load of its key under way |
| `OwnerSettled.StepSettled` | group.go:441-476 | this stays so through every step that does not mutate, lose or clear the key or close the group |
| `OwnerSettled.ReadYourWrites` | group.go:417-504 | in every run, after a setLocal and through any such steps of any threads, every getLocal of the key begun since that has ended returned the value set, unless the node was told that it does not own the key |
| `OwnerSettled.LoadsServeSettled` | group.go:467-472 | a load that the setLocal overtook ends with the value set and not with what the Getter returned |
| `OwnerSettled.DeleteOvertakesLoad` | group.go:467-472 | a load that a deleteLocal overtakes does not bring the key back and ends with ErrCacheMiss |
| `OwnerSettled.ClosedIsFinal` | cache.go:55-106 | what closing leaves in the owner cache stays as it is, whatever calls begun before still do |
| `OwnerStore.StoreLosesAtMost` | store/sharded_lru.go:62-100 | every operation of the sharded store, and any time passing, is its effect on a plain map followed by a loss of some keys |
| `OwnerStore.PutLosesAtMost` | group.go:506-512 | a write of the owner cache, on the store, is the protocol's put followed by a loss |
| `OwnerStore.DropLosesAtMost` | group.go:530-530 | a delete of the owner cache is the protocol's drop followed by a loss |
| `OwnerStore.ClearLosesAll` | group.go:574-574 | clearing the owner cache is the protocol's drop of every key |
| `OwnerStore.LateLosesAtMost` | cache.go:66-69 | a write dropped as expired, when the key's entry has expired too, is the protocol's late put followed by a loss |
| `OwnerLoads.RecheckFindsUnloaded` | group.go:441-447 | among concurrent Gets, a leader that misses the second lookup loads a key never loaded before |
| `OwnerLoads.LoadSucceeds` | group.go:458-476 | without membership change and mutation the ownership check passes and the load writes |
| `OwnerLoads.PendingKept` | group.go:465-476 | a loaded value is in the cache before its call is removed |
| `OwnerLoads.SourceLoadsOnce` | group.go:440-476 | over every interleaving of Gets on an open node, with nothing else going on, the Getter succeeds at most once per key |
| `OwnerEpochs.StepCurrentIff` | group.go:557-579 | a step keeps all entries of the recorded epoch if and only if it is not a write on an ownership check of another epoch |
| `OwnerEpochs.CurrentThroughoutIff` | group.go:568-577 | throughout a run the owner cache holds only entries of the recorded epoch if and only if every write is by a thread whose check was of the epoch recorded at the write |
| `OwnerEpochs.UndisturbedIsTimely` | group.go:458-475 | when no membership change lands between a check and its write, the write is of the recorded epoch |
| `OwnerEpochs.ServedEntriesAreCurrent` | group.go:557-579 | then every hit is of the recorded epoch and no older than the reader's own check: nothing from an earlier ownership period is served |
| `OwnerEpochs.DisturbedServesStale` | group.go:491-499 | a run in which a Set checked in epoch 1 writes after epoch 3 was recorded, and is served |
| `Cluster.OneGetterInCluster` | group.go:417-485 | in every interleaving on all nodes, two running Getter calls for a key are one call, and it runs on the key's ring owner |
| `Cluster.RoutedGetIsAccepted` | server.go:210-222 | while the membership stands, every Get of a key has a node to go to, the same one from everywhere, and that node finds itself the owner |
| `Cluster.ClusterLoadsOnce` | group.go:197-268 | over every interleaving of Gets on all nodes the Getter succeeds at most once for a key in the whole cluster, and only on its ring owner |
| `RoutingModel.NearKeyInjective` | group.go:612-614 | equal near-cache keys have the same epoch and the same key |
| `RoutingModel.Pick` | peers.go:328-340 | the owner of the epoch it is asked in, noted in the history; the invariant is kept |
| `RoutingModel.NearGet` | group.go:228-229 | a hit is noted with its time and was agreed on and stored less than nearTTL before |
| `RoutingModel.HitIsFresh` | cache.go:74-90 | what a near-cache lookup finds was agreed on with the remote owner in the epoch of its name and its time has not run out |
| `RoutingModel.NearPut` | group.go:263-263 | storing an agreed value keeps the invariant, through both conversions of the deadline |
| `RoutingModel.StoreRely` | cache.go:62-72 | every entry of the near cache keeps an origin in the history with a deadline no later than nearTTL after it was stored |
| `Routing.ConfirmHit` | group.go:229-236 | a near value counts only if owner and epoch were picked the same before and after the hit; otherwise it is dropped |
| `Routing.TryNear` | group.go:227-239 | the same for the whole near-cache part of an attempt, with at most three accesses |
| `Routing.LocalReply` | group.go:430-433 | a value of the local owner path is noted as answered by this node |
| `Routing.ConfirmFetch` | group.go:255-265 | a fetched value is returned, unchanged, only if owner and epoch are picked again as before the fetch |
| `Routing.FetchRemote` | group.go:240-265 | a peer's value is returned only if owner and epoch were picked the same before and after the fetch |
| `Routing.Get` | group.go:197-268 | at most four attempts of at most nine accesses to shared state each; what it returns is `RoutingGets.GetReturnsIff` |
| `Routing.GetIsJustified` | group.go:197-268 | against any environment, the value that Get returns is, within the call, what the owner answered between two picks of the same owner and epoch, what the near cache held between two such picks, or what this node itself answered, after its pick when there are peers |
| `Routing.HitOrigin` | group.go:227-235 | a hit under the key of an epoch was fetched or written for that key, from that epoch's owner, less than nearTTL before |
| `Routing.NearValueIsTrue` | group.go:227-265 | so is every near-cache value that Get returns: same key, same remote owner, same epoch, nearTTL not elapsed |
| `RoutingGets.GetAttemptIsGuarded` | group.go:211-266 | against any environment an attempt of Get returns a value, and which, if and only if this node or the owner answers or the near cache holds it with the owner of one epoch before and after; it tries again if and only if its own check or getLocal refuses, the owner refuses without cancellation, or the epoch differs; else it fails with the error of the guard that stopped it |
| `RoutingGets.GetReturnsIff` | group.go:197-268 | Get returns a value if and only if one of four attempts serves it after others that each ask for another one; when all four ask, it returns ErrTopologyChanged |
| `RoutingWrites.SetLocal` | group.go:487-504 | a local write that is done is in the history; a refusal means that another node owns the key in the epoch of the refusal |
| `RoutingWrites.Settle` | group.go:330-337 | a write that counts as done has its agreement in the history, and the last attempt always decides; exactly when it counts is `RoutingResults.SettledIff` |
| `RoutingWrites.AfterPeer` | group.go:316-337 | the same for a remote owner's reply; a refusal of the last attempt is an error |
| `RoutingWrites.Refill` | group.go:344-349 | the writer's near copy is stored only under a pick of the agreed owner and epoch; after an exhausted loop the epoch to match is 0, which no pick has |
| `RoutingWrites.Set` | group.go:274-351 | at most four attempts of at most seven accesses each, and eight more after the loop; when it succeeds is `RoutingResults.SetSucceedsIff`, what it leaves near `RoutingNear.SetLeavesOnlyItsCopy` |
| `RoutingWrites.Delete` | group.go:355-413 | at most four attempts of at most five accesses each, and four more after the loop; when it succeeds is `RoutingResults.DeleteSucceedsIff`, what it leaves near `RoutingNear.DeleteLeavesNoCopy` |
| `RoutingResults.DeleteMeansDeleted` | group.go:355-413 | Delete returns nil only if, within the call, the owner carried out the delete and owner and epoch agreed before and after it, or without peers the local delete was carried out |
| `RoutingResults.SettledIff` | group.go:330-337 | a write that was carried out succeeds if and only if the epochs of the two picks are equal; otherwise the attempt asks for another one, and the last one returns ErrTopologyChanged |
| `RoutingResults.PeerEnds` | group.go:316-337 | how an attempt with a remote owner ends, for each reply of the peer and, after a write, by the epoch of the second pick |
| `RoutingResults.AttemptIsGuarded` | group.go:301-337 | an attempt of Set or Delete succeeds if and only if the owner picked carries out the write and the epoch is the same at both picks; it asks for another one if and only if this node is picked and, still open, names another owner at its own check, or, unless it is the last, a peer refuses without cancellation or the epochs differ; else it fails with the error of the guard that stopped it |
| `RoutingResults.RefusalMeansChange` | group.go:305-308 | such a refusal means that the epoch changed inside the attempt |
| `RoutingResults.SetLoopIff` | group.go:290-338 | Set's loop succeeds if and only if some attempt settles after others were refused or unsettled, and runs out if and only if none does and the last refuses itself; then the epoch has changed, and no attempt has written if and only if each was refused |
| `RoutingResults.DeleteLoopIff` | group.go:367-407 | Delete's loop succeeds if and only if some attempt settles after others were refused or unsettled |
| `RoutingResults.SetSucceedsIff` | group.go:274-351 | Set returns nil under agreement if and only if its arguments are accepted and some attempt settles after others were refused or unsettled |
| `RoutingResults.DeleteSucceedsIff` | group.go:355-413 | Delete returns nil if and only if the group is open, the key is not empty and, with peers, some attempt settles after others were refused or unsettled |
| `RoutingResults.SetRunsOutIff` | group.go:274-351 | Set returns nil without agreement if and only if it reaches the loop and the guards hold of all four attempts |
| `RoutingResults.SetUnwrittenIff` | group.go:274-351 | Set returns nil with no attempt carried out if and only if attempts one to three are each refused by this node or by a peer and the fourth by this node |
| `RoutingResults.LoopWrites` | group.go:305-337 | the writes that an exhausted Set reports were carried out within the call |
| `RoutingResults.SetMeansWritten` | group.go:274-351 | Set returns nil only if the write was carried out under agreement, or locally without peers, or the attempts ran out under the guards; then the epoch changed and the writes carried out are known |
| `RoutingUnwritten.SilentUnwrittenIff` | group.go:274-351 | against an environment that carries out nothing itself, Set returns nil with no owner-side operation in the history of the call if and only if all four attempts are refused, the last by this node |
| `RoutingUnwritten.SetMayReturnUnwritten` | group.go:305-308 | an environment in which Set returns nil and no owner carries out anything during the whole call |
| `RoutingCalm.OwnerGetAnswers` | group.go:211-222 | while the membership stands, Get on the owner returns exactly the first of four getLocal answers that is not a refusal, or ErrTopologyChanged |
| `RoutingCalm.AloneGetAnswers` | group.go:207-209 | without peers Get returns exactly the answer of getLocal |
| `RoutingCalm.NearHitIsServed` | group.go:227-234 | off the owner, what the near cache holds at the lookup is what Get returns |
| `RoutingCalm.NearMissFetches` | group.go:240-265 | after a near miss Get returns exactly the owner's value or error |
| `RoutingCalm.RemoteGetAnswers` | group.go:211-267 | off the owner and without a near cache, Get returns exactly the first of the owner's four replies that is not a refusal, or ErrTopologyChanged |
| `RoutingCalm.GetRefusals` | group.go:201-225 | which error Get returns before any owner is asked |
| `RoutingCalm.OwnerSetSucceeds` | group.go:305-334 | on the owner, Set of a value returns nil while the membership stands |
| `RoutingCalm.OwnerDeleteSucceeds` | group.go:380-403 | so does Delete |
| `RoutingCalm.AloneWritesSucceed` | group.go:291-296 | without peers Set and Delete of an open group return nil |
| `RoutingCalm.RemoteWritesAnswer` | group.go:312-334 | off the owner Set and Delete return exactly what the first of the owner's four replies that is not a refusal says |
| `RoutingCalm.WriteRefusals` | group.go:278-315 | which error Set and Delete return before any owner is asked |
| `RoutingNear.UnconfirmedIsDropped` | group.go:229-236 | a near hit is served if and only if the epoch of the next pick is that of the call; otherwise its copy is dropped |
| `RoutingNear.DeleteInvalidates` | group.go:410-410 | a Delete without error in an open group has dropped, after the agreement, the near copy of the epoch it is in by then |
| `RoutingNear.SetInvalidates` | group.go:341-341 | so has a Set under agreement |
| `RoutingNear.NearIsNewerThanDelete` | group.go:355-413 | against any environment, a near value that Get returns after a Delete has returned nil was stored after the owner carried out that delete |
| `RoutingNear.NearIsNewerThanSet` | group.go:274-351 | the same after a Set under agreement |
| `RoutingNear.MutateLeavesNoCopy` | group.go:533-545 | the mutation of setLocal and deleteLocal drops the near copy of the current epoch |
| `RoutingNear.DeleteLeavesNoCopy` | group.go:355-413 | against an environment that leaves epoch and near cache alone, a near lookup after a Delete without error misses |
| `RoutingNear.SetLeavesOnlyItsCopy` | group.go:274-351 | after a Set under agreement it misses or finds the value set |
| `RoutingNear.DeleteThenGet` | group.go:197-268 | so a Get after a Delete asks the owner and returns its answer |
| `RoutingNear.SetThenGet` | group.go:197-268 | and a Get after a Set returns the value set, or asks the owner and returns its answer |
| `RoutingNear.NearPutFills` | group.go:263-263 | a value that fits its shard is found until nearTTL after it was offered |
| `RoutingNear.GetFills` | group.go:262-264 | a value fetched from the owner is found until nearTTL after the start of the call |
| `RoutingNear.SetFills` | group.go:344-349 | so is a value set at the owner |
| `RoutingNear.GetThenGet` | group.go:227-265 | a second Get that looks up within nearTTL of the first returns the same value from the near cache |
| `RoutingNear.SetThenNearGet` | group.go:344-349 | a Get that looks up within nearTTL of a Set on a node that does not own the key returns the value set from the near cache |
| `RoutingNear.ClosedNearStays` | cache.go:62-97 | a closed near cache is neither filled nor emptied |
| `GroupApi.Group.constructor` | group.go:131-158 | an open group with an empty near cache |
| `GroupApi.Group.Get` | group.go:197-268 | the loop of four attempts is the function Get, so its result is what GetReturnsIff and the lemmas of RoutingCalm say, within the bound on accesses, and is justified by the history of the call |
| `GroupApi.Group.SetByLoop` | group.go:290-338 | Set's loop with peers and its exit after four attempts, with the writes carried out by then |
| `GroupApi.Group.Set` | group.go:274-351 | Set is the function Set: nil exactly as SetSucceedsIff and SetRunsOutIff say, meaning what SetMeansWritten says |
| `GroupApi.Group.DeleteByLoop` | group.go:367-407 | Delete's loop with peers |
| `GroupApi.Group.Delete` | group.go:355-413 | Delete is the function Delete: nil exactly as DeleteSucceedsIff says, meaning an agreed delete within the call |

## History variables and assumptions

- Epoch and count tags of cache entries and results, the number of mutations of a
  key, what was set and loaded, how many mutations there had been when a function
  passed to `Do` ended, and the event history of the routing node (picks, answers,
  near hits, near copies stored and dropped) are history:
  they record what happened and no branch depends on them. The exits of a write
  carry the places of their evidence in that history.
- Element handles of the LRU list stand for addresses.
- Each clock reading is an input of its own. Where a result needs a clock that
  never goes back, it says so.
- A watch response carries all events from `rev` up to its header revision, so
  none when its header is older. Registrations hold the address of their
  key or an empty value.
- Epochs, generations and sizes are unbounded integers; 2^64 changes are not
  reached. The key hashes are arbitrary functions to 32-bit values.
- A late write to the owner cache (its time to live gone before it is stored) also
  removes what the key held; that this had expired is
  `LruRuns.LateWriteFindsExpired`.

## Left out

- gRPC client and server, protobuf, TLS, health checks: a peer call is an answer, a refusal or an error chosen by the environment.
- etcd client, leases and keep-alive, address normalisation: foreign calls and the host's network.
- Delivery of peer invalidations: best effort by design, there is no guarantee to state.
- Tickers, sleeps, the wait before a retry, goroutine lifecycle and Close timeouts: cleanup may happen at any step, and waiting changes nothing but time.
- Eviction callbacks (`onEvicted`), statistics, logging, the group registry and option constructors: easy members only.
- Byte slices are values: the defensive copies of ByteView are not modelled.
- `runtime.Goexit` and `panic(nil)` inside a Getter: a Getter returns, fails or panics with a value.
- Clear and cleanup of the sharded store, and the closing of a group with its caches, are one step each; a run between two shards is not modelled.
- Evictions, expiry and explicit clearing of the owner cache, and the deletion by invalidateLocalCopies, are one step that loses any set of keys; OwnerStore shows that the store does no more.
- The owner's own cache is not part of the routing node; what an owner answers is the environment's choice, and OwnerModel describes it.
- Membership changes during a run of the whole cluster: two nodes may then both find themselves the owner of a key for a while.
