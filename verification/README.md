# Verification of the Netproc core

Netproc shows which processes use the network. This project models the parts of it in which a mistake
would be hard to see by testing, and proves what those parts are for:

* the **resolver's worker pool** (`ThreadPool*.dfy`, `TaskQueue.dfy`): all interleavings of the main
  thread, any number of workers and spurious wake-ups, as steps of one state; the linked FIFO below it as a class;
* the **hash table** (`HashTable.dfy`, `LoadFactor.dfy`, `Bits.dfy`): chains of entries relinked in place,
  both resizing thresholds, and the bit arithmetic of the bucket count;
* the **life of connections and processes** (`Lifecycle*.dfy`, `Monitor.dfy`): two sets of allocated objects
  that point at each other, each with a grace scheme of its own, under arbitrary contents of `/proc`;
* the **DNS cache** (`DomainCache*.dfy`): the ring, its hash index and the workers, interleaved;
* the **fragment tracker** (`Fragments.dfy`, `FragmentTheorems.dfy`): 32 slots with expiry;
* the **packet filter** (`PacketFilter.dfy`): the three instruction arrays against their labelled source;
* the **rate window** (`Rate.dfy`, `RateTheorems.dfy`, `RateRuns.dfy`) and the **mixers** of the hash (`JHash.dfy`).

`dafny verify dfyconfig.toml` checks everything.

## How to read it

Code that changes state step by step is a class whose methods carry the loops; each method's `ensures`
ties the new state to a specification function of the old one, and the properties are lemmas about those
functions. Code that several threads run is a step system: a state, the steps each thread can make, an
invariant that every step keeps, and theorems about every reachable state.

In the lifecycle model a pointer is the number of an allocation and the heap is two explicit maps, so
that a dangling pointer can be talked about: it is a number that is no longer a key. Reading through one
sets `fault` in the specification functions, and cannot be written in `Monitor.dfy` at all, because a map
may only be read at its keys. `connection_get_by_inode` and `connection_get_by_tuple` compare keys of one
kind only, although both kinds share a table; the model assumes that a lookup never takes an entry of one
kind for one of the other.

## Results that are conditional in the code

* The pool is safe to free **exactly if** it has at most three workers (`ThreadPoolTheorems.PoolSafeIff`).
  The loop in `thpool_free` runs three rounds whatever the number of workers is, while the default, which `main`
  asks for, is one worker for each processor but one. For every larger pool there is a run, given step by step,
  in which a worker dequeues from the queue that was just freed.
* An update leaves a connection with a pointer to a freed process **exactly if** some connection that
  outlives it points to a process that was not active and that its scan does not find again
  (`LifecycleTheorems.DanglingIff`). `LifecycleExample.UnscannedProcessDangles` is such a run of three updates:
  a connection stays listed while the descriptors of its process cannot be read in two updates.
* A datagram's key is unique among the slots **exactly as long as** no datagram's first fragment is stored while an earlier one is open
  (`FragmentTheorems.UniqueKeysKeptIff`).
* A rate window is right **exactly if** no period in it began with a tick that missed the struct and left
  traffic of five, ten, ... periods before in its sample (`RateTheorems.WindowIsExactIff`, over all histories and
  all four kinds of traffic); five ticks in a row that list it repair the window
  (`RateTheorems.FiveListedTicksRepair`). A process that an update leaves out of the list is freed by the next
  successful one and not shown in between, but a connection can drop out of every list and come back with
  another process: `RateTheorems.MissedTickShowsOldTraffic` is such a history.
* A host of the DNS cache gets its name **exactly if** its task was accepted (`DomainCacheRest.RestIsResolved`).
  `ip2domain` ignores a failing `add_task`, so the host stays marked as resolving for good, and when the ring comes to
  it no new address is taken in any more (`DomainCacheRest.RefusedStopsTheRing`).
* A table that loses its last entry by `hashtable_min_remove` has no buckets (`next_power2(0)` is 0), and
  the next set gives it two.

## Model

| member | source | states |
|---|---|---|
| ThreadPoolInvariant.InvKept | src/resolver/thread_pool.c:60-151 | Every step of every thread keeps the pool's invariant: who holds the queue's mutex, that nobody sleeps on a set semaphore without another sleeper woken for it, that the token of a waiting task is not lost, the history of every task, and that each exit token is backed by a worker that is gone |
| ThreadPoolInvariant.WakeupKept | src/resolver/thread_pool.c:60-87 | Although a post to a set semaphore is absorbed, a set `bsem_jobs` never leaves all waiters asleep, spurious wake-ups included |
| ThreadPoolInvariant.NotStrandedKept | src/resolver/thread_pool.c:125-140 | While the pool is not stopping and the queue is not empty, the semaphore is set, or a worker has passed its wait and not yet dequeued or rearmed, or the adder is about to post |
| ThreadPoolInvariant.TasksKept | src/resolver/thread_pool.c:130-140 | Of each task the number of times it was dequeued is the number of workers that hold it plus the number of times it has run |
| ThreadPoolInvariant.OrderKept | src/resolver/queue.c:65-113 | What has been added is what was dequeued, then what is queued, then what `queue_destroy` dropped, in this order |
| ThreadPoolInvariant.ExitComesKept | src/resolver/thread_pool.c:203-213 | After `thpool_free` has read `workers_alive > 0` the exit token is set or a worker that will post it is on its way or can take the jobs token, although `bsem_post_all` leaves a single token |
| ThreadPoolInvariant.QuietKept | src/resolver/thread_pool.c:143-148 | With at most three workers, once the shutdown loop is left every worker has not started, is about to test `worker_stop`, is leaving, or is gone |
| ThreadPoolTheorems.TasksConserved | src/resolver/thread_pool.c:125-201 | In every reachable state tasks were dequeued in the order they were added, and added = queued + held by a worker + done + dropped, task by task |
| ThreadPoolTheorems.NoTaskStranded | src/resolver/thread_pool.c:125-201 | With any positive number of workers, a pool that is not shutting down and in which no thread can move has run every task ever added, each as often as it was added |
| ThreadPoolTheorems.ShutdownReturns | src/resolver/thread_pool.c:203-221 | Once `thpool_free` has begun, the only states in which no thread can move are those in which it has returned, for any number of workers |
| ThreadPoolTheorems.ExitTokenComes | src/resolver/thread_pool.c:206-213 | While `thpool_free` waits for a worker, the exit token is set, or a worker that needs no more tokens has still to post it, or the jobs token is set and there is a worker that will take it |
| ThreadPoolTheorems.WorkersPostForTasks | src/resolver/thread_pool.c:130-134 | In any reachable state a worker's step after which `bsem_jobs` is set has found it set, or a task is waiting in the queue |
| ThreadPoolTheorems.RunsAreBounded | src/resolver/thread_pool.c:115-221 | In every schedule the steps of the pool are paid for by the calls and spurious wake-ups made, so finitely many calls lead to rest after a bounded number of steps |
| ThreadPoolTheorems.ShutdownCompletes | src/resolver/thread_pool.c:203-221 | `thpool_free` returns: from any state in which it has begun, every schedule makes a bounded number of steps, and one that comes to rest has brought it to its end |
| ThreadPoolTheorems.ShutdownTakesFew | src/resolver/thread_pool.c:122-141 | Once `worker_stop` is set, over any run no more tasks are dequeued than there were workers already past both tests of it and about to dequeue |
| ThreadPoolTheorems.ShutdownDropsTheRest | src/resolver/thread_pool.c:203-221 | When `thpool_free` has returned, the tasks that waited when it began were split in order: the first few, no more than those workers, were taken, and `queue_destroy` dropped all others |
| ThreadPoolTheorems.SafeAfterLoop | src/resolver/thread_pool.c:203-221 | With at most three workers, in every interleaving no step after the shutdown loop has a worker touch the queue or run a task, late starters included |
| ThreadPoolTheorems.UnsafeWithMoreWorkers | src/resolver/thread_pool.c:206-213 | For every larger number of workers a run ends with a worker about to dequeue from the queue after it was freed |
| ThreadPoolTheorems.PoolSafeIff | src/resolver/thread_pool.c:203-221 | No reachable state has a worker use the freed queue if and only if the pool has at most three workers |
| TaskQueue.Queue.Enqueue | src/resolver/queue.c:65-82 | Appends the value and returns the new size, or changes nothing and returns 0 without memory; a stale tail of an empty queue is never followed |
| TaskQueue.Queue.Dequeue | src/resolver/queue.c:84-99 | Removes the first value and frees exactly its node, or returns nothing from an empty queue |
| TaskQueue.Queue.Destroy | src/resolver/queue.c:101-113 | Clears every queued value once, in order, and frees every node |
| LoadFactor.NextPower2IsLeast | src/hashtable.c:63-81 | For 1 <= s <= 2^63 the smeared bits give the least power of two that is at least s |
| LoadFactor.NextPower2OfZero | src/hashtable.c:63-81 | `next_power2(0)` wraps around to 0 |
| LoadFactor.IndexIsModulo | src/hashtable.c:83-87 | For a power of two the mask is the remainder |
| LoadFactor.RehashLoad | src/hashtable.c:28-31 | A rehash of n >= 1 entries gives a load above 17/80 and at most 1/2, strictly inside both thresholds |
| LoadFactor.RehashIsLeast | src/hashtable.c:92-93 | A rehash of n >= 1 entries asks for the least power of two that is at least 40n/17 rounded down |
| LoadFactor.RehashOfNone | src/hashtable.c:92-93 | A rehash without entries asks for no buckets |
| LoadFactor.GrowthDoubles | src/hashtable.c:174-183 | A rehash for being too full at least doubles the buckets |
| LoadFactor.GrowthIsPaid | src/hashtable.c:174-183 | Relinking all entries when the table grows is covered by the credit that sets and removals have saved since the last rehash |
| LoadFactor.ShrinkIsPaid | src/hashtable.c:337-340 | The removals before a shrink have paid for relinking all entries that are left |
| HashTable.SlistPrepend | src/slist.h:34-39 | The item comes in front of the chain, every other bucket is as it was |
| HashTable.SlistRemove | src/slist.h:41-48 | The chain loses exactly this item and keeps its order |
| HashTable.HashTable.constructor | src/hashtable.c:123-142 | An empty table of 16 buckets |
| HashTable.HashTable.Rehash | src/hashtable.c:89-121 | Afterwards every entry is again once in the chain of its hash, chains are acyclic and disjoint, the bucket count is the one asked for, and all entries were relinked if it changed; without memory nothing changes |
| HashTable.HashTable.MinSet | src/hashtable.c:159-189 | Adds one entry to the multimap, or fails without memory and leaves it as it was; afterwards 4n <= 3b, and a table that the new entry fits in does not grow; relinks the entries that were there exactly if the bucket count changes |
| HashTable.HashTable.GetEntry | src/hashtable.c:197-215 | Finds an entry with this hash and an equal key if there is one in the table, and nothing else |
| HashTable.HashTable.MinRemove | src/hashtable.c:308-343 | Takes out exactly one matching entry, frees it and returns its value, or changes nothing if none matches; with memory 10n >= b afterwards, a table that is not too empty keeps its buckets, and the entries left are relinked exactly if the bucket count changes |
| HashTable.HashTable.ForeachRemove | src/hashtable.c:277-306 | Calls the callback on every entry once, removes and frees exactly those for which it says so, whatever the answers depend on |
| HashTable.HashTable.MinDestroy | src/hashtable.c:360-380 | Hands every value to the callback once and frees every entry, although it stops at a count of 0; no entry is freed already when it comes up |
| HashTable.HashTable.RelinkBound | src/hashtable.c:89-121 | Over any run from a new table the entries relinked are at most 3 * sets + removals + 3 |
| HashTable.HashTable.BucketCount | src/hashtable.c:174-186 | The bucket count is a power of two, or 0 with an empty table, and at most 3/4 of it is in use |
| Lifecycle.FindInode | src/connection.c:269-276 | A connection that the table has under this inode, if any |
| Lifecycle.FindTuple | src/connection.c:278-286 | A connection that the table has under this tuple, if any |
| LifecycleSweeps.CollectionIsExact | src/connection.c:217-252 | In whatever order the table is visited, a collection frees every unmarked connection once, keeps the marked ones with a count of 1, uses no freed memory, and leaves two entries for each connection |
| LifecycleSweeps.TwoCollections | src/connection.c:217-252 | Two collections without a mark in between free every connection |
| LifecycleSweeps.MarkSaves | src/connection.c:186-192 | A mark in between saves the connection |
| LifecycleSweeps.RowKeepsInv | src/connection.c:181-207 | A row keeps the tables in order and inodes unique; what it creates is new, marked and without a process |
| LifecycleSweeps.RowMarksOne | src/connection.c:186-192 | A row marks the one connection with its inode, if there is one, and leaves every other as it was |
| LifecycleSweeps.RowIsCounted | src/connection.c:181-207 | Rows in state 6 (TIME_WAIT) or 10 (LISTEN) change nothing, any other well-formed row leaves its inode marked |
| LifecycleSweeps.UpdateNames | src/connection.c:128-267 | After `connection_update`, even if it fails half-way, the marked inodes are those its rows have named and the live ones are those and the ones marked before |
| LifecycleSweeps.EveryConnIsFreedOnce | src/connection.c:288-303 | Destroying the table frees each connection once, at its second entry, in whatever order the entries come |
| LifecycleScan.ProcCollectionIsExact | src/processes.c:167-179 | The collection frees exactly the inactive processes, marks the rest inactive, and does not depend on the order |
| LifecycleScan.ScanFdFills | src/processes.c:239-263 | One descriptor puts its connection in the process, creating that on the first one; if its name cannot be read the scan of it stops |
| LifecycleScan.ScanAllAssigns | src/processes.c:206-271 | After the scan a connection belongs to the live, active process with the pid that the listing says, the last one if several name it, and is unchanged if none does |
| LifecycleScan.ScanAllListsOnce | src/processes.c:266-270 | No process is listed twice if no pid is scanned twice |
| LifecycleTheorems.UpdateKeepsInv | src/processes.c:189-279 | No update, whatever it reads and wherever it fails, uses freed memory or breaks either table |
| LifecycleTheorems.UpdateIsLastTwo | src/connection.c:128-267 | The live connections after an update are those that it or the update before has named |
| LifecycleTheorems.UpdateFreesInactive | src/processes.c:167-225 | A successful update frees a process exactly if it was not active, and keeps pid and totals of the others |
| LifecycleTheorems.UpdateListsLive | src/processes.c:202-276 | After a successful update every listed process is live and active, counts its connections right, and all of them are live; the list has no duplicates unless the pids have |
| LifecycleTheorems.PointerAfter | src/processes.c:206-264 | What a whole update makes of each connection's pointer: the process of the pid that its scan gives it, or what it was |
| LifecycleTheorems.DanglingIff | src/processes.c:167-264 | A successful update leaves no dangling pointer if and only if each marked connection had no process, had an active one, or is assigned again by the scan |
| LifecycleListing.NewTuple | src/connection.c:181-207 | A new connection has the tuple of the first row that names its inode, if no malformed row comes before that |
| LifecycleListing.UpdateShowsSockets | src/processes.c:206-271 | After a successful update that scans no pid twice, each known process with readable descriptors is listed, and the inodes of its vector are its descriptors that are sockets of live connections, in their order and as often as they come |
| LifecycleListing.VectorHasSockets | src/processes.c:227-264 | So a connection is in the vector if and only if it is live and has an inode among the descriptors |
| LifecycleRuns.FaultIffDangling | src/statistics.c:87-125 | Some packet can make `statistics_add` use freed memory if and only if some connection's pointer dangles |
| LifecycleRuns.CreditCounts | src/statistics.c:87-125 | Field by field: a packet is counted exactly if its connection has a process; then the interface is the packet's, the process's total in the packet's direction grows by its length, the connection's does so if connections are shown, and no other field, connection or process changes; otherwise nothing does |
| LifecycleRuns.PacketGoesToOwner | src/statistics.c:87-125 | A packet after a successful update is counted for the process whose descriptors named its connection, for no other, and in its direction |
| LifecycleRuns.RunFaultsIff | src/statistics.c:87-125 | Over any run of updates and packets freed memory is used if and only if some packet follows a dangling pointer, and until then both tables are in order |
| LifecycleRuns.RunDanglesIff | src/processes.c:189-279 | Over any run of updates and packets no pointer ever dangles if and only if each update was secure for the connections that outlive it; no freed memory is used then |
| LifecycleRuns.AssignedRunIsSafe | src/processes.c:167-264 | From the start, if each scan assigns again the marked connections that had a process, no pointer ever dangles and no freed memory is used |
| LifecycleRuns.LiveAreLastTwo | src/connection.c:217-267 | After any run that has not used freed memory, dangling pointers or not, there is exactly one connection for each inode that one of the last two updates has named, and the tables are in order |
| LifecycleTotals.ProcTotals | src/statistics.c:94-122 | After any run of updates and packets that has not used freed memory, the totals of a live process are exactly the lengths, by direction, of the packets that came for a connection which had this process at that moment |
| LifecycleTotals.ConnTotals | src/statistics.c:94-122 | And those of a live connection the lengths of the packets that came for it while connections were shown and it had a process |
| LifecycleExample.UnscannedProcessDangles | src/processes.c:211-217 | A run of three updates that leaves a dangling pointer, because the descriptors of a process could not be read twice |
| Monitor.Monitor.SweepConns | src/connection.c:217-252 | In place: the collection as specified, in the given order |
| Monitor.Monitor.RemoveInactiveConn | src/connection.c:217-236 | In the middle of a sweep, whatever was visited before: afterwards a connection is gone exactly if it was unmarked and both its entries have been visited, and the count of every other is down by its visits |
| Monitor.Monitor.GetByInode | src/connection.c:269-276 | The one connection with the inode |
| Monitor.Monitor.GetByTuple | src/connection.c:278-286 | A live connection with the tuple, exactly if there is one |
| Monitor.Monitor.UpdateFromRow | src/connection.c:181-207 | In place: one row |
| Monitor.Monitor.UpdateFromFile | src/connection.c:128-215 | In place: the rows up to the first malformed one, and whether there was one |
| Monitor.Monitor.ConnectionUpdate | src/connection.c:249-267 | In place: the collection, then both files; a failed first file hides the second |
| Monitor.Monitor.SweepProcs | src/processes.c:167-202 | In place: the collection of processes |
| Monitor.Monitor.CreateNewProcess | src/processes.c:99-125 | The new process has memory of its own, is active under its pid and has no connections; no other process and no connection changes, and the tables stay in order |
| Monitor.Monitor.ScanOneFd | src/processes.c:239-263 | In place: one descriptor |
| Monitor.Monitor.ScanOne | src/processes.c:206-271 | In place: one process of `/proc` |
| Monitor.Monitor.ProcessesUpdate | src/processes.c:189-279 | In place: the whole update, and when it fails |
| Monitor.Monitor.StatisticsAdd | src/statistics.c:87-125 | In place: without a connection of its tuple a packet changes nothing and is not counted; else one such connection and its process are credited as `CreditCounts` says, field by field, and the tables stay in order. The pointers of the connections with that tuple must not dangle, others may |
| Monitor.Monitor.ConnFree | src/connection.c:288-296 | In the middle of destroying the table: afterwards a connection is freed exactly if both its entries have come up |
| Monitor.Monitor.ConnectionFree | src/connection.c:298-303 | In place: every connection is freed |
| DomainCache.InvKept | src/resolver/domain.c:88-165 | Every step of `ip2domain` and of every worker keeps the invariant of the cache |
| DomainCache.HitsAreCorrect | src/resolver/domain.c:117-125 | Under all interleavings every name returned from the cache is the name of the very address it was asked for |
| DomainCacheProgress.LookupFinds | src/resolver/domain.c:117-119 | A lookup of an address that a host of the ring has finds that host |
| DomainCacheProgress.HitIsAnswered | src/resolver/domain.c:117-125 | In any reachable state, a call for an address whose host is resolved adds exactly the address and its name to the answers, with any steps of the workers before, between and after its own |
| DomainCacheProgress.HitCanBeMade | src/resolver/domain.c:117-125 | Such a call can always be made, without waiting for a worker |
| DomainCacheProgress.UnresolvedIsNotAnswered | src/resolver/domain.c:126-130 | A call that reads the status while the host is being resolved ends without an answer, whatever the workers do |
| DomainCacheProgress.CallGoesOn | src/resolver/domain.c:115-165 | In any reachable state a call that has read the index, or has taken a host over, can make its next step |
| DomainCacheProgress.MissIsQueued | src/resolver/domain.c:132-164 | A call for an unknown address, when the next host is free or can be allocated, puts the address in that host, marks it as resolving, queues it, indexes it and moves the ring on by one; no other host changes |
| DomainCacheProgress.BusyRingWaits | src/resolver/domain.c:138-141 | When the next host is still being resolved the call ends and nothing has changed |
| DomainCacheProgress.EvictedLeaves | src/resolver/domain.c:143-143 | The host that is taken over leaves the index, and with memory the table is left with at most ten buckets for an entry, none if it was the only one |
| DomainCacheProgress.TaskIsResolved | src/resolver/domain.c:88-108 | A worker that takes the first task can go on until its host holds the name of its address and is resolved |
| DomainCacheRest.LostIffRefused | src/resolver/domain.c:88-165 | Over any run of all threads the hosts that are marked as resolving while no task, queued or running, is about them are exactly those that were so before and those whose task was refused |
| DomainCacheRest.RestIsResolved | src/resolver/domain.c:88-165 | Between calls, when no worker can go on, every host of the ring is resolved and has the name of its address, unless its task was ever refused: then it is still marked as resolving |
| DomainCacheRest.RefusedStopsTheRing | src/resolver/domain.c:138-157 | When the ring has come to a host whose task was refused, a call for an unknown address ends and nothing has changed |
| DomainCache.IndexIsAMap | src/resolver/domain.c:136-161 | Between calls an address is in the index exactly if a host of the ring has it, in one way only, and the index has at most `cache_size` entries |
| DomainCache.LookupsHaveBuckets | src/resolver/domain.c:143-159 | No lookup and no removal is made on a table without buckets, although one host's refill can leave the table with none |
| DomainCache.RefilledHostIsFree | src/resolver/domain.c:138-157 | A host that a queued or running task is about is never refilled, and no two workers have the same host |
| DomainCache.EachHostIsFreedOnce | src/resolver/domain.c:167-175 | The table that frees the hosts points to each of them exactly once |
| Fragments.FlagFields | src/packet.c:152-167 | The masks take the fragment word apart as section 3.1 of RFC 791 lays it out |
| Fragments.FragmentKinds | src/packet.c:152-172 | By the fields of the word: a first fragment has DF 0, MF 1 and offset 0, a later one DF 0 and another offset |
| Fragments.SweptFields | src/packet.c:186-193 | A sweep closes exactly the open slots stored three seconds ago or earlier and changes nothing else of any slot |
| Fragments.PortBytes | src/packet.c:213-214 | A port word 256 h + l of the wire is the port 256 l + h |
| Fragments.ParseAnswers | src/packet.c:241-311 | Field by field: what goes out is an upload from its source, local, to its destination, remote; what comes in a download with the two exchanged; ports are the frame's, or for a later fragment those of the open slot; other packet types, unknown fragments and a full table give nothing |
| Fragments.ReplyHasSameTuple | src/packet.c:249-308 | A frame and its reply give the same local and remote address and port |
| Fragments.FragmentTable.StoreFragment | src/packet.c:89-116 | Fills the first free slot, or answers -1 exactly if none is free; the counter stays the number of open slots, so the last return is dead |
| Fragments.FragmentTable.SearchFragment | src/packet.c:118-142 | Finds the first open slot with the key, and frees it for the last fragment |
| Fragments.FragmentTable.DecReassemble | src/packet.c:55-56 | The saturating decrement never saturates |
| Fragments.FragmentTable.GetFragmentInPlace | src/packet.c:149-176 | Stores a first fragment, looks up a later one, ignores the rest |
| Fragments.FragmentTable.ClearFrag | src/packet.c:178-195 | Closes every slot stored three seconds ago or earlier and no other, although it stops when the counter is 0 |
| Fragments.FragmentTable.ParsePacket | src/packet.c:218-317 | In place: the packet that `ParseAnswers` describes field by field, then the sweep |
| FragmentTheorems.Origin | src/packet.c:89-116 | Every open slot was filled by a first fragment and has been neither closed nor swept since |
| FragmentTheorems.LaterFragmentPorts | src/packet.c:118-142 | An accepted later fragment gets the ports of an earlier first fragment with the same id and addresses whose slot was neither closed nor swept in between |
| FragmentTheorems.AcceptedIffOpen | src/packet.c:161-175 | A later fragment is accepted if and only if a slot with its key is open |
| FragmentTheorems.DatagramGetsItsPorts | src/packet.c:149-195 | With a slot free, distinct keys, fragments in order and no sweep three seconds or more after storing, every fragment of a datagram yields the first one's ports |
| FragmentTheorems.UniqueKeysKeptIff | src/packet.c:159-172 | Keys stay unique if and only if no datagram is opened twice |
| FragmentTheorems.RefinesMap | src/packet.c:149-176 | With unique keys the slots do what a map from (id, source, destination) with room for 32 does |
| FragmentTheorems.SweepRefinesMap | src/packet.c:178-195 | The sweep forgets exactly the expired datagrams of the map |
| FragmentTheorems.ParseRefinesMap | src/packet.c:218-317 | One packet gives the map's tuple and the map's open datagrams, expiry included |
| FragmentTheorems.RunRefinesMap | src/packet.c:218-317 | Over any run from the empty table in which the map sees no datagram opened twice, the table holds what the map holds |
| FragmentTheorems.OutRefinesMap | src/packet.c:218-317 | And every packet of the run gets the tuple that the map gives it |
| PacketFilter.AssembleCorrect | src/bpf/program.bpf:40-74 | For every program and packet the assembled code gives the verdict of the labelled source |
| PacketFilter.ArraysAreAssembled | src/filter.c:35-85 | The three arrays are what the labelled source assembles to under its three defines |
| PacketFilter.FilterMatchesSource | src/filter.c:35-85 | For every packet of any length each array gives the source's verdict |
| PacketFilter.FilterMeaning | src/bpf/program.bpf:39-74 | A packet is kept exactly if it is IPv4 by either layout, has neither address in 127.0.0.0/8 and carries a wanted protocol; one too short for a load that is reached is not |
| PacketFilter.UnionOfFilters | src/filter.c:35-85 | The TCP and UDP array keeps exactly what one of the other two keeps |
| PacketFilter.FilterByFlags | src/filter.c:87-106 | Which array each combination of flags selects, what it keeps, and that other flags are refused |
| Rate.AverageIsNearest | src/rate.c:50-56 | The rounded fifth is the one nearest integer |
| Rate.NetStat.RateNetStat | src/rate.c:28-57 | The four averages are the rounded fifths of the sums, in bits unless bytes are shown |
| Rate.NetStat.ClearSample | src/rate.c:110-116 | One struct at a tick |
| Rate.Rates.RateAddRx | src/rate.c:81-89 | A received packet goes to the current sample, the last second and the total |
| Rate.Rates.RateAddTx | src/rate.c:91-99 | A sent packet likewise |
| Rate.Rates.RateUpdate | src/rate.c:101-130 | The index moves on by one of five; field by field, in every listed process and, if shown, its connections the sample it reaches is zero, the last-second counters of listed processes are zero and those of connections stay, and every other sample, total, average and struct is as it was |
| Rate.Rates.RateCalc | src/rate.c:59-75 | Every listed process and, if shown, its connections get the four nearest fifths of their five samples, in bits unless bytes are shown; nothing else changes |
| RateRuns.Run | src/rate.c:59-130 | Over any run of the four functions on all structs, each struct's samples and counters are those of its own history, so each of its windows is the traffic of that history and what is stale in it |
| RateRuns.CallFollows | src/rate.c:77-130 | One call on one struct: what the methods make of it is what the history with that call says, listed twice or shared by two processes included |
| RateTheorems.SamplesAreHeld | src/rate.c:77-130 | After any history of a process or a connection, missed ticks included, each sample is its period's traffic and what a missed tick has left in it |
| RateTheorems.WindowIsExactIff | src/rate.c:77-130 | For each of the four kinds of traffic the window is exact if and only if no period in it began with a missed tick that left traffic of an earlier period |
| RateTheorems.FiveListedTicksRepair | src/rate.c:101-130 | After five ticks that list the struct the window is exact, whatever was missed before |
| RateTheorems.WindowIsExact | src/rate.c:77-130 | For a struct listed at every tick the samples add up to exactly the traffic of the current and the four previous periods |
| RateTheorems.MissedTickShowsOldTraffic | src/rate.c:118-128 | Any traffic followed by four ticks that list the struct and one that misses it: the window shows what left it |
| RateTheorems.CountersAreExact | src/rate.c:81-116 | After any history the totals are all traffic ever, the last-second counters of a process the traffic since it was last listed, and those of a connection never restarted |
| RateTheorems.LastSecondIsCurrentSample | src/rate.c:81-116 | For a process listed at every tick the last-second counters are the current period's traffic and the current sample |
| RateTheorems.AveragesAreNearest | src/rate.c:28-57 | After any history each average is the nearest integer to a fifth of the window and what is stale in it, which is nothing if every tick listed the struct |
| JHash.MixBijective | src/jhash.h:31-40 | `JHASH_MIX` is a bijection on triples of words, with its inverse |
| JHash.FinalBijective | src/jhash.h:42-52 | `JHASH_FINAL` likewise |
| JHash.JhashMix | src/jhash.h:31-40 | The assignments of the macro, in their order, compute the mixing function |
| JHash.JhashFinal | src/jhash.h:42-52 | Likewise for the final mixing |
| JHash.Jhash32 | src/jhash.h:116-146 | The loop and the switch compute the hash word by word, with wrap-around |
| JHash.AbsorbInjective | src/jhash.h:125-143 | Different states stay different over any common rest of a key |
| JHash.OneBlockNeverCollides | src/jhash.h:125-143 | Two keys of one length that differ in exactly one block of three words never reach the same internal state |
| JHash.KeysInOneBlock | src/jhash.h:116-146 | The same for `jhash32` as it is called |

## Left out

- Sockets, the packet ring, `poll`, signals and the timer: kernel interfaces.
- Terminal display, colours, options, the log file and number formatting: user interface.
- Reading `/proc`: each update takes arbitrary rows, descriptors and names, malformed and unreadable ones included. A failing `sscanf` of an address is a malformed row.
- `getnameinfo`, `getservbyport` and `inet_ntop`: one uninterpreted function from addresses to names.
- Floating point: the load tests are exact fractions (4n > 3b, 10n < b, 40n/17) and the averages exact fifths.
- Wrap-around of the traffic counters and of `nentries`: unbounded numbers; a table has at most 2^59 entries.
- Weak memory: shared flags, `status` and names are read and written in a single order of steps.
- Failures of `malloc` in the creation of connections and of a process's vector, of the two `hashtable_min_set` of a connection and of the `hashtable_set` of a new process; those of the table, the queue, the cache's hosts and its tasks are modelled.
- Failures of `pthread_create`. A failed `hashtable_set` in the cache, after which a host would never be found again, is not modelled either.
- Reuse of memory: a pointer is never given out twice, so a dangling pointer never becomes valid again by chance.
- Hash values in the lifecycle model: the table there is a set of entries, visited in any order; `HashTable.dfy` proves that the real table is one.
- Equal addresses with different padding: `jhash32` is called with the size in bytes as the number of words, so it reads the bytes after an address too; addresses are taken to be zero-initialised, as the callers leave them, so that equal ones hash equally.
- `jhash8`, of which only "equal keys hash equally" is used.
- IPv6 in the resolver: never reached by the program.
- `sort.c`, `vector.c` and `str.c`: sequences instead.
- HashTable.HashTable.GetEntry: requires a table with buckets; in a table without any the source reads outside of it, and DomainCache.LookupsHaveBuckets shows that the cache never does that.
- HashTable.HashTable.MinRemove: requires a table with buckets, for the same reason.
- Monitor.Monitor.StatisticsAdd: keeps only the totals of a `net_stat`; the samples are in `Rate.dfy`.
- DomainCacheProgress.MissIsQueued: the steps of one call, without steps of the workers in between; what those can change is in DomainCache.InvKept.
- DomainCacheProgress.TaskIsResolved: the steps of one worker, without the others' in between, for the same reason.
- Stale vectors: after a failed update a listed process can still point to freed connections; the program ends its main loop then, so nothing reads them.
