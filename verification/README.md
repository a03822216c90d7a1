# Dungeon: a verified model of its data structures, scheduler and JSON

Dungeon runs coroutine-style state machines ("imps") on a pool of worker
threads. It brings its own data structures: a red-black tree with parent
pointers and one shared sentinel, a lock-free ring, a mutex-protected ring with
two condition variables, a hash table with growing buckets, a byte buffer over a
doubly linked list, and a JSON printer and parser. This project models that code
in Dafny and proves what each part is for.

Sequential code that rewrites memory is modelled with classes, arrays and
loops, one assignment per assignment of the source, and proved against
specification functions. Concurrent code is modelled as a state machine whose
moves are single accesses to shared memory (or single critical sections); a
*script* is any finite sequence of moves, so a statement about every script is a
statement about every interleaving of any number of threads.

| files | what they model |
|---|---|
| `RbNodes` `RbOrder` `RbRotate` `RbInsert` `RbFixup` `RbDelete` `RbTheory` | `ds_rbtree.c`, `ds_rbtree.h` on mutable nodes |
| `ModLemmas` `LockFreeQueue` `LockFreeCalls` `LockFreeRoles` `LockFreeRaces` | `ds_queue.c`, one shared access a step; how its calls end; for which threads it is FIFO |
| `Scheduler` `SchedulerRuns` `SchedulerLife` `SchedulerConfig` `SchedulerRaces` | `imp.c`, `thr_worker.c`, `thr_maintainer.c` as one state machine; its runs, the life of an imp, the configurations in which runs are sound, and runs that are not |
| `MutexRing` `BlockingQueue` `BlockingCalls` | `ds_queue2.c`: the ring itself, its waiting and signalling, and what becomes of every item |
| `JsonText` `JsonParse` `JsonRoundTrip` `JsonStyle` | reference printer and parser of `cJSON.c`, round trip, the printer's blanks and spelling |
| `JsonUnicode` `JsonWords` `JsonEscapes` `JsonSpelling` `JsonNumerals` `JsonGrammar` | UTF-8 and UTF-16, the bit operations on words, and the language of the parser: escapes, strings, numbers, values |
| `JsonStrings` `JsonLoops` `JsonBuffers` | the loops and buffers of `cJSON.c`, proved equal to the reference |
| `LinkedList` `BufferList` | `ds_llist.c`, `ds_bufferlist.c`, `conn_tcp_sendv_nb` |
| `HashTable` | `ds_hasht.c` |

## How to read it

**Red-black tree.** Each node carries a ghost label `pos` and a ghost open
interval; a left child owns the part of its parent's interval below the parent's
label, a right child the part above. All invariants are then local to a node and
its children, and `WalkIsOrder` shows that the in-order walk over the real
pointers is the ghost sequence `order`. The root's `parent` and every link of
the sentinel are left unconstrained, because the code leaves stale values there.
`rank` is the quantity a key stands for: the key itself, or an unwrapped time.
`rbtree_insert_value` and `rbtree_insert_timer_value` differ in one comparison,
so one descent takes the comparison as the tree's `less`.

**Lock-free queue.** Ghost tickets count all reservations, commits and removals;
the stored indices are tickets modulo `max`. Memory is sequentially consistent.
The code is not FIFO in every run: a compare-and-swap that tests an outdated copy
of an index succeeds when a whole number of laps has passed (`CasCountsLaps`).
`NeverLapped` says of a run that this does not happen, and is all that `Fifo`
needs. A caller can rely on it when one thread enqueues and one dequeues;
`OrderedExactlyWhenSafe` shows that, apart from queues that nothing can go round,
no other division of roles has only FIFO runs, at any capacity. `LockFreeCalls`
says how a call may end: an enqueue with its own item committed, a dequeue with
the oldest item, or refused, which on an outdated copy can happen to a ring that
is not full (`FalselyFull`). `Account` balances the items of a whole run.

**Scheduler.** Each imp's list of requested events is shared: its driver appends,
the arming loop of the driver fetches, and so may the arming loop of an earlier
driver. The ghost map `place` gives each live imp its one place. An imp stays
with its thread up to the last assignment to `waitio` that leaves its list empty;
the fetch that then ends the loop is a move of its own. `Legal` states three
assumptions about timing: no second thread passes the test in `imp_summon`
between the test and the increase of another; the epoller does not wake an imp
while its arming loop still has requests to register; no worker fetches an imp
while another is still in its arming loop. Moves that do not apply are always
legal. None of the three can be seen by a caller, and none is free in general:
`SummonRace`, `TwoRequestsRace` and `OneRequestRace` are runs that break the
conclusion without them. What a caller can see is who calls what: `SafeRuns`
derives all three from the number of summoners, workers and requests in one
drive, and `SoundExactlyWhenSafe` shows that its condition is exact. It is narrow: one
summoning thread, and one worker if imps request an event, at most one a drive.
`SummonLimit` and `NoImpStranded` need no assumption. `SchedulerLife` states the life cycle of an imp as a
table of stages (`Next`) and shows that every legal move of any thread follows it. Further assumptions: poll
registration succeeds, epoll reports only live imps.

**JSON.** A `char` is one byte; a `const char *` is the rest of the text, and
reading past the end yields the terminator. Numbers are reals, so that the
arithmetic of `parse_number` is exact; the round trip is claimed for 32-bit
integers. `Incomplete` marks a text with a backslash directly before the
terminator or with fewer than four hexadecimal digits after `\u`; there the code
reads beyond its input or keeps an old value, and the model stops. `StringOutcome`
says for which texts, by a scan of the text alone. The reference parser computes
with numbers; `JsonWords` proves that the shifts, masks and ORs of the code on
32-bit words give the same numbers. `JsonGrammar` defines the language of the
parser by the texts themselves (values with their spelling and blanks) and proves
that `cJSON_Parse` reads exactly those texts, as what they mean; the grammar shows
what the code takes beyond RFC 8259: a string that the terminator closes, any byte
up to a blank as white space, a leading zero, a sign or an exponent without digits.

**Buffer list.** `chunks` lists the unconsumed bytes of every node and `Bytes()`
is their concatenation. `outcome` in `SendV` is whatever `writev` returns: an
error, or any number of the bytes it was offered.

**Hash table.** Every call uses one key descriptor, so an item has one key.
`Contents()` is the multiset of items in the slots of all buckets.

## Model

| member | source | states |
|---|---|---|
| `RbNodes.Tree.constructor` | src/ds_rbtree.h:33-37 | an initialised tree is a valid red-black tree without nodes whose root is the black sentinel |
| `RbOrder.WalkIsOrder` | src/ds_rbtree.h:11-30 | the in-order walk over the child pointers is exactly the ghost sequence, by increasing label |
| `RbOrder.InsideIsWalked` | src/ds_rbtree.h:11-18 | a node whose label lies in the interval of another is reached from it through child pointers |
| `RbOrder.RootReaches` | src/ds_rbtree.h:11-18 | following parent pointers never leaves the tree: whatever a node reaches, the root reaches |
| `RbOrder.Gap` | src/ds_rbtree.c:92-101 | beside a missing child there is no label, so a new leaf there is next to its parent in order |
| `RbRotate.LeftRotate` | src/ds_rbtree.c:311-337 | a left rotation changes just the named links, keeps shape and in-order sequence, and repairs the links to the root or parent |
| `RbRotate.RightRotate` | src/ds_rbtree.c:340-366 | the mirror image |
| `RbRotate.LeftRotateRed` | src/ds_rbtree.c:252-253 | recolouring a black parent and its red right child and rotating left exchanges their roles without touching any other node's colour or height |
| `RbRotate.RightRotateRed` | src/ds_rbtree.c:281-282 | the mirror image |
| `RbInsert.Descend` | src/ds_rbtree.c:92-101 | the search ends at a missing child within the depth of the tree; no label lies in the gap found, ranks up to it are not larger than the new one and ranks behind it are larger |
| `RbInsert.Narrow` | src/ds_rbtree.c:94 | one comparison narrows the interval in which the new node belongs, for any comparison faithful to the ranks |
| `RbInsert.InsertValue` | src/ds_rbtree.c:103-107 | links the node as a red leaf: the sequence gains it at one place, behind all equal keys, and the only possible red-red edge is above it |
| `RbInsert.FixLeft` | src/ds_rbtree.c:41-59 | one turn of the insert fix-up: the red-red edge moves two levels up or the loop is over |
| `RbInsert.FixRight` | src/ds_rbtree.c:61-80 | the mirror image |
| `RbInsert.Rebalance` | src/ds_rbtree.c:39-83 | from one red-red edge at the node the loop terminates in a tree with a black root, no red-red edge and equal black heights |
| `RbInsert.Plant` | src/ds_rbtree.c:25-33 | insertion into an empty tree |
| `RbInsert.Insert` | src/ds_rbtree.c:16-84 | insertion keeps the tree valid, adds exactly the node, to the right of equal keys, and keeps it sorted; the walk over the pointers is the new sequence |
| `RbDelete.Min` | src/ds_rbtree.h:63-70 | the leftmost descent gives the node of a subtree with the least label, in fewer steps than the subtree is deep |
| `RbDelete.Choose` | src/ds_rbtree.c:155-171 | the spliced node is the node itself or its successor, has a missing child, and nothing lies between the two |
| `RbDelete.OnlyChild` | src/ds_rbtree.c:166-170 | a node with a missing child has at most one child, a red leaf, and is then black |
| `RbDelete.DeleteRoot` | src/ds_rbtree.c:173-184 | removing a root with at most one child leaves a valid tree |
| `RbDelete.Drop` | src/ds_rbtree.c:186-197 | unlinking a node with a missing child leaves a whole tree if it was red, and one missing black node at its child, perhaps the sentinel, if it was black |
| `RbDelete.Substitute` | src/ds_rbtree.c:199-231 | the successor replaces the node in links, colour and label while one black node is still missing |
| `RbDelete.SubstituteWhole` | src/ds_rbtree.c:199-231 | the same when nothing is missing |
| `RbDelete.Forget` | src/ds_rbtree.c:145-171 | the sequence without the node stays increasing once the successor takes over its label |
| `RbDelete.Excise` | src/ds_rbtree.c:173-231 | everything before the fix-up: the node is gone from set and sequence, and at most one black node is missing |
| `RbDelete.Clear` | src/ds_rbtree.c:234-237 | the removed node's fields are cleared |
| `RbDelete.Delete` | src/ds_rbtree.c:145-308 | deletion of any node leaves a valid red-black tree whose sequence is the old one without exactly that node; the walk over the pointers is the new sequence |
| `RbFixup.RightSibling` | src/ds_rbtree.c:247-248 | the sibling of a left child that misses a black node is a node and never the sentinel, so the side test is unambiguous although the sentinel is shared |
| `RbFixup.LeftSibling` | src/ds_rbtree.c:276-277 | the same for a right child |
| `RbFixup.LeftRedSibling` | src/ds_rbtree.c:250-255 | a red sibling is rotated away; the same black node is still missing and the new sibling is black |
| `RbFixup.LeftDarken` | src/ds_rbtree.c:257-259 | a black sibling with black children is reddened and the missing node moves to the parent |
| `RbFixup.LeftTurnSibling` | src/ds_rbtree.c:262-267 | a near red nephew becomes a far one |
| `RbFixup.LeftLastTurn` | src/ds_rbtree.c:269-273 | with a far red nephew one rotation supplies the missing black node and the tree is whole |
| `RbFixup.MissingLeft` | src/ds_rbtree.c:247-274 | one turn of the loop keeps "one black node is missing at temp" and makes progress towards the root |
| `RbFixup.RightRedSibling` | src/ds_rbtree.c:279-284 | mirror image |
| `RbFixup.RightDarken` | src/ds_rbtree.c:286-288 | mirror image |
| `RbFixup.RightTurnSibling` | src/ds_rbtree.c:291-296 | mirror image |
| `RbFixup.RightLastTurn` | src/ds_rbtree.c:298-302 | mirror image |
| `RbFixup.MissingRight` | src/ds_rbtree.c:276-303 | mirror image |
| `RbFixup.Climb` | src/ds_rbtree.c:259 | moving to the parent leaves fewer nodes beyond, which is why the loop terminates |
| `RbFixup.Fixup` | src/ds_rbtree.c:245-307 | from one missing black node the loop terminates in a whole red-black tree |
| `RbTheory.SubtreeBounds` | src/ds_rbtree.h:65-67 | a subtree is at most twice as deep as its black height, plus one, and has at least 2^height - 1 nodes |
| `RbTheory.HeightBound` | src/ds_rbtree.c:92-101 | a valid tree of n nodes is at most 2 log2(n + 1) deep; the insertion descent (`RbInsert.Descend`) and the descent to the minimum (`RbDelete.Min`) count their steps against the depth |
| `RbTheory.TimerExact` | src/ds_rbtree.c:118-128 | for two times less than a word apart the signed difference test is right both ways round if and only if they are less than half a word apart |
| `RbTheory.TimerOneWay` | src/ds_rbtree.c:127 | one way round the test is right if and only if the difference is at least minus half a word and below half a word |
| `RbTheory.TimersAreFaithful` | src/ds_rbtree.c:111-128 | the timer comparison of a new node with all live ones is the order of the true times, across overflow, if and only if all live timers lie in that window around it |
| `RbTheory.InsertTimer` | src/ds_rbtree.c:111-142 | a tree sorted by true time, with all timers in the window around the new one, is sorted by true time afterwards although the keys wrap, with the new timer behind all that are not later |
| `RbTheory.InsertKey` | src/ds_rbtree.c:87-108 | a tree sorted by key is sorted by key afterwards, with the new node behind all equal keys |
| `RbTheory.Earliest` | src/ds_rbtree.h:62-70 | in a sorted tree the minimum is the earliest timer, found in at most 2 log2(n + 1) steps |
| `LockFreeQueue.ReserveStep` | src/ds_queue.c:41-47 | a successful compare-and-swap on the write index reserves the next ticket, and there is room for it |
| `LockFreeQueue.WriteStep` | src/ds_queue.c:49 | writing the reserved slot overwrites no item that is still to be taken and no other thread's slot |
| `LockFreeQueue.OldestCommits` | src/ds_queue.c:51 | the commit succeeds if and only if the thread holds the oldest reservation that is not committed, although indices are taken modulo `max` |
| `LockFreeQueue.CommitStep` | src/ds_queue.c:51-53 | committing keeps the invariant |
| `LockFreeQueue.NotFull` | src/ds_queue.c:42-44 | a failed full test means that the write ticket is less than a lap ahead |
| `LockFreeQueue.TakeStep` | src/ds_queue.c:63-70 | a successful compare-and-swap on the read index delivers exactly the oldest item |
| `LockFreeQueue.StepKeepsInv` | src/ds_queue.c:35-73 | every single shared access of every thread keeps taken <= committed <= reserved <= taken + max - 1, the slots and the ownership of reservations |
| `LockFreeQueue.PlayKeepsInv` | src/ds_queue.c:35-73 | so does every interleaving of any number of producers and consumers in which no compare-and-swap accepts an outdated copy |
| `LockFreeQueue.Fifo` | src/ds_queue.c:35-73 | in every such run the delivered items followed by the pending slots are the reserved items in order of reservation, each at most once |
| `LockFreeQueue.OldestProgress` | src/ds_queue.c:49-53 | an open reservation never blocks for good: two steps of the thread that holds the oldest one commit it |
| `LockFreeQueue.SizeCountsReservations` | src/ds_queue.c:75-83 | the size computed from the two indices is the number of reserved items not taken |
| `LockFreeQueue.Travel` | src/ds_queue.c:85-94 | at rest the traversal visits exactly the pending items in order |
| `LockFreeQueue.CasCountsLaps` | src/ds_queue.c:47-70 | a compare-and-swap on the write or read index succeeds if and only if a whole number of laps, the intended case being none, has passed since the index was copied; `Fresh` says exactly that the copy is then current |
| `LockFreeCalls.FullTestExactly` | src/ds_queue.c:41-45 | the full test refuses if and only if, on tickets, the ring is full or the read index has passed the outdated copy by whole laps |
| `LockFreeCalls.EmptyTestExactly` | src/ds_queue.c:63-68 | the empty test refuses if and only if nothing committed is left or the commit index has passed the outdated copy by whole laps |
| `LockFreeCalls.CallEnds` | src/ds_queue.c:40-73 | a call ends in no other way than by committing its item, delivering the oldest item, or being refused by its test; a lost compare-and-swap ends nothing |
| `LockFreeCalls.EnqueueReturns` | src/ds_queue.c:35-55 | whenever an enqueue returns, the item handed in with that very call is committed at a ticket of the calling thread, or the queue looked full and is unchanged |
| `LockFreeCalls.DequeueReturns` | src/ds_queue.c:57-73 | whenever a dequeue returns, it has delivered the oldest item, or the queue looked empty and is unchanged |
| `LockFreeCalls.Account` | src/ds_queue.c:35-55 | in every interleaving each item was handed in as often as it was reserved, refused, or is still in the hands of a thread that goes on trying |
| `LockFreeCalls.AloneFinishes` | src/ds_queue.c:40-73 | a thread that nobody disturbs ends its call within seven steps, also after losing a compare-and-swap |
| `LockFreeCalls.RefusedExactly` | src/ds_queue.c:43-66 | with one producer and one consumer calls are refused exactly when the ring is full, or empty |
| `LockFreeCalls.FalselyFull` | src/ds_queue.c:41-45 | with two producers an enqueue can be refused by an empty ring |
| `LockFreeRoles.RolesAreFresh` | src/ds_queue.c:35-73 | with one producer and one consumer no copy of an index is ever outdated; without consumers, or without anything to consume, none is ever a lap old |
| `LockFreeRoles.SafeRolesInOrder` | src/ds_queue.c:35-73 | with one producer and one consumer every run is FIFO, without any assumption on timing |
| `LockFreeRaces.LapBreaksFifo` | src/ds_queue.c:63-70 | for any capacity and any two consumers, a run that delivers one item twice and another never, after which the queue looks empty |
| `LockFreeRaces.LapBreaksRoom` | src/ds_queue.c:41-47 | for any capacity and any two producers, a run that reserves a slot in a full ring, after which `max` items are lost in a queue that looks empty |
| `LockFreeRaces.OrderedExactlyWhenSafe` | src/ds_queue.c:35-73 | every run of given producers and consumers is FIFO if and only if there is one of each, or nothing can go round: no producer, no consumer, or capacity 1 |
| `Scheduler.RoomForHeld` | src/imp.c:46-49 | an imp held by a thread is in neither queue and both queues have room for it |
| `Scheduler.SummonCountStep` | src/imp.c:78-86 | counting a new imp keeps the invariant and the limit |
| `Scheduler.SummonRunStep` | src/imp.c:92 | the new imp enters the run queue |
| `Scheduler.FetchStep` | src/thr_worker.c:97-103 | a worker becomes the one place of the imp it fetches |
| `Scheduler.RequestStep` | src/imp.c:188-206 | the driver of an imp appends to its list of requested events, or the full list refuses, and nobody else owns the list |
| `Scheduler.YieldStep` | src/imp.c:152-154 | yielding starts the arming loop on whatever the list holds |
| `Scheduler.FinishStep` | src/imp.c:133-150 | a finished, killed or alerted imp stays with its thread until it is terminated |
| `Scheduler.TerminateStep` | src/imp.c:111-113 | the terminated imp enters the terminated queue, with its wake-up still to come |
| `Scheduler.WakeupStep` | src/thr_maintainer.c:82-88 | the wake-up reaches the maintainer wherever it stands |
| `Scheduler.ArmStep` | src/imp.c:154-184 | a fetch that finds a request, or finds the list empty and ends the loop towards sleep or towards the run queue, keeps the imp in one place |
| `Scheduler.SetWaitStep` | src/imp.c:155-176 | setting waitio keeps the imp in one place; with the last request of the list the imp is asleep although its thread is still in the loop |
| `Scheduler.CountSleeperStep` | src/imp.c:178-180 | the sleeper is counted after it may already have been woken, without the count going wrong |
| `Scheduler.WakeStep` | src/imp.c:100-103 | the compare-and-swap on waitio makes one epoller the holder of a sleeping imp |
| `Scheduler.RunAgainStep` | src/imp.c:181-183 | a yielding or woken imp goes back to the run queue |
| `Scheduler.MaintainStep` | src/thr_maintainer.c:38-54 | draining, dismissing and going to sleep keep places, counters and "no imp is stranded" |
| `Scheduler.DoKeepsInv` | src/imp.c:74-186 | every move of every thread keeps the invariant |
| `Scheduler.PlayKeepsInv` | src/imp.c:74-186 | so does every run under the three assumptions on timing |
| `SchedulerRuns.OnePlace` | src/imp.c:74-186 | in every such run each live imp is in exactly one place (run queue, one thread, asleep, terminated queue, maintainer) and a dead one in none; no two threads drive one imp |
| `SchedulerRuns.CountersCount` | src/imp.c:65-106 | `nr_total` counts live imps and `nr_waitio` counts sleeping ones, up to threads that are half way through; the limit is never exceeded |
| `SchedulerRuns.NothingDropped` | src/imp.c:46-49 | the enqueue calls whose results `imp_run` and `imp_term` ignore always append |
| `SchedulerRuns.NoImpStranded` | src/thr_maintainer.c:48-52 | in every run whatsoever, while the maintainer sleeps without a pending event, every terminated imp has a thread that will still wake it |
| `SchedulerRuns.StaleEvent` | src/imp.c:100-108 | an event for an imp that is not asleep changes nothing; one for a sleeping imp gives it to the epoller |
| `SchedulerLife.LifeStep` | src/imp.c:46-206 | every legal move leads exactly the imp it is about one stage along the life cycle of the table `Next`, with the number of requests left to register, and leaves all others in their stage |
| `SchedulerLife.ActsInOrder` | src/imp.c:46-206 | a move acts on an imp only in the stage that the life cycle has for it |
| `SchedulerLife.FinishIsFinal` | src/imp.c:148-150 | once the driver of an imp has returned TO_TERM, no thread drives the imp again, and it never enters the run queue or sleeps again |
| `SchedulerLife.FinishTerminates` | src/imp.c:111-150 | the imp is then the last of the terminated queue after the next move of its thread |
| `SchedulerLife.PlayDrains` | src/thr_maintainer.c:38-46 | the maintainer takes the n first terminated imps out, each for good, and lowers `nr_total` by n |
| `SchedulerLife.YieldLeadsOn` | src/imp.c:152-184 | in every legal run an imp that yields stays in its arming loop until it is asleep, if it requested an event, or on its way to the run queue, if not |
| `SchedulerLife.LoopArmsAll` | src/imp.c:154-184 | uninterrupted, the loop registers all requests and leaves the imp asleep and about to be counted, or about to run again if there were none |
| `SchedulerLife.QueuesInOrder` | src/imp.c:46-113 | imps are fetched in the order in which they entered the run queue and dismissed in the order in which they terminated |
| `SchedulerConfig.SummonLimit` | src/imp.c:78-86 | with K threads that ever summon, `nr_total` exceeds `nr_max` by at most K - 1 in every run whatsoever |
| `SchedulerConfig.RequestsStay` | src/imp.c:154-206 | only the holder of an imp changes its list of requested events |
| `SchedulerConfig.ConfiguredIsLegal` | src/imp.c:74-206 | in a safe configuration every move of every run meets the three assumptions on timing |
| `SchedulerConfig.SafeRuns` | src/imp.c:74-206 | so in every run of it each imp is in one place and the limit holds |
| `SchedulerRaces.TwoRequestsRace` | src/imp.c:154-184 | one worker and two requests in a drive: a run that leaves one imp both driven and in the run queue |
| `SchedulerRaces.OneRequestRace` | src/imp.c:154-184 | two workers and one request in every drive: a run in which the arming loop of one takes the request of the other, after which both drive one imp |
| `SchedulerRaces.SummonRace` | src/imp.c:78-92 | two summoners: a run that exceeds the limit and loses an imp |
| `SchedulerRaces.LimitIsReached` | src/imp.c:78-86 | for every number of summoners some run reaches the bound of `SummonLimit` |
| `SchedulerRaces.SoundExactlyWhenSafe` | src/imp.c:74-206 | for given numbers of workers, summoners and requests a drive, every run keeps each imp in one place and the limit if and only if the configuration is safe |
| `MutexRing.DropFirst` | src/ds_queue2.c:85-86 | taking the slot at the read index removes the first item, across wrap-around |
| `MutexRing.AddLast` | src/ds_queue2.c:66-68 | storing at the write index appends, across wrap-around |
| `MutexRing.Count32` | src/ds_queue2.c:69 | the difference of the two 32-bit counters stays the number of items although both wrap |
| `MutexRing.Ring.Store` | src/ds_queue2.c:66-69 | appends one item; counters and indices stay consistent |
| `MutexRing.Ring.EnqueueNb` | src/ds_queue2.c:134-151 | refuses exactly when full, else appends |
| `MutexRing.Ring.DequeueNb` | src/ds_queue2.c:153-170 | refuses exactly when empty, else returns and removes the first item |
| `MutexRing.Ring.Scan` | src/ds_queue2.c:106-110 | finds the item in a stretch of slots if and only if it is there |
| `MutexRing.Ring.EnqueueUniqNb` | src/ds_queue2.c:95-132 | appends only an item that is not queued yet and otherwise leaves queue and counters alone; a duplicate-free queue stays so |
| `MutexRing.Ring.Size` | src/ds_queue2.c:172-176 | the size is the number of items and the counter difference modulo 2^32 |
| `BlockingQueue.PutKeeps` | src/ds_queue2.c:63-71 | enqueueing, or blocking when full, loses no wake-up |
| `BlockingQueue.TakeKeeps` | src/ds_queue2.c:82-90 | dequeueing, or blocking when empty, loses no wake-up |
| `BlockingQueue.SignalKeeps` | src/ds_queue2.c:127-128 | an additional signal, or a spurious return, only helps |
| `BlockingQueue.PlayKeepsInv` | src/ds_queue2.c:57-170 | every run keeps FIFO order and: while a consumer sleeps unsignalled, the items are at most the released consumers; the same for producers and free slots |
| `BlockingQueue.EveryRun` | src/ds_queue2.c:57-170 | in every run mixing blocking, non-blocking and uniq calls, whenever a consumer sleeps and an item waits, some consumer has been released, and likewise for producers |
| `BlockingQueue.UniqRunsStayUnique` | src/ds_queue2.c:95-132 | runs that enqueue with the uniq call only keep the queue duplicate-free |
| `BlockingCalls.PutEnters` | src/ds_queue2.c:57-75 | the item of the call itself is entered last if there is room; otherwise the producer waits with it |
| `BlockingCalls.PutNbEnters` | src/ds_queue2.c:95-151 | the calls that do not block are refused exactly when the queue is full, and then change nothing |
| `BlockingCalls.TakeGets` | src/ds_queue2.c:77-93 | the first item is taken if there is one; otherwise the consumer waits, also after a wake-up |
| `BlockingCalls.TakeNbGets` | src/ds_queue2.c:153-170 | refused exactly when empty |
| `BlockingCalls.CallSignals` | src/ds_queue2.c:70-129 | a call that goes through signals, an enqueue of an item that is queued already included; a refused or blocked one does not |
| `BlockingCalls.WaitsWithItem` | src/ds_queue2.c:63-68 | in every run a producer that waits, or has been woken, carries the item of its own call |
| `BlockingCalls.Account` | src/ds_queue2.c:57-170 | in every run each item was handed in and accepted as often as it was entered or waits with its producer, and as many items were taken as calls asked for one and have returned |
| `JsonText.SkipPassesBlanks` | src/cJSON.c:256 | skipping passes blanks only and returns the text from the first byte that is none, or from its end |
| `JsonRoundTrip.SkipBlanks` | src/cJSON.c:256 | any run of blanks is skipped |
| `JsonRoundTrip.NumberRoundTrip` | src/cJSON.c:99-146 | every int32 is printed and read back, and reading stops at any text that cannot extend a number |
| `JsonRoundTrip.StringRoundTrip` | src/cJSON.c:150-243 | every NUL-free byte string is escaped and read back, and reading stops behind its closing quote |
| `JsonRoundTrip.EscapesDecide` | src/cJSON.c:161-201 | decoding gets to the end of a string if and only if a scan of the text finds all its escapes complete |
| `JsonRoundTrip.StringOutcome` | src/cJSON.c:150-207 | whether `parse_string` fails, succeeds or meets an incomplete escape, by the text alone |
| `JsonRoundTrip.PassesAgree` | src/cJSON.c:155-201 | for every text with complete escapes the counting and the decoding pass stop at the same quote and the second writes no more bytes than the first counted |
| `JsonRoundTrip.ValueRoundTrip` | src/cJSON.c:372-575 | every tree printed at any depth, formatted or not, before any text parses back to the same tree and stops at that text |
| `JsonRoundTrip.ArrayRoundTrip` | src/cJSON.c:405-481 | the same for arrays |
| `JsonRoundTrip.ItemsRoundTrip` | src/cJSON.c:416-428 | the same for the items of an array with their separators |
| `JsonRoundTrip.ObjectRoundTrip` | src/cJSON.c:484-575 | the same for objects |
| `JsonRoundTrip.MembersRoundTrip` | src/cJSON.c:495-515 | the same for the members of an object with names, tabs and line ends |
| `JsonRoundTrip.DocumentRoundTrip` | src/cJSON.c:259-267 | parsing what cJSON_Print or cJSON_PrintUnformatted wrote, behind any blanks and before any text, gives the tree and stops at that text |
| `JsonRoundTrip.PrintInjective` | src/cJSON.c:328-329 | two different trees never print alike |
| `JsonUnicode.Utf8IsRfc3629` | src/cJSON.c:187-195 | every Unicode scalar value is encoded as section 3 of RFC 3629 decodes it |
| `JsonUnicode.BmpEscape` | src/cJSON.c:174-195 | each complete escape of a non-zero code point outside the surrogates yields its UTF-8 |
| `JsonUnicode.JoinIsRfc2781` | src/cJSON.c:184 | a surrogate pair is joined as section 2.2 of RFC 2781 asks if and only if bit 0x40 of the high half is clear |
| `JsonUnicode.JoinLosesPlane2` | src/cJSON.c:184 | U+20000 comes out as U+10000 |
| `JsonUnicode.PairEscape` | src/cJSON.c:179-195 | a pair with that bit clear yields the UTF-8 of its code point |
| `JsonWords.PayloadAdds` | src/cJSON.c:184 | the two ten-bit halves of a pair share no bit, so their OR is their sum |
| `JsonWords.JoinWordAdds` | src/cJSON.c:184 | on 32-bit words the code adds 0x10000 to the payload if and only if bit 16 is not set already |
| `JsonWords.JoinWordIsJoin` | src/cJSON.c:184 | the masks, the shift and the ORs on words give the number that the reference parser computes |
| `JsonWords.MarksAdd` | src/cJSON.c:190-193 | the marks of UTF-8 bytes and their payload share no bit |
| `JsonWords.ShiftDivides` | src/cJSON.c:190-192 | `uc >>= 6` divides by 64 and the low six bits are the remainder |
| `JsonWords.Utf8WordsIsUtf8` | src/cJSON.c:187-194 | the bytes that the switch computes on words, for every length, are the UTF-8 of the reference parser |
| `JsonEscapes.HexTextRead` | src/cJSON.c:175 | four hexadecimal digits, each in either case, are read as the number they are written from |
| `JsonEscapes.UnicodeText` | src/cJSON.c:174-195 | the escape written from any non-zero code point outside the surrogates is read as its UTF-8 |
| `JsonEscapes.PairText` | src/cJSON.c:178-195 | the pair of escapes written from a code point beyond the basic plane is read as it if it lies in an odd plane, and as the code point one plane below if not |
| `JsonEscapes.DroppedText` | src/cJSON.c:177-181 | escapes of zero, of a low half, and of a high half without another escape behind it yield nothing |
| `JsonEscapes.DroppedPair` | src/cJSON.c:179-183 | a high half takes an escape that is no low half with it |
| `JsonEscapes.LetterText` | src/cJSON.c:168-197 | each letter escape yields the byte of section 7 of RFC 8259, any other letter itself |
| `JsonEscapes.PunctuationText` | src/cJSON.c:197 | so do quote, backslash and solidus |
| `JsonSpelling.SpellingRead` | src/cJSON.c:150-207 | every string, spelled in plain bytes, letters and code units in any mixture, is read as the bytes it means |
| `JsonSpelling.StringIsSpelled` | src/cJSON.c:150-207 | whatever `parse_string` reads is such a spelling of what it gives |
| `JsonNumerals.NumeralRead` | src/cJSON.c:99-119 | every numeral with its sign, digits, fraction and exponent is read as its value, before any text that cannot continue it |
| `JsonNumerals.NumberIsNumeral` | src/cJSON.c:99-119 | whatever `parse_number` reads is such a numeral of the value it gives |
| `JsonGrammar.LayoutRead` | src/cJSON.c:372-517 | every value, spelled and laid out with any blanks, is read as the tree it means |
| `JsonGrammar.ValueIsLaidOut` | src/cJSON.c:372-517 | whatever `parse_value` reads is such a layout of the tree it gives |
| `JsonGrammar.ParseExactly` | src/cJSON.c:259-267 | `cJSON_Parse` gives a tree and stops at a text if and only if the input is blanks, a layout of that tree, and that text |
| `JsonGrammar.FailsExactly` | src/cJSON.c:259-267 | where no escape is incomplete it fails on exactly the texts that are not laid out |
| `JsonGrammar.FailsAtFirstByte` | src/cJSON.c:383 | a first byte that starts no value is refused |
| `JsonGrammar.FailsAtSeparator` | src/cJSON.c:418-429 | an array fails at a wrong separator behind any of its items |
| `JsonGrammar.MemberFails` | src/cJSON.c:496-500 | a member without its colon fails |
| `JsonGrammar.MemberFailsBehind` | src/cJSON.c:503-516 | so does a wrong separator behind it |
| `JsonStyle.PrintStyle` | src/cJSON.c:433-575 | formatted, every member has its line, indented by exactly as many tabs as brackets are open, a colon is followed by one tab and a comma in an array by one space; there are no other blanks, and none at all unformatted |
| `JsonStyle.PrintsShortest` | src/cJSON.c:210-242 | a string is printed as shortly as any spelling that conforms to RFC 8259 |
| `JsonStrings.WriteUtf8` | src/cJSON.c:187-195 | the bytes written backwards are the UTF-8 of the code point |
| `JsonStrings.CountPass` | src/cJSON.c:155 | the counting loop computes the reference count |
| `JsonStrings.DecodeEscape` | src/cJSON.c:166-199 | one escape writes exactly the bytes it stands for, inside the buffer |
| `JsonStrings.OneTurn` | src/cJSON.c:161-201 | one turn of the decoding loop consumes at least as much of the count as it writes |
| `JsonStrings.ParseStringInto` | src/cJSON.c:150-207 | `parse_string` into a buffer of the counted size: never writes outside it and gives the reference result |
| `JsonLoops.SkipBlanks` | src/cJSON.c:256 | the loop of `skip` computes the reference |
| `JsonLoops.ReadNumber` | src/cJSON.c:99-123 | `parse_number` with its digit loops gives sign, digits, fraction and exponent as the reference does |
| `JsonLoops.ReadArray` | src/cJSON.c:405-430 | the loop of `parse_array` accepts, fails and stops exactly as the recursive reference |
| `JsonLoops.ReadObject` | src/cJSON.c:484-517 | the same for `parse_object` |
| `JsonLoops.ReadValue` | src/cJSON.c:372-384 | the same for `parse_value` |
| `JsonLoops.ParseDocument` | src/cJSON.c:259-267 | `cJSON_Parse` computes the reference, skipping included |
| `JsonBuffers.PrintNulFree` | src/cJSON.c:452 | a printed tree holds no terminator, so `strlen` measures all of it |
| `JsonBuffers.IntTextLength` | src/cJSON.c:132-133 | an int32 takes at most 11 of the 21 bytes |
| `JsonBuffers.PrintStringPtr` | src/cJSON.c:210-243 | the counted length is the exact length of the quoted string with its terminator |
| `JsonBuffers.CostIsLength` | src/cJSON.c:452 | the length added up for an array is the length of its text plus one byte an item and one separator |
| `JsonBuffers.MemberCostIsLength` | src/cJSON.c:542 | the length added up for an object is the length of its members plus one byte if there are any |
| `JsonBuffers.JoinIsPrint` | src/cJSON.c:472-477 | the texts of the items joined with separators are the text of the reference printer |
| `JsonBuffers.JoinMembersIsPrint` | src/cJSON.c:560-569 | the same for the members of an object |
| `JsonBuffers.CollectItems` | src/cJSON.c:447-454 | the first loop of `print_array` collects the texts and adds up the length |
| `JsonBuffers.ComposeArray` | src/cJSON.c:470-480 | the second loop writes the array inside the buffer of that length |
| `JsonBuffers.CollectMembers` | src/cJSON.c:537-544 | the first loop of `print_object` collects names and texts and adds up the length |
| `JsonBuffers.ComposeObject` | src/cJSON.c:559-574 | the second loop writes the object inside the buffer of that length |
| `JsonBuffers.PrintArray` | src/cJSON.c:433-481 | writes the reference text and leaves exactly 2 + n (+ 1 or 2 if n > 0) bytes behind the terminator |
| `JsonBuffers.PrintObject` | src/cJSON.c:520-575 | writes the reference text and leaves exactly 4 bytes, or 5 if there are members |
| `JsonBuffers.PrintValue` | src/cJSON.c:387-402 | every tree is printed as the reference text, in a buffer with exactly the stated room left |
| `LinkedList.LList.constructor` | src/ds_llist.c:36-38 | an empty ring around its sentinel |
| `LinkedList.LList.Append` | src/ds_llist.c:97-116 | refuses when full, else links the item before the sentinel; the ring stays doubly linked |
| `LinkedList.LList.GetHead` | src/ds_llist.c:176-191 | the first item, exactly if there is one |
| `LinkedList.LList.GetHeadNode` | src/ds_llist.c:223-238 | the first node or null |
| `LinkedList.LList.GetNext` | src/ds_llist.c:148-156 | the node behind, or null at the end |
| `LinkedList.LList.FetchHead` | src/ds_llist.c:269-290 | unlinks and returns the first item; the ring stays doubly linked |
| `BufferList.BufferList.constructor` | src/ds_bufferlist.c:23-47 | an empty buffer, with the default capacity for 0 |
| `BufferList.BufferList.Write` | src/ds_bufferlist.c:152-178 | appends the bytes, or refuses when the list is full |
| `BufferList.BufferList.Pop` | src/ds_bufferlist.c:71-87 | drops the first node with all its bytes |
| `BufferList.BufferList.MoveHead` | src/ds_bufferlist.c:89-108 | consumes bytes of the first node if and only if it holds more than that |
| `BufferList.BufferList.ReadTurn` | src/ds_bufferlist.c:116-147 | one turn copies and consumes the first bytes |
| `BufferList.BufferList.Read` | src/ds_bufferlist.c:110-150 | returns exactly the first min(size, nbytes) bytes across node boundaries, leaves the rest and the rest of the caller's buffer |
| `BufferList.BufferList.Gather` | src/util_conn_tcp.c:236-255 | the vector offers the first bytes of the buffer: at most 8 nodes and at most `size` bytes, and no fewer than that allows |
| `BufferList.BufferList.Consume` | src/util_conn_tcp.c:263-285 | drops exactly the accepted bytes, across node boundaries |
| `BufferList.BufferList.SendV` | src/util_conn_tcp.c:227-288 | for anything writev may return, the bytes sent followed by the bytes left are the old contents; an error changes nothing |
| `HashTable.Bucket.FreePos` | src/ds_hasht.c:67-98 | gives the first free slot; a bucket without one grows by a quarter and one slot and keeps its items |
| `HashTable.Bucket.Clear` | src/ds_hasht.c:368-375 | empties a bucket and counts what was in it |
| `HashTable.SlotUpdate` | src/ds_hasht.c:226-238 | changing one slot changes the multiset of all items by its old and its new item |
| `HashTable.AllLiveMember` | src/ds_hasht.c:273-287 | an item belongs to the table if and only if it is in a slot of some bucket |
| `HashTable.Table.New` | src/ds_hasht.c:147-188 | no table for a volume that is not positive; else an empty one with an eighth as many buckets, at least one |
| `HashTable.Table.FindNode` | src/ds_hasht.c:264-289 | looks in the key's bucket only, finds a slot with the key or shows that the bucket has none, and counts lookups and hits |
| `HashTable.Table.NotInTable` | src/ds_hasht.c:271-288 | if the key's bucket has no item with the key, the table has none |
| `HashTable.Table.Find` | src/ds_hasht.c:291-308 | returns an item with the key, the first in its bucket, if and only if the table has one |
| `HashTable.Table.Modify` | src/ds_hasht.c:388-407 | applies the callback to one item with the key and to no other; the table stays as it is but for the lookup and hit counters |
| `HashTable.Table.Add` | src/ds_hasht.c:205-246 | refuses when `volume` items are held, else adds exactly the item, in the first free slot of its key's bucket, also across bucket growth |
| `HashTable.Table.Delete` | src/ds_hasht.c:335-359 | removes exactly one item with the key, the first in its bucket, or reports that there is none |
| `HashTable.Table.Clean` | src/ds_hasht.c:361-386 | leaves an empty table whose counters are zero |
| `HashTable.Table.CountersAgree` | src/ds_hasht.c:238-243 | `nr_nodes` is the sum of the bucket counters, the number of slots in use and the size of the multiset, and never exceeds `volume` |

## Left out

- Memory: allocation always succeeds, `malloc(0)` returns a buffer, and freed memory is not tracked; sizes and counters have no bound except where a word width is written out (`WORD`, `U32`).
- Lock-free queue: weak memory orders. For more than one producer or consumer `Fifo` holds of the runs that are `NeverLapped`; a caller cannot see which those are, and `OrderedExactlyWhenSafe` shows that no weaker condition on who calls what would do.
- Thread creation, cancellation and shutdown, system calls, logging, monitoring, signals and loading of room modules.
- Scheduler: contention on the lock of an imp's list of requested events, where the `_nb` calls return -2 and the arming loop would end early, is not modelled.
- Scheduler: what epoll reports is a move that may happen at any time for any imp with `waitio` set; timers, alert traps and failing poll registration are not modelled. A killed or alerted imp is the move `Finish`. Whether `imp_kill` leads to termination is not claimed, since `imp_driver` overwrites the mask before testing it.
- SchedulerRuns.OnePlace: assumes the three conditions of `Legal`, as do `CountersCount`, `NothingDropped` and `StaleEvent`, because the code breaks the conclusions without them; `SoundExactlyWhenSafe` says for which configurations they are met.
- Scheduler: the two queues are bounded FIFOs, which is what the modules `MutexRing` and `BlockingQueue` prove of `ds_queue2.c`; a worker blocked on an empty run queue is a worker that does not move.
- Ring: the second scan of `queue_enqueue_uniq_nb` runs one slot beyond the array (src/ds_queue2.c:112); the model scans to the end of the array. Its signed loop index needs a capacity below 2^31.
- Blocking queue: fairness, so "a released consumer exists" is claimed and not that it gets the processor.
- Deletion in the tree: the model unlinks the successor and then lets it replace the node, and sets `temp->parent` in that order; the code interleaves the same assignments (src/ds_rbtree.c:195-231) and both end in the same links. The test at src/ds_rbtree.c:166 always falls through, which `OnlyChild` and `Choose` use.
- JsonRoundTrip.NumberRoundTrip: claims int32 numbers only; fractions and exponents are parsed exactly over the reals, so the rounding of doubles and the output formats `%e`, `%f` and `%.0f` are not modelled.
- JSON trees are values: the `prev` links of children and the reuse of `valuestring` for names are not modelled, nor are descriptor input and output, the tree editing helpers and the error pointer `ep`.
- JSON: a text in which an escape is incomplete ends the model with `Incomplete`.
- JsonGrammar.FailsExactly: assumes that no quote of the text is followed by an incomplete escape, since the model does not follow the code there.
- BufferList.BufferList.SendV: `writev` is the parameter `outcome`; contention on the list's lock, where the `_nb` calls return -2, is not modelled. Receiving and the copy of the code for UDP are left out.
- LinkedList: `llist_fetch_match_unlocked`, the blocking calls, which share one condition variable, and deletion of a list.
- Hash table: calls run one at a time; the locks, the per-slot time stamps and counters, the default hash function, `hasht_fetch_item` and the report in JSON are left out. `hash_func` is any function of the key.
- Bitmaps, time arithmetic, vectors of memory, string wrappers, configuration and the sample rooms: small and easy, or glue around system calls.
