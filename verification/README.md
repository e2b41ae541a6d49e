# Verified models of the misaka server core

This project models the parts of the misaka server that carry its hard guarantees, and
proves those guarantees with Dafny 4.11 (`dafny verify dfyconfig.toml`).

- **Timing wheel** (`misaka/lib/timer.c`): 256 near slots and four levels of 64 slots over a
  tick count that wraps at 2^32. `Bits` proves what the masks and shifts compute, `TimerSlots`
  is the digit arithmetic of the slots, `TimerList` is the plain list of pending timers with
  its firing theorems, `TimerClock` the time of day it keeps, `TimerWheel` is the wheel itself, and `TimerStray` and `TimerAmong`
  settle the delays the wheel cannot hold: the path of one timer, and that path in a wheel
  with any other timers.
- **Message queues and workers** (`misaka/lib/skynet_mq.c`, `worker` and
  `misaka_packet_task_route` in `misaka/lib/core.c`): `MessageQueue` is the growing ring buffer
  and the global list threaded through the queues, `Scheduler` the protocol over any number of
  pushers, workers and queues, `SchedulerProgress` shows that it never gets stuck, and `Worker` is
  the worker loop run alone.
- **Thread pool** (`misaka/lib/thpool.c`): `ThreadPool` is the protocol over any number of pool
  threads and clients, `PoolProgress` shows that it never gets stuck, and `JobQueue` is the
  linked job list.
- **Slab allocator** (`misaka/lib/kmem.c`, `misaka/include/list.h`): `SlabLayout` (where
  everything lies), `SlabList` (the circular list), `SlabModel` (what allocation and freeing
  mean), `SlabMemory` (an arena of bytes in which links, pointers and counters are words of
  consecutive bytes), `Slab`, `SlabInit` and `SlabDamage` (caches in those bytes), `SlabArena` (the
  allocator itself), `SlabHeap` (runs against an ideal heap).
- **Reader-writer lock** (`misaka/include/rwlock.h`): `RwLock`.
- **Hash table** (`misaka/lib/hash.c`): `HashRows` (rows of entries and the map they stand for),
  `HashTable` (the linked chains), `HashMap` (runs against a map).
- **Byte stream** (`misaka/lib/stream.c`): `StreamCodec` (big-endian bytes on bit vectors),
  `Stream` (the buffer), `StreamQueue` (runs against a queue of values and blocks).

Every component is proved in two parts: the code, in its own imperative form, against a
specification that is simple to read, and then the guarantees about whole runs of that
specification. For the wheel, the ring buffer, the allocator, the hash table and the stream a
`Run...` method joins the two: it takes any sequence of calls to the real structure and returns
what the specification returns. The protocols among threads (`Scheduler`, `ThreadPool`,
`RwLock`) are transition systems, and their results hold in every reachable state;
`Scheduler.StepsAreOperations`, `Worker.Work` and `ThreadPool.StepOnList` tie their steps to the
data structures and to the loop of the code.

Three guarantees one might expect do not hold of the code, and are settled exactly:

- A timer with a negative delay may fire early or never. `TimerStray.ExactlyPunctual` gives the
  check on the expiry that decides, for every tick count and every 32-bit delay, whether it
  fires on time; `MinusOneIsEarly` and `MinusPageIsLost` show both failures, and
  `TimerAmong.RunAmong` shows that the wheel does this whatever other timers it holds.
- `thpool_wait` may leave a waiter asleep although the pool is idle, since the idle condition is
  signalled and not broadcast. `ThreadPool.StrandedIffTwoClients` shows that this can happen if
  and only if two clients may wait.
- The time of day does not show all the time that passes: a step of the clock loses 96 hundredths
  of a second if and only if the hundredths counter wraps in it, since 2^32 hundredths are no
  whole number of seconds. `TimerClock.ClockIsElapsed` sums this up for every run.

Reading conventions: C `unsigned` arithmetic that can wrap is written out with `% WRAP`; the
stream codec uses bit vectors of the C widths; clock readings, the time of day and handler
behaviour are parameters. `server_timer_updatetime` is taken with a clock step below 2^31
ticks, the range of its `int` loop counter.

## Model

| member | source | states |
|---|---|---|
| TimerWheel.SamePage | misaka/lib/timer.c:72-80 | or-ing a mask into two ticks gives equal results exactly when their quotients agree |
| TimerWheel.Wheel.Locate | misaka/lib/timer.c:68-85 | the masks, shifts and level loop pick the slot that the digits of expiry and tick count determine |
| TimerWheel.Wheel.FindCascade | misaka/lib/timer.c:139-162 | the carry loop stops at level 3 at the latest and names the one slot to take apart, exactly on page boundaries |
| TimerSlots.PlaceWraps | misaka/lib/timer.c:68-85 | the slot chosen from 32-bit ticks is the slot chosen from ticks that never wrap |
| TimerSlots.CarryKeepsOthers | misaka/lib/timer.c:139-162 | on a carry every timer outside the cascading slot is already in the slot it would be added to |
| TimerSlots.CarryLowers | misaka/lib/timer.c:100-108 | a relinked timer goes to a strictly lower level |
| TimerSlots.BelowCarryEmpty | misaka/lib/timer.c:139-162 | on a carry no pending timer is below the level that cascades |
| TimerSlots.DueSlot | misaka/lib/timer.c:125-137 | the current near slot is the place of exactly the timers due now |
| TimerSlots.PositiveDelayHolds | misaka/lib/timer.c:176-186 | the wheel can hold every delay from 1 to 2^32 - 2^26 |
| TimerSlots.SlotZero | misaka/lib/timer.c:68-85 | slot 0 is empty on levels 0 to 2, and on level 3 holds only timers past the wrap |
| TimerSlots.RelinkBound | misaka/lib/timer.c:100-162 | a timer is relinked at most four times in its life |
| TimerWheel.CarrySlot | misaka/lib/timer.c:100-108 | taking apart one slot keeps every slot the insertion-order list of the timers that belong there |
| TimerWheel.Wheel.constructor | misaka/lib/timer.c:189-210 | a new wheel is empty and stands for the empty list |
| TimerWheel.Wheel.Link | misaka/lib/timer.c:61-66 | a node goes to the end of its slot, and no other slot changes |
| TimerWheel.Wheel.AddNode | misaka/lib/timer.c:68-85 | a node is linked into the slot that belongs to its expiry at the current tick |
| TimerWheel.Wheel.MoveList | misaka/lib/timer.c:100-108 | the slot is emptied and its nodes are added again in order |
| TimerWheel.Wheel.AddTimer | misaka/lib/timer.c:87-98 | canonical placement holds again with the new timer last |
| TimerWheel.Wheel.TimeoutSlots | misaka/lib/timer.c:176-186 | on any wheel and with any delay, negative ones included: the node goes to the slot of its 32-bit expiry, and a zero delay changes nothing |
| TimerWheel.Wheel.Timeout | misaka/lib/timer.c:176-186 | refines adding to the plain list; a zero delay adds nothing |
| TimerWheel.Wheel.DispatchList | misaka/lib/timer.c:110-123 | dispatches every node of a list, in list order |
| TimerWheel.Wheel.EmptyNear | misaka/lib/timer.c:125-137 | dispatches and empties one near slot and leaves the others |
| TimerWheel.Wheel.FireDue | misaka/lib/timer.c:125-137 | dispatches exactly the timers due now, in the order added, and keeps the placement of the rest |
| TimerWheel.Wheel.Execute | misaka/lib/timer.c:125-137 | refines draining the plain list |
| TimerWheel.Wheel.ShiftSlots | misaka/lib/timer.c:139-162 | on any wheel, valid or not: one tick, and one slot taken apart on a carry |
| TimerWheel.Wheel.TurnOnce | misaka/lib/timer.c:139-162 | cascading a single slot restores canonical placement for the next tick, across the 2^32 wrap |
| TimerWheel.Wheel.Shift | misaka/lib/timer.c:139-162 | refines advancing the plain list |
| TimerWheel.Wheel.Update | misaka/lib/timer.c:164-173 | refines drain, advance, drain |
| TimerWheel.Wheel.Updates | misaka/lib/timer.c:261-264 | the update loop is that many ticks of the plain list |
| TimerWheel.Wheel.UpdateTime | misaka/lib/timer.c:245-266 | a clock step of `diff` ticks dispatches precisely the timers with at most `diff` ticks left, each when due and in order, and keeps all others; the time of day shown goes on by `diff` hundredths, less not quite a second at most; a clock that goes back changes nothing else |
| TimerClock.MovedKeepsTime | misaka/lib/timer.c:255-260 | one step of the clock shows exactly the time passed, or 96 hundredths less exactly if the counter wraps |
| TimerClock.ClockIsElapsed | misaka/lib/timer.c:245-278 | after any steps start and counter depend only on their sum, and the time shown is the time passed less 96 hundredths for every wrap |
| TimerClock.StepsAddUp | misaka/lib/timer.c:247-252 | readings that do not go back add up to the last less the first |
| TimerWheel.RunClock | misaka/lib/timer.c:245-286 | the real clock after any readings, those that go back included, is the one these steps lead to |
| TimerWheel.RunWheel | misaka/lib/timer.c:52-186 | over every legal run of calls the wheel dispatches the same handles at the same ticks in the same order as the plain list |
| TimerList.ExactFiring | misaka/lib/timer.c:68-173 | in every legal run a timer is dispatched exactly once, at the tick its delay after the call, and is pending until then |
| TimerList.StableOrder | misaka/lib/timer.c:52-137 | dispatches go by tick, and within a tick by the order of the calls |
| TimerList.TicksExact | misaka/lib/timer.c:245-266 | n ticks dispatch precisely the timers with at most n ticks left, each when due, and keep all others |
| TimerList.RunInv | misaka/lib/timer.c:68-173 | pending timers and dispatch log account for every call in every reachable state |
| TimerStray.ExactlyPunctual | misaka/lib/timer.c:68-186 | for every tick count and nonzero 32-bit delay: first dispatched on the tick asked for if and only if the check on its expiry holds |
| TimerStray.MinusOneIsEarly | misaka/lib/timer.c:176-186 | a delay of -1 at tick 1 is dispatched after 255 ticks |
| TimerStray.MinusPageIsLost | misaka/lib/timer.c:176-186 | a delay of -256 at tick 256 is never dispatched |
| TimerAmong.MarkedTurned | misaka/lib/timer.c:100-162 | a shift moves one timer among any others exactly as its path says |
| TimerAmong.RunAmong | misaka/lib/timer.c:68-186 | in any run, with any other timers and any delays, a timer of any nonzero delay is dispatched exactly once, on the first tick where its path meets the tick count, if the run gets that far, and not at all otherwise |
| TimerAmong.PunctualFate | misaka/lib/timer.c:68-186 | in such a run the timer is dispatched on the tick it asked for if and only if the check on its expiry holds |
| MessageQueue.MessageQueue.constructor | misaka/lib/skynet_mq.c:76-91 | a new ring is the empty queue |
| MessageQueue.MessageQueue.Length | misaka/lib/skynet_mq.c:106-120 | the number of messages in the ring |
| MessageQueue.MessageQueue.Raise | misaka/lib/skynet_mq.c:147-155 | the threshold is doubled until it covers the length, and the overload is the length if it was exceeded |
| MessageQueue.MessageQueue.Pop | misaka/lib/skynet_mq.c:132-165 | takes the first message, or clears the flag and the threshold |
| MessageQueue.MessageQueue.Expand | misaka/lib/skynet_mq.c:167-180 | doubling a full ring keeps its messages in order |
| MessageQueue.MessageQueue.Enqueue | misaka/lib/skynet_mq.c:182-202 | appends the message, across wrap-around and doubling, and says whether the queue has to be scheduled |
| MessageQueue.MessageQueue.Push | misaka/lib/skynet_mq.c:182-202 | appends the message and puts the queue at the end of the global list exactly if it was not flagged |
| MessageQueue.GlobalQueue.Push | misaka/lib/skynet_mq.c:43-56 | the list threaded through `next` grows by one queue at its end, without cycle or repetition |
| MessageQueue.GlobalQueue.Pop | misaka/lib/skynet_mq.c:58-74 | takes the first queue off the list, leaves its `next` null, and the assertion on the tail holds |
| MessageQueue.RunIsFifo | misaka/lib/skynet_mq.c:132-202 | in every run what came out followed by what is left is what was put in |
| MessageQueue.RunThreshold | misaka/lib/skynet_mq.c:132-165 | after every run the threshold is the least doubling of 1024 not below any length that a pop has left since one found nothing, and 1024 after a pop that finds nothing |
| MessageQueue.RunFlag | misaka/lib/skynet_mq.c:132-202 | a queue is flagged if and only if something was pushed since a pop last found nothing, and is flagged whenever it has messages |
| MessageQueue.OverloadIsLast | misaka/lib/skynet_mq.c:122-165 | the overload is the length left by the last pop that left more than the threshold before it |
| MessageQueue.NoOverload | misaka/lib/skynet_mq.c:122-165 | it is 0 if there was no such pop since the start or the last report |
| MessageQueue.LastAnswer | misaka/lib/skynet_mq.c:122-165 | a pop finds nothing if and only if nothing is waiting, and a report answers with the overload of the moment |
| MessageQueue.MessageQueue.Report | misaka/lib/skynet_mq.c:122-130 | the overload is reported once and then cleared |
| MessageQueue.RunRing | misaka/lib/skynet_mq.c:76-202 | the ring answers every sequence of pushes, pops and overload reports as the plain queue does |
| Scheduler.StepsAreOperations | misaka/lib/skynet_mq.c:132-202 | a step of the protocol does to a queue what the ring buffer's operation does, with the same outcome |
| Scheduler.GlobalPushShape | misaka/lib/skynet_mq.c:43-56 | pushing an unlisted queue keeps the list well formed |
| Scheduler.GlobalPopShape | misaka/lib/skynet_mq.c:58-74 | popping keeps the list well formed |
| Scheduler.StepInv | misaka/lib/skynet_mq.c:43-202 | every step keeps list shape, ownership and conservation |
| Scheduler.FlagMeansScheduled | misaka/lib/skynet_mq.c:132-202 | in every reachable state a queue is flagged exactly when it is in the list once or in one thread's hands, never both |
| Scheduler.OneHandlerAtATime | misaka/lib/core.c:80-114 | two workers never handle messages of one queue together |
| Scheduler.NothingLost | misaka/lib/skynet_mq.c:132-202 | handed over then still queued is everything pushed, in order, and waiting messages are always scheduled or held |
| Scheduler.AssertionsHold | misaka/lib/skynet_mq.c:43-74 | the disabled assertion of push and the live assertion of pop hold in every reachable state |
| SchedulerProgress.AllCanBeHanded | misaka/lib/core.c:80-114 | from every reachable state with a thread there is a way on to one where every message pushed has been handed to its handler and every thread is idle |
| Worker.Route | misaka/lib/core.c:975-982 | a push by a handler is a legal pair of steps of the protocol |
| Worker.Drain | misaka/lib/core.c:98-105 | draining one queue spends one grain of sand per message |
| Worker.Work | misaka/lib/core.c:80-114 | run alone, a worker ends, handles at most 100 messages, exactly those its steps take, pushes exactly what the handlers ask for, which may change from message to message, stops only at 100 or an empty list, and its steps are a legal run of the protocol |
| ThreadPool.StepInv | misaka/lib/thpool.c:333-364 | every step keeps the invariant: books, mutexes, working count, served jobs, signalled sleepers, waiters' goals |
| ThreadPool.RunInv | misaka/lib/thpool.c:333-539 | in every reachable state jobs in the list mean the semaphore is up, or a thread has taken it and not yet pulled, or the list holder is about to post |
| ThreadPool.JobsKeepThreadsActive | misaka/lib/thpool.c:428-539 | no lost wake-up: with jobs in the list some pool thread is awake or a client is about to post |
| ThreadPool.PulledInOrder | misaka/lib/thpool.c:428-479 | jobs are pulled once each, in the order added |
| ThreadPool.WaitIsSound | misaka/lib/thpool.c:190-196 | whichever step ends the waiting, every job added before the call to `thpool_wait` has finished by then |
| ThreadPool.CheckReturnsIff | misaka/lib/thpool.c:191-195 | in every reachable state a waiter that checks goes to sleep if jobs are listed, and otherwise returns if and only if no pool thread is at work |
| ThreadPool.SingleWaiterNotLost | misaka/lib/thpool.c:190-196 | a sole waiter sleeps only while there is something to wait for |
| ThreadPool.TwoWaitersCanBeStranded | misaka/lib/thpool.c:356-362 | with two clients there is a run that leaves one asleep in an idle pool |
| ThreadPool.StrandedIffTwoClients | misaka/lib/thpool.c:190-196 | such a run exists if and only if two clients may wait |
| PoolProgress.AllCanFinish | misaka/lib/thpool.c:190-539 | from every reachable state of a pool with a thread there is a way on to one where every job has finished, no thread is at work and no client waits |
| ThreadPool.StepOnList | misaka/lib/thpool.c:428-479 | what a step does to the jobs of the protocol the linked list does, with the same job pulled and the same decision to post |
| JobQueue.JobQueue.Push | misaka/lib/thpool.c:428-447 | the linked list grows by one job at its rear |
| JobQueue.JobQueue.Pull | misaka/lib/thpool.c:454-479 | takes the front job and posts exactly if jobs are left |
| RwLock.RunInv | misaka/include/rwlock.h:17-48 | in every reachable state the reader count is the number of registered readers and the flag the number of its holders |
| RwLock.WriterIsAlone | misaka/include/rwlock.h:17-48 | a writer inside excludes every reader and every other writer inside |
| RwLock.IdleIsFree | misaka/include/rwlock.h:11-48 | both fields are back at 0 whenever all threads are idle |
| RwLock.GrantedIff | misaka/include/rwlock.h:17-38 | in every reachable state a reader goes on, and is inside after its check, if and only if nobody has the flag; a writer gets the flag if and only if nobody has it, and is inside if and only if no reader is registered |
| RwLock.CountsAfterLook | misaka/include/rwlock.h:19-23 | a reader counts itself only right after it has seen that nobody has the flag |
| RwLock.IdleOnlyByUnlock | misaka/include/rwlock.h:17-48 | nobody comes back from the lock without having been inside |
| RwLock.ReaderGetsIn | misaka/include/rwlock.h:17-30 | with no writer in the lock four steps of a reader end inside, and one more leaves |
| RwLock.WriterGetsIn | misaka/include/rwlock.h:32-43 | with nobody else in the lock three steps of a writer end inside, and one more leaves |
| RwLock.NoDeadlock | misaka/include/rwlock.h:17-48 | from every reachable state all threads can get through the lock and leave it |
| SlabLayout.SetAlignRoundsUp | misaka/include/list.h:9 | the mask expression is the next multiple of a power-of-two alignment |
| SlabLayout.ObjectsAligned | misaka/lib/kmem.c:213-238 | every object starts at a multiple of the alignment |
| SlabLayout.PieceInside | misaka/lib/kmem.c:178-268 | every header, guard and buffer lies inside the used part of the arena |
| SlabLayout.PiecesApart | misaka/lib/kmem.c:178-268 | no two headers, guards or buffers of all caches overlap |
| SlabList.RingInit | misaka/include/list.h:43-45 | an initialised head is the empty ring |
| SlabList.RingAdd | misaka/include/list.h:53-74 | adding puts the entry right behind the head of the ring |
| SlabList.RingDelete | misaka/include/list.h:96-121 | deleting the first entry leaves the ring of the others |
| SlabModel.CreatedSound | misaka/lib/kmem.c:240-268 | a new cache keeps the layout |
| SlabModel.CreatedIff | misaka/lib/kmem.c:240-268 | a cache is created if and only if its header and objects, each rounded up to the alignment, leave a byte of the space; it lies behind the others with all objects free |
| SlabModel.SucceedsIffSpare | misaka/lib/kmem.c:270-286 | allocation succeeds exactly when some object is in nobody's hands |
| SlabModel.HandsOutSpare | misaka/lib/kmem.c:270-286 | it hands out an object that was in nobody's hands and changes that of no other |
| SlabModel.LastFreedFirst | misaka/lib/kmem.c:270-295 | freeing and allocating undo each other, in both orders |
| SlabModel.NotAllFree | misaka/lib/kmem.c:288-295 | with an object in use the used count is positive |
| SlabMemory.GetPut | misaka/lib/kmem.c:184-191 | a word stored in consecutive bytes is read back |
| SlabMemory.GetPutOther | misaka/lib/kmem.c:184-191 | words clear of it are read as before |
| SlabMemory.RingGrown | misaka/include/list.h:53-74 | on bytes, `list_add` puts the entry right behind the head of the ring and writes nothing but links |
| SlabMemory.RingShrunk | misaka/include/list.h:96-121 | on bytes, `list_del_init` of the first entry leaves the ring of the others and writes nothing but links |
| Slab.MetaSameOk | misaka/lib/kmem.c:195-238 | a cache is in order as long as the bytes of its header, of its object headers and of its guards are |
| Slab.TakenOk | misaka/lib/kmem.c:270-286 | the stores of an allocation keep ring, counters, pointers and guards, and touch no buffer and no byte outside the cache |
| Slab.ReturnedOk | misaka/lib/kmem.c:288-295 | the stores of a free do the same |
| Slab.WriteOk | misaka/lib/kmem.c:124-141 | a byte written inside a buffer damages no header, link, pointer or guard of any cache, since none shares a byte with it |
| SlabDamage.DamageExact | misaka/lib/kmem.c:195-295 | one changed byte damages a cache if and only if it belongs to a counter, to a link of the head or of a free object, to a buffer pointer or to a guard |
| SlabInit.SealedOk | misaka/lib/kmem.c:195-211 | `init_obj` leaves the pointer to the buffer and both guards |
| SlabInit.MadeOneMore | misaka/lib/kmem.c:228-232 | one turn of the loop sets up one more object, links it first, and damages none of those before |
| SlabInit.MadeAll | misaka/lib/kmem.c:213-238 | when the loop ends the cache is in order and nothing outside it has changed |
| SlabArena.NoFalseAlarm | misaka/lib/kmem.c:124-141 | in an arena in order no object is reported |
| SlabArena.OverrunReported | misaka/lib/kmem.c:124-141 | a write over either end of a buffer is reported if and only if it does not put the guard's own value there |
| SlabArena.InitKmem | misaka/lib/kmem.c:178-193 | nothing exactly when the memory is too small, and otherwise an empty arena in order |
| SlabArena.Kmem.InitCache | misaka/lib/kmem.c:213-238 | the stores of the loop leave a cache in order and stay inside it |
| SlabArena.Kmem.Create | misaka/lib/kmem.c:240-268 | refines cache creation, refusal included; the new cache starts with its name, cut or filled with zeroes and terminated, every buffer of it is zero, and every byte of the caches before is as it was |
| SlabArena.Kmem.Alloc | misaka/lib/kmem.c:270-286 | refines allocation; the ring in memory holds exactly the free objects, and no buffer byte changes |
| SlabArena.Kmem.Free | misaka/lib/kmem.c:288-295 | the pointer arithmetic finds the object again; refines freeing, and no buffer byte changes |
| SlabArena.Kmem.Poke | misaka/lib/kmem.c:195-238 | a user's write inside a buffer keeps the arena in order |
| SlabArena.Kmem.CheckOverflow | misaka/lib/kmem.c:124-146 | whatever the memory holds: 0 if and only if there is a buffer and the bytes before and behind it are 0xff, and -1 otherwise |
| SlabArena.Kmem.CheckObject | misaka/lib/kmem.c:143-146 | never complains while users keep to their buffers |
| SlabHeap.ExhaustedTogether | misaka/lib/kmem.c:270-286 | the allocator runs out exactly when as many blocks are out as the cache has objects |
| SlabHeap.AllocateSimulates | misaka/lib/kmem.c:270-286 | allocation in the arena is a new block in the ideal heap |
| SlabHeap.ReleaseSimulates | misaka/lib/kmem.c:288-295 | freeing in the arena is giving the block back |
| SlabHeap.WriteSimulates | misaka/lib/kmem.c:195-238 | a write reaches its own block and no other |
| SlabHeap.CreateSimulates | misaka/lib/kmem.c:240-268 | cache creation in the arena is a new pool |
| SlabHeap.ReadsLastWrite | misaka/lib/kmem.c:270-295 | in every run a byte of a block reads as last written until the block is given back |
| SlabHeap.OutUntilReleased | misaka/lib/kmem.c:270-295 | a block is out until it is given back |
| SlabHeap.ReleaseMakesRoom | misaka/lib/kmem.c:270-295 | giving a block back makes room for exactly one more |
| SlabHeap.RunSlab | misaka/lib/kmem.c:124-295 | in every run a client sees what an ideal heap of separate blocks shows: successes, failures, bytes read back, and no overflow report |
| HashRows.Find | misaka/lib/hash.c:51-55 | the first entry of a chain with equal key and comparison |
| HashRows.FindRefines | misaka/lib/hash.c:41-72 | with consistent functions the search finds a datum exactly when the map has its name |
| HashRows.GetRefines | misaka/lib/hash.c:41-72 | `hash_get` is lookup or insertion on the map |
| HashRows.ReleaseRefines | misaka/lib/hash.c:95-124 | `hash_release` is removal on the map |
| HashRows.CountExact | misaka/lib/hash.c:67 | the number of entries is the size of the map |
| HashRows.FlatEachOnce | misaka/lib/hash.c:127-144 | going through all chains meets every datum of the map once |
| HashRows.SiftRefines | misaka/lib/hash.c:127-144 | dropping entries from the chains is dropping them from the map |
| HashRows.ConsistentIsTidy | misaka/lib/hash.c:95-124 | an entry of the table is found again at its own place |
| HashTable.Seek | misaka/lib/hash.c:51-55 | the pointer loop returns the first matching backet and the one before it |
| HashTable.Hash.constructor | misaka/lib/hash.c:6-19 | a new table has only empty chains |
| HashTable.Hash.Add | misaka/lib/hash.c:62-68 | a new backet goes to the front of its chain and the count goes up |
| HashTable.Hash.Get | misaka/lib/hash.c:41-79 | what `hash_get` and `hash_lookup` do to the chains, error returns included |
| HashTable.Hash.Bypass | misaka/lib/hash.c:110-113 | the pointer moves take one node out of its chain and leave all others |
| HashTable.Hash.Release | misaka/lib/hash.c:95-124 | removes the first match, keeps the order of the rest, and the count is exact |
| HashTable.Hash.Visit | misaka/lib/hash.c:136-143 | the next backet fetched before the callback is still the right one after it |
| HashTable.Hash.Iterate | misaka/lib/hash.c:127-144 | every entry is visited once, in order, also when the callback releases it, and exactly those are gone |
| HashTable.Hash.Clean | misaka/lib/hash.c:147-168 | every entry is freed, in order, all chains are empty and the count is 0 |
| HashMap.VisitsAll | misaka/lib/hash.c:127-168 | data seen once for each name are the data of the map, each once |
| HashMap.MapIsHistory | misaka/lib/hash.c:41-168 | after every run a name has a datum if and only if that was put in under it and not taken out since by a release, a sweep or a clear |
| HashMap.CallsShowHistory | misaka/lib/hash.c:41-168 | a release returns a datum if and only if that one stays under the name, a fetch finds it or else shows what its callback makes, and count and visits are those of the map |
| HashMap.OutcomeAt | misaka/lib/hash.c:41-168 | every outcome of a run is what the map after the operations before it shows |
| HashMap.RunTable | misaka/lib/hash.c:5-168 | any sequence of calls on a table of any size shows what a map shows: data found, an exact count, and every datum once when going through the table or emptying it |
| StreamCodec.DecodeEncode | misaka/lib/stream.c:287-550 | decoding the bytes of a value gives the value |
| StreamCodec.EncodeDecode | misaka/lib/stream.c:287-550 | encoding the value of some bytes gives the bytes |
| StreamCodec.DecodeIsBigEndian | misaka/lib/stream.c:287-418 | bytes are read as the number they spell, most significant byte first, for all four widths |
| StreamCodec.EncodeIsBigEndian | misaka/lib/stream.c:475-550 | a value is written as the bytes that spell it, most significant byte first |
| StreamCodec.SpliceReads | misaka/lib/stream.c:552-620 | what was put at a place is read from there, and what lies clear of it is as before |
| Stream.Stream.constructor | misaka/lib/stream.c:68-100 | a new stream is empty |
| Stream.Stream.PutC | misaka/lib/stream.c:475-488 | appends the byte, or returns 0 and changes nothing when there is no room |
| Stream.Stream.PutW | misaka/lib/stream.c:491-506 | appends the two bytes of the word, or nothing |
| Stream.Stream.PutL | misaka/lib/stream.c:509-526 | appends the four bytes of the value, or nothing |
| Stream.Stream.PutQ | misaka/lib/stream.c:529-550 | appends the eight bytes of the value, or nothing |
| Stream.Stream.PutCAt | misaka/lib/stream.c:552-566 | overwrites one written byte, or nothing |
| Stream.Stream.PutWAt | misaka/lib/stream.c:568-583 | overwrites two written bytes, or nothing |
| Stream.Stream.PutLAt | misaka/lib/stream.c:585-601 | overwrites four written bytes, or nothing |
| Stream.Stream.PutQAt | misaka/lib/stream.c:603-624 | overwrites eight written bytes, or nothing |
| Stream.Stream.GetC | misaka/lib/stream.c:251-266 | reads the next byte, or returns 0 and does not move |
| Stream.Stream.GetW | misaka/lib/stream.c:286-304 | reads the next word, or returns 0 and does not move |
| Stream.Stream.GetL | misaka/lib/stream.c:348-367 | reads the next four-byte value, or returns 0 and does not move |
| Stream.Stream.GetQ | misaka/lib/stream.c:395-418 | reads the next eight-byte value, or returns 0 and does not move |
| Stream.Stream.GetCFrom | misaka/lib/stream.c:268-284 | reads the byte at a written position, or returns 0 |
| Stream.Stream.GetWFrom | misaka/lib/stream.c:306-324 | reads the word at a written position, or returns 0 |
| Stream.Stream.GetLFrom | misaka/lib/stream.c:326-346 | reads the four-byte value at a written position, or returns 0 |
| Stream.Stream.GetQFrom | misaka/lib/stream.c:369-393 | reads the eight-byte value at a written position, or returns 0 |
| Stream.Stream.Put | misaka/lib/stream.c:440-472 | appends as much of the source, or of zeroes, as there is room for |
| Stream.Stream.Get | misaka/lib/stream.c:236-249 | copies out all that is asked for and moves on, or does neither |
| Stream.Stream.Resize | misaka/lib/stream.c:142-164 | what still fits is kept and the positions stay in bounds; a refused reallocation changes nothing |
| StreamQueue.PartAt | misaka/lib/stream.c:268-393 | a value among many is read at the sum of the widths before it |
| StreamQueue.PartReplaced | misaka/lib/stream.c:552-620 | overwriting one value leaves the code of the list with that value replaced |
| StreamQueue.RunHasLog | misaka/lib/stream.c:236-620 | the results of every run are those of a log: what is put is appended as far as it fits, what is taken is its next piece, replacements and looks lie so many pieces ahead, and room once used does not come back |
| StreamQueue.RunStream | misaka/lib/stream.c:236-620 | values and blocks put into a stream of any size come out unchanged and in order, blocks cut at the end of the room, whatever is read ahead, read past the end, replaced or refused in between |

## Left out

- Sockets, libev watchers, peers, link drivers and the test client: plumbing over libraries that are not part of this model.
- Plugin, Lua, Python and C handlers: a handler is an arbitrary choice of further pushes, message by message.
- The EVENT_NET and EVENT_SYS queues, which a second consumer drains: the scheduling protocol covers queues that only `worker` drains.
- Fairness: `SchedulerProgress`, `PoolProgress` and `RwLock.NoDeadlock` show that there is always a way on, not that the threads take it.
- Worker.Work: a worker's own pushes through handlers are modelled as steps of a second thread, which allows more interleavings than the program has; other threads stand still.
- TimerWheel.Wheel.Link: slot lists are sequences, so the `head` and `tail` pointers of a slot list and the freeing of nodes are not modelled.
- TimerWheel.Wheel.Timeout: refines the plain list for delays the wheel can hold, which all positive `int` delays are; what becomes of any other is stated by TimerAmong.RunAmong.
- TimerWheel.Wheel.AddTimer: the same; TimerWheel.Wheel.TimeoutSlots has no such condition.
- TimerWheel.RunWheel: the order of dispatches among several timers is shown for runs in which the wheel can hold every delay.
- TimerAmong.RunAmong: follows one timer by its handle, so the others have other handles; the code never looks at handles.
- MessageQueue.MessageQueue.Expand: the capacity is unbounded, while the code's `int` capacity would overflow after 25 doublings.
- Queue release, thread pool destruction, pause and resume, and failing allocation.
- ThreadPool.SingleWaiterNotLost: condition variables are taken with spurious wake-ups and a signal that wakes one sleeper; fairness of the mutexes is not used.
- RwLock.WriterIsAlone: single reads and atomic updates are taken to happen in one order for all threads; weaker memory orders are not modelled.
- SlabArena.Kmem.Create: requires that the space needed fits an `int`, as the code computes it in one; the arena lock is always 1, as the code passes it by value to helpers that change a copy; structure sizes, pointers and byte order are those of a 64-bit little-endian target, and pointers are offsets into the arena.
- SlabArena.Kmem.Free: requires an object that is in use; freeing one twice is an error of the caller that the code does not detect.
- HashTable.Hash.constructor: requires a positive size, as the code takes keys modulo the size.
- HashMap.RunTable: requires functions that are consistent, and an allocation callback that keeps the name of its argument; `string_hash_make` is not modelled.
- Stream.Stream.PutC and its fellows: out of bounds the code asserts; the model follows the return that comes after it when assertions are compiled out. Positions are unbounded, so sums that wrap a `size_t` are not modelled.
- Stream.Stream.Resize: a reallocation to 0 bytes that frees the buffer and returns null is up to the C library and is not modelled.
- StreamQueue.RunStream: a run reads what was put piece by piece, or more than there is; reading a piece as values of other widths is covered by the calls one by one.
- `stream_fifo_*`, `stream_copy`, address and socket forms of the stream, `idmaker.c`, `normal_parser.c`, `linklist.c`, `vector.c`, logging and shared memory are not part of this model.
