# Protocols, schedulers and codecs of a collection of C++ examples

The repository is a set of standalone C++20 programs. Several of them implement something whose
correctness is not local to one function: a lock-free queue, a thread pool, a coroutine task type, a
sequence lock, a cooperative scheduler, lazy pipelines, an asynchronous server, a framed byte
protocol. This project models those parts in Dafny and proves what they guarantee, over every
interleaving, every run or every input.

## How it is built

- A concurrent protocol is a state machine. `Step(s, action)` is total: an action whose thread is not
  at that point of its code changes nothing. `Run` folds any sequence of actions, and the theorems
  quantify over all of them, so they cover every interleaving and every number of threads.
- Code that updates fields or variables in place is also given as a class or a loop, and its methods
  are proved to perform exactly the steps of the machine, or to compute the specified function.
- Where a property one would expect is false of the code, the code is kept, a lemma gives an input
  that shows it, and another states when it holds, as an if-and-only-if.

| file | source | main result |
|---|---|---|
| `SpscQueue.dfy`, `Bits.dfy` | performance/08_lockfree.cpp | refinement to a bounded FIFO under release/acquire visibility |
| `ThreadPool.dfy` | concurrency/08_thread_pool.cpp, concurrency/07_async_handlers.cpp | no lost wakeup, exactly when shutdown drains, bounded work |
| `TaskMachine.dfy` | coroutines/02_task.cpp | the continuation machine computes what direct recursion computes |
| `Seqlock.dfy` | system_calls/04_mmap_ipc.cpp | no torn reads under release/acquire visibility, and no published pair refused |
| `Scheduler.dfy` | coroutines/06_scheduler.cpp | the queue loop is a sequence of rounds; it ends iff demand is covered, having delivered exactly what was produced |
| `Pipeline.dfy` | coroutines/07_pipeline.cpp, lambdas/06_higher_order.cpp | lazy equals eager; exact pull counts; when infinite sources end |
| `AsyncServer.dfy` | grpc_proto/08_grpc_async.cpp | one token per object, answered and deleted once |
| `Framing.dfy`, `ConnectionPool.dfy` | networking/10_socket_patterns.cpp | round trip under any fragmentation; ownership of connections |
| `LatencyStats.dfy`, `CasCounter.dfy`, `Words.dfy`, `Counting.dfy` | performance/10_profiling.cpp, performance/08_lockfree.cpp | compare-and-swap loops under relaxed reads |
| `Arena.dfy` | performance/07_allocators.cpp | disjoint aligned blocks, with 64-bit wrap-around |
| `GapDetector.dfy` | networking/04_udp_basics.cpp | conservation of gaps and receipts, with 32-bit wrap-around |
| `RepeatingTimer.dfy` | concurrency/09_timers.cpp | closed form of the start times; exact number of callbacks under cancellation |

## Assumptions

- `SpscQueue` and `Seqlock`: each atomic word has one writer. An acquire load returns any entry of the
  word's modification order that is not older than what the loading thread already knows, and then
  the thread knows everything that happened before that entry was released. Threads need not agree
  on a global memory.
- `LatencyStats` and `CasCounter`: relaxed loads and failed compare-and-swaps return any value the word
  ever had; a successful read-modify-write acts on the newest. Weak swaps may fail spuriously.
- `ThreadPool`: waiting on a condition variable releases the lock and goes to sleep in one step;
  sleepers may wake spuriously; a notification wakes any one sleeper, if there is one.
- `Framing`: a system call moves between one byte and the request, or fails.
- `RepeatingTimer`: the cancel flag is a single sequentially consistent word.
- In `Pipeline` a resume is given fuel, because filter and drop loop inside one resume; results are
  about what happens for enough fuel, and `Monotone` says that more fuel never changes a result.

## Model

| member | source | states |
|---|---|---|
| `Bits.AndBitwise` | performance/08_lockfree.cpp:166-166 | the AND used for masks is the conjunction of binary digits, for all digits |
| `Bits.MaskIsModulo` | performance/08_lockfree.cpp:141-156 | masking with 2^k - 1 is reduction modulo 2^k |
| `Bits.PowerOfTwoCheck` | performance/08_lockfree.cpp:134-135 | the static_assert accepts exactly the powers of two |
| `Bits.ComplementMaskRoundsDown` | performance/07_allocators.cpp:68-68 | masking a word with the complement of 2^k - 1 rounds down to a multiple of 2^k |
| `SpscQueue.StepInv` | performance/08_lockfree.cpp:138-158 | every load, store and slot access of either thread keeps the queue's invariant |
| `SpscQueue.ContentsAreFifo` | performance/08_lockfree.cpp:138-158 | the slots from tail to head are the values pushed and not yet popped, in order, at most capacity - 1 of them |
| `SpscQueue.StepRefinesFifo` | performance/08_lockfree.cpp:138-158 | each atomic step is a stutter, an enqueue or a dequeue of a bounded FIFO |
| `SpscQueue.PushFailsIffFull` | performance/08_lockfree.cpp:140-143 | a push gives up iff capacity - 1 elements were in the queue as of the tail entry it loaded |
| `SpscQueue.PopFailsIffEmpty` | performance/08_lockfree.cpp:152-154 | a pop gives up iff everything it could see pushed was popped |
| `SpscQueue.NoSlotConflict` | performance/08_lockfree.cpp:144-156 | the slot about to be written is none of the occupied ones, nor the one about to be read |
| `SpscQueue.EveryScheduleIsFifo` | performance/08_lockfree.cpp:138-158 | over every schedule: popped is a prefix of pushed, the rest is in the buffer, no access out of bounds, no slot conflict, and each slot access is ordered after the other thread's previous access to that slot by a release store that was acquired |
| `SpscQueue.DemoSum` | performance/08_lockfree.cpp:175-214 | in every interleaving the consumer's first n values are 0 .. n-1 and sum to n(n-1)/2 |
| `SpscQueue.DemoFinishesIff` | performance/08_lockfree.cpp:134-214 | after any schedule whatever, some continuation of the demo receives n values, iff the capacity is at least 2 or n is 0: capacity 1 passes the static_assert and never takes a value |
| `SpscQueue.WholePush` | performance/08_lockfree.cpp:138-147 | the four producer steps in a row are one push on the words |
| `SpscQueue.PushEnqueues` | performance/08_lockfree.cpp:138-147 | and that is an enqueue that fails iff the queue is full |
| `SpscQueue.WholePop` | performance/08_lockfree.cpp:150-158 | the four consumer steps in a row are one pop on the words |
| `SpscQueue.PopDequeues` | performance/08_lockfree.cpp:150-158 | and that is a dequeue that fails iff the queue is empty |
| `SpscQueue.Queue.constructor` | performance/08_lockfree.cpp:166-172 | a power-of-two buffer starts as the machine's initial state |
| `SpscQueue.Queue.TryPush` | performance/08_lockfree.cpp:138-147 | appends the value to what the slots from tail to head hold unless capacity - 1 are queued, and then changes nothing |
| `SpscQueue.Queue.TryPop` | performance/08_lockfree.cpp:150-158 | removes and returns the oldest value, or reports empty iff there is none |
| `ThreadPool.StepInv` | concurrency/08_thread_pool.cpp:31-70 | every step keeps: tasks conserved, wakeups pending, exits orderly |
| `ThreadPool.NoLostWakeup` | concurrency/08_thread_pool.cpp:43-70 | in every reachable state with a sleeper there are at least as many pending notifications and workers about to look as queued tasks, and after the stop flag the notify_all is still to come; if nobody sleeps, somebody is at work, unless the task came after the last worker left |
| `ThreadPool.ShutdownDrains` | concurrency/08_thread_pool.cpp:31-70 | when all workers have exited, every submitted task, also those submitted by tasks and those submitted from outside during shutdown, was executed exactly once, iff none arrived after the last worker left |
| `ThreadPool.StaffedIffInTime` | concurrency/08_thread_pool.cpp:57-70 | over any run a queued task has a worker that has not left, iff no task arrived after the last one left |
| `ThreadPool.PoliteIsInTime` | concurrency/08_thread_pool.cpp:31-39 | if outside code stops submitting before the destructor begins, no task is too late |
| `ThreadPool.EmptyPoolLosesTasks` | concurrency/08_thread_pool.cpp:25-39 | with no workers a submitted task is lost |
| `ThreadPool.LateTaskIsLost` | concurrency/08_thread_pool.cpp:31-54 | a task submitted after the only worker left is accepted and never executed |
| `ThreadPool.DrainsIffStaffed` | concurrency/08_thread_pool.cpp:25-70 | with such callers, every schedule drains iff the pool has a worker |
| `ThreadPool.WorkIsBounded` | concurrency/08_thread_pool.cpp:57-70 | the steps a pool takes by itself are bounded by what is supplied from outside |
| `ThreadPool.QuietMeansDone` | concurrency/08_thread_pool.cpp:31-70 | a pool that can take no step has executed every task once, iff none came too late, and after the destructor began every worker has exited |
| `ThreadPool.TaskQueueIsSerial` | concurrency/07_async_handlers.cpp:25-59 | the one-worker task queue runs handlers one at a time in posting order, and all of them before join returns iff none was posted after the worker left |
| `ThreadPool.Shared.constructor` | concurrency/08_thread_pool.cpp:25-29 | n awake workers, nothing queued |
| `ThreadPool.Shared.Submit` | concurrency/08_thread_pool.cpp:43-54 | the locked part of submit is the machine's submission step |
| `ThreadPool.Shared.Check` | concurrency/08_thread_pool.cpp:62-67 | the locked part of work: sleep, exit or pop, as the machine's step |
| `ThreadPool.Shared.Stop` | concurrency/08_thread_pool.cpp:33-36 | the locked part of the destructor sets the stop flag and leaves notify_all pending, whoever is still submitting |
| `ThreadPool.Shared.NotifyAll` | concurrency/08_thread_pool.cpp:37-37 | every sleeper wakes, nobody else moves |
| `TaskMachine.Simulates` | coroutines/02_task.cpp:50-97 | from any point of any coroutine the machine reaches the outcome of direct evaluation, other frames untouched, or is still running where evaluation is |
| `TaskMachine.SyncWaitAgrees` | coroutines/02_task.cpp:50-104 | sync_wait ends with the value or exception of direct evaluation, one frame left, two transfers per await and one into the no-op continuation |
| `TaskMachine.HaltsIffEvaluates` | coroutines/02_task.cpp:50-104 | sync_wait comes back iff direct evaluation terminates |
| `TaskMachine.StackNeverGrows` | coroutines/02_task.cpp:50-89 | symmetric transfer never adds a native stack frame, however long the chain |
| `TaskMachine.NestingGrows` | coroutines/02_task.cpp:13-28 | if the awaiters called resume() instead, the same call would pile up 2 * awaits + 1 native activations, where the real machine has one |
| `TaskMachine.SyncWait` | coroutines/02_task.cpp:100-104 | the resuming loop terminates with the result of the direct call |
| `TaskMachine.ComputeSquares` | coroutines/02_task.cpp:191-194 | sync_wait(compute(x)) comes back with x * x in one transfer, for every x |
| `TaskMachine.FormatKeepsBoth` | coroutines/02_task.cpp:197-201 | a coroutine of format_result's shape, which awaits compute(x) and then uses both x and the square, comes back with x + x * x in three transfers, for every x |
| `TaskMachine.LetKeepsLocals` | coroutines/02_task.cpp:84-97 | when an awaiting expression has a value, the machine reaches the rest of the body in that frame with the value bound and every other local and every other frame as before |
| `TaskMachine.PassesThrough` | coroutines/02_task.cpp:209-223 | a co_return or an exception leaves an initialisation without its rest, a value or a co_return leaves a try without its handler |
| `TaskMachine.DeepChain` | coroutines/02_task.cpp:204-206 | sync_wait of the three-level chain comes back with 16 in five transfers |
| `TaskMachine.ThrownIsCaught` | coroutines/02_task.cpp:91-97 | from any frame about to run a try: if its body evaluates to an exception, through awaits or not, the machine reaches the handler in that frame with the exception bound and every other local and every other frame as before |
| `TaskMachine.ExceptionCrosses` | coroutines/02_task.cpp:209-223 | sync_wait of the catching example comes back with -1 in three transfers |
| `Seqlock.StepInv` | system_calls/04_mmap_ipc.cpp:71-97 | every store and every load, of any reader, keeps what readers know consistent with the log |
| `Seqlock.SecondLook` | system_calls/04_mmap_ipc.cpp:84-93 | seeing the same even number twice means the reader has learnt of nothing newer |
| `Seqlock.NoTornReads` | system_calls/04_mmap_ipc.cpp:71-97 | every accepted pair is one published update or the initial one, versions never go back, the counter is never behind the pair |
| `Seqlock.VersionIsTaken` | system_calls/04_mmap_ipc.cpp:84-97 | whatever the writer is doing, a reader that knows of no start mark after a complete version can take exactly that pair in five loads, and nothing else changes |
| `Seqlock.NewestIsTaken` | system_calls/04_mmap_ipc.cpp:84-97 | with the writer between updates, one pass over the newest stores accepts exactly the newest pair under its own number, and `seen` becomes the larger of the two counts |
| `Seqlock.LabelExactIff` | system_calls/04_mmap_ipc.cpp:93-97 | the counter read afterwards equals the pair's version iff the sequence word could still be read unchanged |
| `Seqlock.LabelCanRunAhead` | system_calls/04_mmap_ipc.cpp:93-97 | a run in which the counter is ahead of the accepted pair |
| `Seqlock.PublishesOnce` | system_calls/04_mmap_ipc.cpp:71-79 | one uninterrupted pass of the writer publishes exactly that update and leaves an even number two higher |
| `Seqlock.Page.constructor` | system_calls/04_mmap_ipc.cpp:45-50 | the page starts as version 0 |
| `Seqlock.Page.Publish` | system_calls/04_mmap_ipc.cpp:71-79 | the writer's loop body is the machine's six writer steps |
| `Seqlock.Page.PublishAll` | system_calls/04_mmap_ipc.cpp:71-79 | the loop publishes every update in order |
| `Scheduler.LoopIsRounds` | coroutines/06_scheduler.cpp:34-67 | whatever jobs do, the next iterations resume exactly the jobs at the front, in order, and what they enqueue lines up behind |
| `Scheduler.RoundIsTurns` | coroutines/06_scheduler.cpp:40-48 | a round of the specification is as many loop iterations as there are jobs queued |
| `Scheduler.RoundsAreTurns` | coroutines/06_scheduler.cpp:40-48 | any number of rounds is some number of iterations, one per job resumed |
| `Scheduler.RoundsEnd` | coroutines/06_scheduler.cpp:40-48 | if the rounds come to an end, so does the loop, after one iteration per job and round |
| `SchedulerJobs.CountersRunRoundRobin` | coroutines/06_scheduler.cpp:34-67 | any list of counters under any behaviour that counts: the loop ends after the sum of (n + 1) resumes, with the trace round by round in spawn order |
| `SchedulerJobs.CountersTrace` | coroutines/06_scheduler.cpp:40-48 | whenever the loop over any list of the source's counters has ended, its trace is exactly round 1, round 2 and so on, of length sum of (n + 1) |
| `SchedulerJobs.NeverAheadByTwo` | coroutines/06_scheduler.cpp:116-123 | at every moment two unfinished counters differ by at most one resume |
| `SchedulerJobs.TurnBalance` | coroutines/06_scheduler.cpp:128-159 | a turn keeps demand minus supply minus queued values, and lowers the load unless a consumer found nothing |
| `SchedulerJobs.RunReturnsIffSupplied` | coroutines/06_scheduler.cpp:40-48 | with any mix of jobs, run returns iff total demand is covered by queued values and total supply |
| `SchedulerJobs.SharedQueueIsFifo` | coroutines/06_scheduler.cpp:126-149 | values are received in push order, none lost, none twice, with any number of producers and consumers |
| `SchedulerJobs.PushedOncePerProducer` | coroutines/06_scheduler.cpp:128-134 | with any number of producers, each value has been pushed once for every producer that was to push it and has passed it |
| `SchedulerJobs.PushedInOrder` | coroutines/06_scheduler.cpp:128-134 | a single producer has pushed 0, 1, 2 and so on after any number of turns, whatever else is scheduled |
| `SchedulerJobs.RunReceives` | coroutines/06_scheduler.cpp:40-149 | when run over one producer and any other jobs returns, 0, 1, 2 and so on have been received, as many as were wanted, and the rest is queued in order |
| `SchedulerJobs.ExchangesAll` | coroutines/06_scheduler.cpp:170-172 | run over producer(n) and consumer(n) returns with exactly 0 to n - 1 received, for every n |
| `SchedulerJobs.SpawnerTrace` | coroutines/06_scheduler.cpp:152-159 | the spawner's run resumes it, both counters, it again, and then the counters to their ends, eight resumes in this order |
| `SchedulerJobs.RoundRobin.constructor` | coroutines/06_scheduler.cpp:30-37 | an empty scheduler |
| `SchedulerJobs.RoundRobin.ResumeJob` | coroutines/06_scheduler.cpp:51-78 | a resume updates the shared queue and the ready queue as the job's body does |
| `SchedulerJobs.RoundRobin.Run` | coroutines/06_scheduler.cpp:40-48 | the loop terminates with the queue empty, after turns of the specification only |
| `Pipeline.OutputIsUnique` | coroutines/07_pipeline.cpp:31-78 | two complete runs of a generator agree in values and final frame |
| `Pipeline.MapProduces` | coroutines/07_pipeline.cpp:85-90 | lazy map of a finite source is the mapped list |
| `Pipeline.MapEmits` | coroutines/07_pipeline.cpp:85-90 | and so on every prefix of any source |
| `Pipeline.FilterProduces` | coroutines/07_pipeline.cpp:93-99 | lazy filter of a finite source is the filtered list |
| `Pipeline.FilterEmits` | coroutines/07_pipeline.cpp:93-99 | on any prefix of any source, the passing elements come out in order |
| `Pipeline.FilterEmitsOnlySo` | coroutines/07_pipeline.cpp:93-99 | whatever filter yields is the filtered prefix of what its source yielded |
| `Pipeline.FilterProducesOnlySo` | coroutines/07_pipeline.cpp:93-99 | filter ends only if its source ends, with the filtered list |
| `Pipeline.ResumeFilter` | coroutines/07_pipeline.cpp:93-99 | filter's loop is one resume of the model |
| `Pipeline.ScanProduces` | coroutines/07_pipeline.cpp:135-143 | lazy scan yields the running folds and ends with the fold in its accumulator |
| `Pipeline.ScanEmits` | coroutines/07_pipeline.cpp:135-143 | the same on every prefix |
| `Pipeline.ScanEndsInFold` | coroutines/07_pipeline.cpp:135-143 | the last running fold is the fold |
| `Pipeline.TakeStops` | coroutines/07_pipeline.cpp:102-110 | take yields n elements, pulls one more, and ends |
| `Pipeline.TakeRunsDry` | coroutines/07_pipeline.cpp:102-110 | a source of at most n elements is passed on whole |
| `Pipeline.TakeFinishesIff` | coroutines/07_pipeline.cpp:102-110 | take(src, n) ends iff src yields more than n elements or ends |
| `Pipeline.DropProduces` | coroutines/07_pipeline.cpp:113-121 | drop of a finite source, also a short one, is the rest of the list |
| `Pipeline.DropEmits` | coroutines/07_pipeline.cpp:113-121 | the same on a prefix of any source |
| `Pipeline.ResumeDrop` | coroutines/07_pipeline.cpp:113-121 | drop's loop is one resume of the model |
| `Pipeline.ZipProduces` | coroutines/07_pipeline.cpp:124-132 | zip ends with the shorter source, having pulled the longer one once more |
| `Pipeline.ZipEmits` | coroutines/07_pipeline.cpp:124-132 | as long as neither source ends, zip pairs position by position, both pulled equally often |
| `Pipeline.FromEmits` | coroutines/07_pipeline.cpp:149-159 | iota and of yield their elements in order |
| `Pipeline.PullsOfLongSource` | coroutines/07_pipeline.cpp:102-121 | take(drop(src, d), n) on any long or infinite source resumes it d + n + 1 times and leaves it suspended |
| `Pipeline.PullsOfShortSource` | coroutines/07_pipeline.cpp:102-121 | on any source of at most d + n elements it resumes it once more than it has elements, never after its end |
| `Pipeline.TakeDropPulls` | coroutines/07_pipeline.cpp:102-159 | for of and iota: the only possible output, and exactly min(d + n, length) + 1 resumes |
| `Pipeline.TakeZipPulls` | coroutines/07_pipeline.cpp:102-153 | take of a zip of two infinite sources: the first n pairs, and both pulled n + 1 times |
| `Pipeline.TakeFilterFinishesIff` | coroutines/07_pipeline.cpp:93-110 | take(filter(src, p), n) ends iff n + 1 elements pass, or src ends with at most n that pass |
| `Pipeline.EndlessFilterFinishesIff` | coroutines/07_pipeline.cpp:93-153 | over an infinite source it ends iff at least n + 1 elements satisfy p |
| `Pipeline.LazyIsEager` | coroutines/07_pipeline.cpp:85-143 | every complete run of lazy map, filter, scan yields what the eager functions compute; its last value is the eager reduction |
| `Pipeline.PipelinePulls` | coroutines/07_pipeline.cpp:85-143 | and resumes a finite source exactly length + 1 times, never after its end |
| `Pipeline.Collect` | coroutines/07_pipeline.cpp:174-181 | collects the generator's unique output |
| `Pipeline.EagerMap` | lambdas/06_higher_order.cpp:23-31 | the loop computes the mapped list, element by element |
| `Pipeline.EagerFilter` | lambdas/06_higher_order.cpp:34-40 | the loop computes the filtered list |
| `Pipeline.EagerReduce` | lambdas/06_higher_order.cpp:43-48 | the loop computes the left fold |
| `Pipeline.CollectIsEager` | lambdas/06_higher_order.cpp:23-48 | collecting the lazy pipeline and calling the eager functions agree on every finite source |
| `AsyncServer.StepInv` | grpc_proto/08_grpc_async.cpp:55-111 | every step of every thread keeps one token per live object, one listener, and no fault |
| `AsyncServer.LifecycleIsSound` | grpc_proto/08_grpc_async.cpp:55-111 | over every run: no use after delete, one event or thread per live object, every object ever allocated alive or deleted exactly once, answered at most once and never deleted unanswered, one listener |
| `AsyncServer.NothingInFlight` | grpc_proto/08_grpc_async.cpp:61-111 | when no thread is in a handler, every call taken is answered and what lives has its one event |
| `AsyncServer.WorkIsPaidFor` | grpc_proto/08_grpc_async.cpp:61-111 | in every run the pieces of Proceed executed and still to come are exactly six per call taken and two per sent response taken |
| `AsyncServer.QuietMeansAnswered` | grpc_proto/08_grpc_async.cpp:61-111 | if no thread can execute a piece, every thread waits, every call taken is answered and all that work is done |
| `AsyncServer.ShutdownLeaksDropped` | grpc_proto/08_grpc_async.cpp:102-111 | events with ok == false are skipped, whenever they come, so once the queue is drained exactly their objects are leaked, always including the listener |
| `AsyncServer.LeakingRun` | grpc_proto/08_grpc_async.cpp:102-111 | such a run: the listener's event comes with ok == false, and the listener is left over |
| `AsyncServer.WholeCall` | grpc_proto/08_grpc_async.cpp:61-82 | handling a call uninterrupted: the next listener is registered, then the response started |
| `AsyncServer.WholeDelete` | grpc_proto/08_grpc_async.cpp:83-88 | handling a sent response deletes the object and nothing else |
| `AsyncServer.LiveServer.NewCallData` | grpc_proto/08_grpc_async.cpp:55-68 | a new object is in PROCESS with one request registered |
| `AsyncServer.LiveServer.Proceed` | grpc_proto/08_grpc_async.cpp:61-88 | a whole Proceed is the machine's pieces in order |
| `Framing.LengthOfBig` | networking/10_socket_patterns.cpp:98-128 | ntohl of htonl, for every length that fits |
| `Framing.BigOfLength` | networking/10_socket_patterns.cpp:98-128 | htonl of ntohl, for every byte sequence |
| `Framing.HeaderBytes` | networking/10_socket_patterns.cpp:98-98 | the four bytes sent for a length are its base-256 digits, most significant first |
| `Framing.HeaderLength` | networking/10_socket_patterns.cpp:129-129 | the length read from any four bytes is their big-endian sum |
| `Framing.ReceivedIffLegal` | networking/10_socket_patterns.cpp:96-141 | a sent payload is received iff its length is 1 to 2^20, with what follows left in the stream |
| `Framing.ParsedWasEncoded` | networking/10_socket_patterns.cpp:118-141 | only an encoding of a legal payload is taken for a frame |
| `Framing.FramesSplit` | networking/10_socket_patterns.cpp:162-167 | a stream is the encodings of its frames and a tail where no frame starts |
| `Framing.FramesAreLongest` | networking/10_socket_patterns.cpp:162-167 | every other split into payloads and tail is a prefix of that one |
| `Framing.SendsAllIff` | networking/10_socket_patterns.cpp:102-114 | a run of send calls moves everything iff none of them fails |
| `Framing.Socket.SendAll` | networking/10_socket_patterns.cpp:102-114 | the loop puts on the wire exactly what the answers of the operating system accept |
| `Framing.Socket.RecvAll` | networking/10_socket_patterns.cpp:121-139 | the loop receives exactly the request, or stops at the end of the stream or a failure |
| `Framing.Socket.SendFrame` | networking/10_socket_patterns.cpp:96-116 | the encoding is on the wire iff no call failed, otherwise a proper prefix of it |
| `Framing.Socket.RecvFrame` | networking/10_socket_patterns.cpp:118-141 | a message is the first frame; without faults one is received iff there is one; a refused length consumes four bytes |
| `Framing.Transfer` | networking/10_socket_patterns.cpp:96-141 | k sends and k receives give the same payloads under any fragmentation and end on a frame boundary |
| `Framing.RepliesIff` | networking/10_socket_patterns.cpp:162-167 | replies sent without looking at the results are the encoding iff the operating system refused none of the calls |
| `Framing.EchoGarbles` | networking/10_socket_patterns.cpp:162-167 | an input at which they are not: one failed call, and the peer receives a byte that nobody sent |
| `Framing.Echo` | networking/10_socket_patterns.cpp:162-167 | the loop reads the longest valid frame prefix if no recv fails, a prefix of it otherwise, and its output encodes what it read iff no send call was refused |
| `ConnectionPool.StepInvIff` | networking/10_socket_patterns.cpp:287-302 | a call keeps every connection available or held once iff it is not the release of a connection that is not held |
| `ConnectionPool.RunInvIff` | networking/10_socket_patterns.cpp:287-302 | over any run, ownership holds at every point iff every release was proper |
| `ConnectionPool.ImproperReleaseShares` | networking/10_socket_patterns.cpp:295-302 | after any improper release, some number of acquires hands one connection out twice |
| `ConnectionPool.FailsIffAllHeld` | networking/10_socket_patterns.cpp:287-292 | acquire fails iff every connection is held |
| `ConnectionPool.Pool.constructor` | networking/10_socket_patterns.cpp:269-284 | the pool holds exactly the connections that could be made, all available in order |
| `ConnectionPool.Pool.Acquire` | networking/10_socket_patterns.cpp:287-292 | hands out a connection nobody holds, or -1 iff none is available |
| `ConnectionPool.Pool.Release` | networking/10_socket_patterns.cpp:295-302 | makes the connection with that descriptor available; an unknown one is ignored |
| `LatencyStats.StepInv` | performance/10_profiling.cpp:63-79 | every access of every call keeps counters, minimum and maximum consistent with the calls' positions |
| `LatencyStats.Monotonic` | performance/10_profiling.cpp:67-78 | between any two moments min_ns has not risen and max_ns has not fallen |
| `LatencyStats.AllRecorded` | performance/10_profiling.cpp:57-79 | when all calls returned: number and wrapped sum, true minimum, maximum with 0, for any schedule and any failed swaps |
| `LatencyStats.RecordsAlone` | performance/10_profiling.cpp:63-79 | in any state a call left alone returns after six accesses, which leave what one more record should |
| `LatencyStats.MaxIsTrueIff` | performance/10_profiling.cpp:61-61 | max_ns is the largest record iff some record is not negative |
| `LatencyStats.Stats.constructor` | performance/10_profiling.cpp:57-61 | a new accumulator holds no records |
| `LatencyStats.Stats.LowerMin` | performance/10_profiling.cpp:68-72 | the swap loop leaves the smaller of the two values, after any number of spurious failures |
| `LatencyStats.Stats.RaiseMax` | performance/10_profiling.cpp:74-78 | the swap loop leaves the larger of the two values |
| `LatencyStats.Stats.Record` | performance/10_profiling.cpp:63-79 | one more record is accounted for in all four fields |
| `CasCounter.CountsEveryIncrement` | performance/08_lockfree.cpp:86-115 | under every schedule the counter reaches threads * ops iff every thread is done, and never passes it |
| `CasCounter.IncrementsAlone` | performance/08_lockfree.cpp:100-107 | in any state a thread left alone does its next increment with one load and one swap |
| `Arena.AlignedIsLeast` | performance/07_allocators.cpp:68-68 | without wrap, the mask expression is the least multiple of the alignment at or above used |
| `Arena.MultipleIsModulo` | performance/07_allocators.cpp:68-68 | being a multiple, by repeated subtraction, is having remainder 0 |
| `Arena.AlignedWraps` | performance/07_allocators.cpp:68-68 | with wrap, the block is placed at offset 0 |
| `Arena.StepInvIff` | performance/07_allocators.cpp:65-83 | a call keeps blocks ordered, aligned and in bounds iff it is refused or no sum wrapped |
| `Arena.RunInvIff` | performance/07_allocators.cpp:65-83 | over any run of alloc and reset the same, at every point |
| `Arena.BlocksAreDisjoint` | performance/07_allocators.cpp:65-83 | if sizes and alignments fit in a word beside the capacity, live blocks are pairwise disjoint, in bounds and aligned after any run |
| `Arena.GrantsIffRoom` | performance/07_allocators.cpp:69-69 | without wrap alloc succeeds iff some aligned block of that size fits above used |
| `Arena.MakeManyIff` | performance/07_allocators.cpp:76-81 | for any capacity and type: n objects are granted iff n * size <= capacity, for every n, iff the first multiple of size above the capacity fits in a word |
| `Arena.BeyondIsNear` | performance/07_allocators.cpp:76-81 | that multiple is at most capacity + size |
| `Arena.HugeRequestOverlaps` | performance/07_allocators.cpp:68-71 | a request of 2^64 - 16 bytes is granted and the next block overlaps an earlier one |
| `Arena.Allocator.constructor` | performance/07_allocators.cpp:62-63 | an empty arena |
| `Arena.Allocator.Allocate` | performance/07_allocators.cpp:65-73 | the word arithmetic is the machine's allocation step and its result |
| `Arena.Allocator.MakeMany` | performance/07_allocators.cpp:174-182 | a reset and n calls of make: all granted as the machine grants them, so iff they fit when the condition above holds |
| `Arena.Allocator.ResetAll` | performance/07_allocators.cpp:83-83 | nothing is used and no block is live |
| `GapDetector.Detect` | networking/04_udp_basics.cpp:228-245 | the loop computes expected and gaps of the specification, for any input |
| `GapDetector.Conservation` | networking/04_udp_basics.cpp:228-245 | gaps + receipts = expected - 1, plus 2^32 per wrap and minus 2^32 per jump cast to a negative int, for every input |
| `GapDetector.ExactIff` | networking/04_udp_basics.cpp:228-245 | the plain law holds iff wraps and big jumps balance |
| `GapDetector.ExactInWords` | networking/04_udp_basics.cpp:228-245 | modulo 2^32 the plain law always holds |
| `GapDetector.WrapsIffTop` | networking/04_udp_basics.cpp:231-241 | expected wraps iff 2^32 - 1 is received |
| `GapDetector.SmallIsExact` | networking/04_udp_basics.cpp:228-245 | below 2^31 there are no wraps and no big jumps |
| `GapDetector.RunRecords` | networking/04_udp_basics.cpp:228-245 | expected, the numbers seen and those first seen as duplicates are determined by the input: one above the highest, those received, and those that arrived for the first time after a higher one |
| `GapDetector.GapsAreLostOrLate` | networking/04_udp_basics.cpp:228-245 | while nothing wraps, gaps minus the numbers lost is the count of distinct numbers that arrived out of order (those first seen as duplicates) |
| `GapDetector.ExactIffNoLeap` | networking/04_udp_basics.cpp:228-245 | while nothing wraps, gaps + receipts = expected - 1 iff no number leaps more than 2^31 past the highest before it |
| `GapDetector.LeapIsNegative` | networking/04_udp_basics.cpp:234-239 | 2^31 + 1 as the first number is such a leap: the gap is added as -2^31 |
| `GapDetector.GapsAreLostIff` | networking/04_udp_basics.cpp:228-245 | without wraps and leaps, gaps is the number lost iff no number arrives for the first time after a higher one |
| `GapDetector.LateArrivalStaysCounted` | networking/04_udp_basics.cpp:228-245 | 1, 3, 2: nothing is lost and one gap is reported |
| `GapDetector.TopStartsOver` | networking/04_udp_basics.cpp:234-240 | after 2^32 - 1 the detector expects 0 and reports -2 gaps |
| `RepeatingTimer.StartIsMaximum` | concurrency/09_timers.cpp:45-51 | callback k starts at the maximum over j <= k of deadline j plus all work and wake-up delay since |
| `RepeatingTimer.OnScheduleIff` | concurrency/09_timers.cpp:45-51 | tick k is on schedule iff no stretch of rounds up to it took longer than its intervals |
| `RepeatingTimer.ShortCallbacksOnSchedule` | concurrency/09_timers.cpp:45-51 | callbacks that fit in the interval are all on schedule, without drift |
| `RepeatingTimer.LatenessIsAbsorbed` | concurrency/09_timers.cpp:45-51 | once the slack covers the lateness, a tick is waited for again and starts only its own wake-up delay after its deadline |
| `RepeatingTimer.DeadlinesApart` | concurrency/09_timers.cpp:49-49 | deadlines are exactly intervals apart, whatever the callbacks do |
| `RepeatingTimer.Rounds` | concurrency/09_timers.cpp:45-51 | the loop starts callback k exactly at the specified time, for every k |
| `RepeatingTimer.CallsBackEveryRound` | concurrency/09_timers.cpp:46-51 | while nobody cancels, every fifth step of the thread begins a callback, exactly, from any point of its round |
| `RepeatingTimer.CallbacksOfRun` | concurrency/09_timers.cpp:46-61 | the number of callbacks of every run: (n + 1) / 5 for the n steps before cancel or destruction, and one more iff the clear flag was loaded and the thread runs again |
| `RepeatingTimer.AtMostOneAfterCancel` | concurrency/09_timers.cpp:46-61 | in every interleaving at most one callback begins after cancel, and the destructor returns only after the thread left its loop |
| `RepeatingTimer.BeginsAfterCancelIff` | concurrency/09_timers.cpp:46-55 | one begins iff the thread had already loaded the clear flag, and gets to run |
| `RepeatingTimer.NothingAfterDestruction` | concurrency/09_timers.cpp:57-61 | after destruction nothing changes any more |
| `RepeatingTimer.ExitsAfterCancel` | concurrency/09_timers.cpp:46-61 | after cancel the thread exits after exactly the steps left in its round, so the join ends |
| `RepeatingTimer.DestructorReturnsIff` | concurrency/09_timers.cpp:57-61 | the destructor's join is over iff the thread has been given the steps left in its round |

## Left out

- The examples that only call the standard library, Boost, Folly, Abseil, gRPC or the operating system: there is no logic of their own to model.
- `reconnect_with_backoff` (networking/10_socket_patterns.cpp): its delay is a product rounded from floating point, and the rest is connecting.
- `when_all` (coroutines/09_when_all.cpp): children start before the parent's handle is stored, so resuming the parent exactly once does not follow from the code.
- `CancellableDelay` (coroutines/10_cancellation.cpp): the stop callback is destroyed at once, so what it is meant to guarantee is not decided by the code.
- The thread-hopping `sync_wait` (coroutines/05_thread_hop.cpp): `TaskMachine` covers tasks that suspend only to await other tasks.
- The reader of the named shared memory (system_calls/04_mmap_ipc.cpp:158-168): it does not check the sequence number.
- `OrderBook` (testing/02_gtest_fixtures.cpp): cancelling leaves empty price levels.
- `SpscQueue::empty`, and calling either end of the queue from more than one thread.
- `compose`, `partial`, `make_multiplier`, `make_between` (lambdas/06_higher_order.cpp): each is one expression.
- Printing, timing, benchmarking and rounding. Prices in `Seqlock` are real numbers.
- Overflow of `int` counters where the program would run for years or is undefined: the sequence number and counter of `Seqlock`, the increments of `CasCounter`, the counter of `iota`, the accumulated `gaps` of `GapDetector` (its casts and `expected` are modelled exactly).
- Generators as heap objects: in `Pipeline` a generator's frame is a value threaded through its resumes, so the model says nothing about two owners of one frame; the owning handle cannot be copied in the source.
- `ThreadPool`: the memory of the pool after its destructor returned, the futures returned by `submit`, and exceptions thrown by tasks are not modelled.
- `TaskMachine`: bodies are built from expressions over integers (so `format_result` adds its numbers instead of joining their texts), return, throw, await, sequencing, if and try/catch; reaching the end of a body returns its last value. Destruction order of frames is not modelled.
- `AsyncServer`: the completion queue delivers outstanding events in any order, at most once each, with ok true or false; request contents and the client are not modelled.
- SpscQueue.DemoSum: is about the values received so far. DemoFinishesIff says that more can always be received; that they are needs a fair scheduler.
- RepeatingTimer.AtMostOneAfterCancel: reads of the flag are sequentially consistent, because without that "after cancel" has no meaning between threads.
- Arena.MakeManyIff: sizeof is positive and a multiple of alignof, as C++ guarantees. Alignment is relative to the start of the buffer; constructing the object in place is not modelled.
- GapDetector.GapsAreLostOrLate: only while 2^32 - 1 has not been received; TopStartsOver shows why.
- Framing.Transfer: asks that no system call fails; SendFrame, RecvFrame and Echo state what happens when one does.
