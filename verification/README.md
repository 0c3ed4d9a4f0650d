# Frame distribution and logging core of the camera program

This project models the hard parts of the camera program and of the logging and formatting library it carries, and
proves what they promise. Run `dafny verify dfyconfig.toml` to check everything.

What is modelled:

- **Frame distributor.** `Fanout.dfy` has the data (buffers as heap cells with owners, the input queue, one queue per
  event, the frame counter) and what each critical section does to it. `Distributor.dfy` is the system of threads around
  it: any number of distributors, cameras that push, threads that register, remove and pop, with every mutex and
  condition variable explicit. `Delivery.dfy` tells from a log of the calls what every event receives.
  `Service.dfy` bounds how long the calls under way can take and says what holds when they are over. `VideoQueue.dfy` is
  the object itself, with buffers on the heap, and `Views.dfy` ties the two: each operation is given once on the contents
  of the queues, and both the steps of the data model and the methods of the object are proved to act so.
  `Decimation.dfy` is the arithmetic of which frames an event receives. The header says that eight distributor threads
  are started (`rpi_cam_app/include/camera_device/VideoQueue.hpp:73`), the code starts six; the model has any number.
- **Logging pipeline.** `CircularQ.dfy` is the ring over a vector, proved to be a bounded sequence. `MpmcQueue.dfy` is
  the blocking queue with its three overflow policies, as a system of threads and as an object over the ring.
  `ThreadPool.dfy` is the pool over that queue, from construction to the end of its destructor.
- **Format strings.** `FormatString.dfy` has the parser that interprets a format string while it formats and the compiler
  that turns it into a tree. The compiler accepts a `}` followed by any character and drops that character
  (`rpi_cam_app/include/spdlog/fmt/bundled/compile.h:413-416`), where the interpreter reports an error; the theorems say
  that this is the only difference, and what format strings mean. `ParseInt.dfy` is the number reader that both use.
- **Rotating log files.** `RotatingSink.dfy`: the disk is a map from names to contents.
- **Arithmetic.** `TrailingZeros.dfy` (modular inverses), `DivideByPow10.dfy` (division by multiplication), `IsoWeek.dfy`
  (ISO 8601 week numbers), all with machine-word sizes written out; `Arithmetic.dfy` has shared facts on division,
  `Sums.dfy` on sums over threads, `Strings.dfy` on words in strings, `Basics.dfy` a few notions that several modules
  use.
- **Log patterns.** `PatternFormatter.dfy`: compilation of patterns and padding.
- **Recorded segments.** `VideoHandler.dfy`: which files make up an event's video and which are deleted.

Threads. A step of a thread system is one critical section, one notification or one wake-up. A mutex belongs to places
in a thread's code: a step that enters such a place needs the mutex to be free. Sleepers may wake at any time. The
properties are invariants that every step keeps, and theorems on all runs of any length with any number of threads.

Where the code does less than its documentation or name promises, the exact condition is proved: `}` in compiled format
strings; 64-bit trailing-zero removal, which cuts the quotient to 32 bits; 64-bit division by 1000, which is one too large
for some numbers from 15534100272597517999 on; week numbers before year 0; a requested frame rate above the device rate,
whose step is 0; video files whose name does not start with a number, on which the handler throws with its lock held;
the date-and-time flag, which declares one column more than it writes on days 1 to 9. `rotate_now` leaves the size
estimate as it was, so that the next message may rotate again early; the invariant allows for it.

## Model

| member | source | states |
|---|---|---|
| `Delivery.EveryEventGetsItsFrames` | rpi_cam_app/src/camera_device/VideoQueue.cpp:190-246 | after any run of any number of distributors, cameras, registrations, removals and pops, told by a log kept from the calls and, where an event is registered or popped, from its queue: the registered events are those of the log, each with the largest step of which the rate asked for fits the device rate; what an event has popped followed by what waits in its queue is what its queue held at registration followed by one frame for each round r from then on with (r mod device rate + 1) mod step = 0, in order, with the metadata and bytes of the r-th frame that a camera handed in and the stamp of the round |
| `Delivery.InputHoldsTheRest` | rpi_cam_app/src/camera_device/VideoQueue.cpp:144-213 | after any run: the input queue holds, in order and unchanged, the frames that cameras handed in and no distributor has taken |
| `Delivery.PushEffect` | rpi_cam_app/src/camera_device/VideoQueue.cpp:144-150 | a push queues the frame that its thread carries, and no other step adds to what was pushed |
| `Delivery.ActorCarries` | rpi_cam_app/src/camera_device/VideoQueue.cpp:144-188 | whatever step a thread makes, it carries the frame, request or name that it was last called with |
| `Delivery.InsertEffect` | rpi_cam_app/src/camera_device/VideoQueue.cpp:51-80 | a registration registers the event that its thread asked for, with the step of the rate asked for and the queue under that name, and leaves a known event and all others alone |
| `Delivery.EraseEffect` | rpi_cam_app/src/camera_device/VideoQueue.cpp:82-142 | an erasure removes the event that its thread asked to remove, with its queue, and no other |
| `Delivery.PopEffect` | rpi_cam_app/src/camera_device/VideoQueue.cpp:154-188 | a pop takes the oldest buffer out of the queue that its thread asked for and gives it to the consumer |
| `Delivery.TakeEffect` | rpi_cam_app/src/camera_device/VideoQueue.cpp:204-230 | taking a frame, and nothing else, records the clock that was read then |
| `Delivery.ShutdownEffect` | rpi_cam_app/src/camera_device/VideoQueue.cpp:43-47 | shutting down disables the queue, and nothing else changes that |
| `Distributor.OnePlaceEach` | rpi_cam_app/src/camera_device/VideoQueue.cpp:204-242 | in every reachable state each live buffer is in exactly one place (input queue, one output queue, the distributor's hands, a consumer), each such place holds only live buffers, no buffer is freed twice, and every registered event has a queue, so that no copy is dropped |
| `Distributor.NoCycleOfWaiters` | rpi_cam_app/src/camera_device/VideoQueue.cpp:51-242 | in no reachable state is there a cycle of threads, of any length, each waiting for a mutex that the next one holds |
| `Distributor.LockOrder` | rpi_cam_app/src/camera_device/VideoQueue.cpp:88-96 | whatever a thread holds when it waits for a mutex comes strictly earlier in the order input, thread-info, event |
| `Service.FramesAreServed` | rpi_cam_app/src/camera_device/VideoQueue.cpp:190-246 | from any reachable state, for any number of threads: once no call starts any more, a run has at most Measure steps, and four more for each spurious wake-up or deletion by a consumer; where no other step is left, every thread is idle or asleep, every frame has been taken and handed out if the queue is enabled, and every distributor has left its loop if it was shut down |
| `Service.MeasureStep` | rpi_cam_app/src/camera_device/VideoQueue.cpp:190-246 | every step of a call under way lowers the measure of frames queued, events to look at and places still to pass; a spurious wake-up raises it by at most three, the deletion of a popped buffer not at all |
| `Distributor.NobodyOversleeps` | rpi_cam_app/src/camera_device/VideoQueue.cpp:154-198 | in every reachable state: while a frame is queued and the queue is enabled, some distributor is awake and somebody can go on with a call; a thread asleep in pop sleeps on an empty queue; a thread that waits for a mutex is never the last that could move |
| `Distributor.ShutdownWakes` | rpi_cam_app/src/camera_device/VideoQueue.cpp:43-49 | in every reachable state: once the queue is shut down no distributor is asleep |
| `Distributor.GuardSuffices` | rpi_cam_app/src/camera_device/VideoQueue.cpp:193-221 | in a reachable state a step whose place and mutexes allow it never finds the shared data in a state where it would go wrong (no division by a zero step, no missing event or queue) |
| `Distributor.InvStep` | rpi_cam_app/src/camera_device/VideoQueue.cpp:43-246 | every step of every thread keeps the whole invariant: mutual exclusion, the single scan, the roles, the requests, the data |
| `Distributor.LockStep` | rpi_cam_app/src/camera_device/VideoQueue.cpp:193-221 | every step keeps the mutexes consistent: a thread is recorded as holder of exactly the mutexes of its place |
| `Distributor.WakeStep` | rpi_cam_app/src/camera_device/VideoQueue.cpp:43-49 | every step, spurious wake-ups included, keeps: if a frame is queued and the queue is enabled, some distributor is not asleep |
| `Fanout.DeliveryStep` | rpi_cam_app/src/camera_device/VideoQueue.cpp:217-240 | every operation keeps, for every registered event, popped + queued == held at registration + frames due since |
| `Fanout.PlaceStep` | rpi_cam_app/src/camera_device/VideoQueue.cpp:204-242 | every operation keeps the owners right: each queue, the hand and the consumers hold exactly the live buffers they own, each once |
| `Fanout.MemStep` | rpi_cam_app/src/camera_device/VideoQueue.cpp:225-242 | every operation keeps memory sane: new buffers get unused addresses, a freed one is never freed again and never live again |
| `Fanout.InputStep` | rpi_cam_app/src/camera_device/VideoQueue.cpp:144-213 | every operation keeps: the input queue holds the frames pushed and not yet taken, in order, unchanged, and the frame in hand is the last one taken |
| `Fanout.HeapStays` | rpi_cam_app/src/camera_device/VideoQueue.cpp:224-228 | an operation leaves the contents of every live buffer it does not delete as they were; cells hold frames by value here, and that a copy shares no array with its source is VideoQueue.DistributeBuffer |
| `Fanout.CountStep` | rpi_cam_app/src/camera_device/VideoQueue.cpp:209-212 | every operation keeps the frame number that of the last frame taken |
| `Fanout.ExpectedCount` | rpi_cam_app/src/camera_device/VideoQueue.cpp:217-219 | the number of frames due to an event between two rounds is the difference of the decimation counts of the two |
| `Fanout.ExpectedRounds` | rpi_cam_app/src/camera_device/VideoQueue.cpp:209-240 | which frames are due: those of the rounds whose number in the cycle is a multiple of the step, in order, each with the metadata and bytes pushed and the stamp of its round |
| `Fanout.InvStep` | rpi_cam_app/src/camera_device/VideoQueue.cpp:51-246 | every operation on the data keeps the whole data invariant |
| `Views.RoundActs` | rpi_cam_app/src/camera_device/VideoQueue.cpp:193-242 | a whole round of the data model, with the events looked at in any order, does to the contents of the queues exactly what one turn of the object does: AfterRound |
| `Views.PushActs` | rpi_cam_app/src/camera_device/VideoQueue.cpp:144-152 | the step Push of the data model does to the contents what the method of the object does: AfterPush |
| `Views.InsertActs` | rpi_cam_app/src/camera_device/VideoQueue.cpp:51-80 | the step Insert does to the contents what the method does: AfterInsert |
| `Views.RemoveActs` | rpi_cam_app/src/camera_device/VideoQueue.cpp:82-142 | the step Remove does to the contents what the method does: AfterRemove |
| `Views.PopActs` | rpi_cam_app/src/camera_device/VideoQueue.cpp:154-188 | the step Pop does to the contents what the method does, AfterPop, and takes the same frame |
| `Views.StopActs` | rpi_cam_app/src/camera_device/VideoQueue.cpp:176-180 | the step Stop does to the contents what pop does with an event told to stop: AfterStop |
| `Decimation.CopiesClosedForm` | rpi_cam_app/src/camera_device/VideoQueue.cpp:209-219 | the first n frames from a fresh counter give (n / rate) * (rate / step) + (n mod rate) / step copies |
| `Decimation.CycleBounds` | rpi_cam_app/src/camera_device/VideoQueue.cpp:67-69 | with step = rate / requested, a full cycle gives rate / step copies, at least the requested rate and less than twice it, and exactly it if and only if rate mod requested < step |
| `Decimation.StepUsable` | rpi_cam_app/src/camera_device/VideoQueue.cpp:69-69 | the step is not zero (so that the distributor does not divide by zero) if and only if the requested rate is at most the device rate |
| `Decimation.StepBounds` | rpi_cam_app/src/camera_device/VideoQueue.cpp:67-69 | step * requested <= device rate < (step + 1) * requested |
| `Decimation.NextIsFrameNo` | rpi_cam_app/src/camera_device/VideoQueue.cpp:209-212 | counting up with a reset after the device rate numbers frame i of the stream i mod rate + 1 |
| `VideoQueueObject.VideoQueue.Push` | rpi_cam_app/src/camera_device/VideoQueue.cpp:144-152 | the buffer goes to the end of the input queue; by value the object does AfterPush |
| `VideoQueueObject.VideoQueue.InsertEvent` | rpi_cam_app/src/camera_device/VideoQueue.cpp:51-80 | 1 and no change for a known name; otherwise, for any positive rate, the event is registered with the largest step of which that rate fits the device rate, zero if and only if the rate is above that of the device, and has a queue, one already there under the name being kept; by value AfterInsert, unless the information object is already registered under another name |
| `VideoQueueObject.VideoQueue.RemoveEvent` | rpi_cam_app/src/camera_device/VideoQueue.cpp:82-142 | exactly the buffers in the event's queue are deleted, each once, the queue and the event are gone, its information object and no other is told to stop; 1 for an unknown event, 2 for a missing queue; by value AfterRemove, unless another event shares the information object |
| `VideoQueueObject.VideoQueue.Pop` | rpi_cam_app/src/camera_device/VideoQueue.cpp:154-188 | null for an unknown event; an event told to stop is forgotten and its queue kept; an empty queue makes the caller wait with nothing changed; otherwise the oldest buffer leaves the queue with its contents as they were and belongs to the caller; by value AfterPop or AfterStop |
| `VideoQueueObject.VideoQueue.DistributeBuffer` | rpi_cam_app/src/camera_device/VideoQueue.cpp:192-243 | one turn of the loop: nothing while empty or disabled; otherwise the frame is numbered, each event whose step divides the number and no other gets one more buffer at its end, with the metadata, size and bytes of the input buffer and the new stamp, over an array that no buffer had before; the input buffer is deleted once; by value AfterRound |
| `VideoQueueObject.CopyBuffer` | rpi_cam_app/src/camera_device/VideoQueue.cpp:224-230 | the copy is a new object over a new array with the same metadata, size and bytes and the new stamp |
| `VideoQueueObject.VideoQueue.constructor` | rpi_cam_app/src/camera_device/VideoQueue.cpp:16-28 | an enabled queue with nothing in it |
| `VideoQueueObject.VideoQueue.Shutdown` | rpi_cam_app/src/camera_device/VideoQueue.cpp:43-47 | the distributors are told to stop |
| `Bounded.RunKeepsNewest` | rpi_cam_app/include/spdlog/details/circular_q.h:46-95 | after any legal mix of pushes and pops the ring holds the newest part of everything that went in, in order, and what is missing was popped or counted by the overrun counter |
| `Bounded.PushOnlyKeepsLast` | rpi_cam_app/include/spdlog/details/circular_q.h:46-57 | after pushes alone exactly the last capacity items are left and the counter says how many were dropped |
| `CircularQueue.CircularQ.PushBack` | rpi_cam_app/include/spdlog/details/circular_q.h:46-57 | the ring over the vector does what a bounded sequence does on a push: a full one drops its oldest item and counts it, a disabled one ignores it |
| `CircularQueue.CircularQ.PopFront` | rpi_cam_app/include/spdlog/details/circular_q.h:81-83 | the sequence loses its first item |
| `CircularQueue.CircularQ.At` | rpi_cam_app/include/spdlog/details/circular_q.h:74-79 | item i of the sequence, wherever it is in the vector |
| `CircularQueue.CircularQ.Front` | rpi_cam_app/include/spdlog/details/circular_q.h:59-63 | the first item of the sequence |
| `CircularQueue.CircularQ.Size` | rpi_cam_app/include/spdlog/details/circular_q.h:65-72 | the length of the sequence |
| `CircularQueue.CircularQ.Empty` | rpi_cam_app/include/spdlog/details/circular_q.h:85-85 | true exactly when the sequence is empty |
| `CircularQueue.CircularQ.Full` | rpi_cam_app/include/spdlog/details/circular_q.h:87-93 | true exactly when the sequence has reached the capacity, never for a disabled ring |
| `CircularQueue.CircularQ.MoveFrom` | rpi_cam_app/include/spdlog/details/circular_q.h:99-112 | the sequence and the counter move over and the other ring is left disabled; moving a ring into itself leaves it disabled |
| `CircularQueue.CircularQ.ResetOverrunCounter` | rpi_cam_app/include/spdlog/details/circular_q.h:97-97 | only the counter changes |
| `CircularQueue.CircularQ.constructor` | rpi_cam_app/include/spdlog/details/circular_q.h:28-31 | an empty ring whose capacity is the number asked for, one slot more being allocated |
| `CircularQueue.CircularQ.Disabled` | rpi_cam_app/include/spdlog/details/circular_q.h:25-26 | a ring that holds nothing and takes nothing |
| `CircularQueue.RingbufferSink.LastRaw` | rpi_cam_app/include/spdlog/sinks/ringbuffer_sink.h:26-36 | the last min(lim, size) messages in order, all of them for lim 0 |
| `CircularQueue.RingbufferSink.SinkIt` | rpi_cam_app/include/spdlog/sinks/ringbuffer_sink.h:53-55 | the message becomes the newest one kept |
| `MpmcQueue.Linearizable` | rpi_cam_app/include/spdlog/details/mpmc_blocking_q.h:31-90 | any interleaving of any number of producers and consumers with any mix of policies is a sequential use of the bounded ring: same contents, same accepted items, same overruns |
| `MpmcQueue.NoLostWakeup` | rpi_cam_app/include/spdlog/details/mpmc_blocking_q.h:31-90 | in every reachable state: while a consumer sleeps, queued items <= notifications owed + woken consumers, and while a producer sleeps, free slots <= notifications owed + woken producers; spurious wakes and timeouts included |
| `MpmcQueue.ConsumerHelped` | rpi_cam_app/include/spdlog/details/mpmc_blocking_q.h:66-90 | while a consumer sleeps and an item is queued, a thread that owes a notification or was woken has an enabled step |
| `MpmcQueue.ProducerHelped` | rpi_cam_app/include/spdlog/details/mpmc_blocking_q.h:31-38 | the same for a sleeping producer and a free slot |
| `MpmcQueue.Accounting` | rpi_cam_app/include/spdlog/details/mpmc_blocking_q.h:150-167 | after any run: accepted == delivered + queued + overwritten, in order; and from any point on, whatever was reset before it, as long as nothing is reset the overrun counter grows by exactly the overwritten items and the discard counter by the rejected ones; a reset sets its counter to zero |
| `MpmcQueue.DeliveredInOrder` | rpi_cam_app/include/spdlog/details/mpmc_blocking_q.h:66-90 | the delivered items are a subsequence of the accepted ones: they keep their order |
| `MpmcQueue.InAndOut` | rpi_cam_app/include/spdlog/details/mpmc_blocking_q.h:31-90 | in any run: what is accepted is what the producers called enqueue with, in the order in which they got in, and what is delivered is what the consumers go away with, in order |
| `MpmcQueue.AttemptEnds` | rpi_cam_app/include/spdlog/details/mpmc_blocking_q.h:66-90 | a consumer gets the oldest item if there is one; else it returns empty-handed if its time is up, and sleeps otherwise |
| `MpmcQueue.BlockingLosesNothing` | rpi_cam_app/include/spdlog/details/mpmc_blocking_q.h:31-38 | a run that only uses the blocking enqueue delivers or still holds everything accepted and rejects nothing |
| `MpmcQueue.OnlyNowaitOverruns` | rpi_cam_app/include/spdlog/details/mpmc_blocking_q.h:40-47 | without the overrun policy nothing is overwritten |
| `MpmcQueue.OnlyIfHaveRoomRejects` | rpi_cam_app/include/spdlog/details/mpmc_blocking_q.h:49-64 | without the discard policy nothing is rejected |
| `MpmcQueue.InvStep` | rpi_cam_app/include/spdlog/details/mpmc_blocking_q.h:31-90 | every critical section, notification, wake-up and timeout keeps the queue invariant |
| `MpmcBlockingQueue.BlockingQueue.Enqueue` | rpi_cam_app/include/spdlog/details/mpmc_blocking_q.h:31-38 | a full queue makes the caller sleep with nothing changed; otherwise the item is appended |
| `MpmcBlockingQueue.BlockingQueue.EnqueueNowait` | rpi_cam_app/include/spdlog/details/mpmc_blocking_q.h:40-47 | the item is appended, a full queue dropping and counting its oldest one |
| `MpmcBlockingQueue.BlockingQueue.EnqueueIfHaveRoom` | rpi_cam_app/include/spdlog/details/mpmc_blocking_q.h:49-64 | the item is appended if there is room and else only the discard counter grows |
| `MpmcBlockingQueue.BlockingQueue.Dequeue` | rpi_cam_app/include/spdlog/details/mpmc_blocking_q.h:81-90 | an empty queue makes the caller sleep; otherwise the oldest item is taken |
| `ThreadPool.ShutdownComplete` | rpi_cam_app/include/spdlog/details/thread_pool-inl.h:44-56 | whenever the destructor has returned: every worker has exited, the queue is empty, every message dequeued was handled exactly once, and every message queued when the destructor started was handled |
| `ThreadPool.OneWorkerInOrder` | rpi_cam_app/include/spdlog/details/thread_pool-inl.h:92-124 | a pool of one worker: at any time what it has handled, followed by the message it is at, is the sequence of delivered items, a subsequence of the accepted ones in their order; when the destructor has returned it is all of them |
| `ThreadPool.PostedAndTaken` | rpi_cam_app/include/spdlog/details/thread_pool-inl.h:58-124 | from construction on: what the queue has accepted is what was posted, in the order in which it got in, and what it has delivered is what workers took away |
| `ThreadPool.NeverStuck` | rpi_cam_app/include/spdlog/details/thread_pool-inl.h:44-56 | a state of the shutdown that is not finished has an enabled step other than a spurious wake-up |
| `ThreadPool.LiveWorkers` | rpi_cam_app/include/spdlog/details/thread_pool-inl.h:92-124 | after any run: workers that have not taken a terminate message == n - terminates posted + terminates still queued, and a destructor that has not returned has an enabled step |
| `ThreadPool.MeasureStep` | rpi_cam_app/include/spdlog/details/thread_pool-inl.h:44-124 | every step of the shutdown uses up a measure; a spurious wake-up gives back at most one |
| `ThreadPool.ShutdownBounded` | rpi_cam_app/include/spdlog/details/thread_pool-inl.h:44-124 | a shutdown takes at most as many steps as the measure, plus two for each spurious wake-up |
| `ThreadPool.InvStep` | rpi_cam_app/include/spdlog/details/thread_pool-inl.h:58-124 | every step of posters, workers and destructor keeps the invariant of the pool |
| `ThreadPool.ConservedStep` | rpi_cam_app/include/spdlog/details/thread_pool-inl.h:47-49 | every step keeps: each terminate message posted is queued or has made one worker leave |
| `ThreadPool.HandledStep` | rpi_cam_app/include/spdlog/details/thread_pool-inl.h:100-124 | every step keeps: each message dequeued is being carried by one worker or was handled, as often as it was dequeued |
| `ThreadPool.CloseStep` | rpi_cam_app/include/spdlog/details/thread_pool-inl.h:45-49 | every step after the destructor started keeps: what left the queue since followed by what is queued is what was queued then followed by the terminates, and nothing was overwritten |
| `ThreadPool.QuietMeansExited` | rpi_cam_app/include/spdlog/details/thread_pool-inl.h:92-95 | when no worker and not the destructor is doing anything, all workers have exited |
| `ThreadPool.InitInv` | rpi_cam_app/include/spdlog/details/thread_pool-inl.h:16-33 | a new pool of 1 to 1000 threads satisfies the invariant |
| `FormatString.CompiledRefinesRuntime` | rpi_cam_app/include/spdlog/fmt/bundled/compile.h:249-425 | for every format string and arguments: the runtime formatter accepts it if and only if the compiler does and every closing brace that ends no field is doubled, and then both give the same text |
| `FormatString.FormatMeans` | rpi_cam_app/include/spdlog/fmt/bundled/base.h:1565-1630 | for every list of characters, doubled braces and fields, printed: both formatters give the texts in order, field {N} giving argument N and the k-th {} argument k, if every field has its argument and all are numbered in the same way; otherwise the runtime formatter rejects it and the compiler does not accept it |
| `FormatString.AcceptedExactlyWhen` | rpi_cam_app/include/spdlog/fmt/bundled/base.h:1565-1630 | the runtime formatter gives a text if and only if the format string is the print of such a list, properly numbered, and the text is what the list means |
| `FormatString.CompiledExactly` | rpi_cam_app/include/spdlog/fmt/bundled/compile.h:364-425 | the compiled form gives a text if and only if the runtime formatter gives it for the format string in which the character after each closing brace outside fields is made a closing brace |
| `FormatString.SingleField` | rpi_cam_app/include/spdlog/fmt/bundled/base.h:1318-1328 | "{N}" gives argument N on both sides |
| `FormatString.ArgIdIs` | rpi_cam_app/include/spdlog/fmt/bundled/base.h:1314-1341 | an argument number is read if and only if a number without superfluous zeros stands there, followed by a closing brace or a colon, and is that number or the largest int; a letter or an underscore begins a name; everything else is an error |
| `FormatString.CompilerDropsACharacter` | rpi_cam_app/include/spdlog/fmt/bundled/compile.h:413-416 | the compiler takes "}x" for "}", which the runtime formatter rejects |
| `FormatString.ShortCut` | rpi_cam_app/include/spdlog/fmt/bundled/format-inl.h:1452-1459 | the short cut for "{}" gives what the interpreter and the compiler give |
| `FormatString.CompileAgrees` | rpi_cam_app/include/spdlog/fmt/bundled/compile.h:364-425 | from every position, with the same argument numbering, the compiled rest and the interpreted rest agree |
| `FormatString.FormatHandler.ParseFormatString` | rpi_cam_app/include/spdlog/fmt/bundled/base.h:1612-1630 | the loop that sends text in chunks produces the text of the character-by-character meaning, and reports an error exactly where that has none |
| `FormatString.FormatHandler.ParseReplacementField` | rpi_cam_app/include/spdlog/fmt/bundled/base.h:1565-1610 | what stands at an opening brace: an escaped brace, an automatic or numbered argument, or an error, with the numbering mode that follows |
| `FormatString.FormatHandler.NextArgId` | rpi_cam_app/include/spdlog/fmt/bundled/base.h:896-906 | automatic numbering counts up and is refused after manual numbering |
| `FormatString.FormatHandler.CheckArgId` | rpi_cam_app/include/spdlog/fmt/bundled/base.h:908-917 | manual numbering is refused after automatic numbering |
| `FormatString.ParseText` | rpi_cam_app/include/spdlog/fmt/bundled/compile.h:249-255 | the text reaches to the next brace |
| `ParseInt.ParseNonnegativeInt` | rpi_cam_app/include/spdlog/fmt/bundled/base.h:1276-1299 | consumes the whole run of digits of any length and, although the value wraps at 32 bits, returns the true value exactly when the run has at most 10 digits and the value fits an int, else the error value |
| `ParseInt.VerdictIsParsed` | rpi_cam_app/include/spdlog/fmt/bundled/base.h:1289-1298 | the overflow test on wrapped values decides rightly for every run |
| `ParseInt.PrintedAt` | rpi_cam_app/include/spdlog/fmt/bundled/base.h:1276-1299 | a printed number that no digit follows is read to its end, and as itself exactly if it is an int |
| `ParseInt.DigitValues` | rpi_cam_app/include/spdlog/fmt/bundled/base.h:1284-1288 | the ten digits, what each is worth, and that there are no others |
| `RotatingSink.RotatingFileSink.RotateFiles` | rpi_cam_app/include/spdlog/sinks/rotating_file_sink-inl.h:108-137 | an exact shift, gaps included, for the files name, name.1.ext, name.2.ext and so on: file i holds what file i - 1 held and is missing where that was, except that the last file is kept then; file 0 is empty; no other file changes |
| `RotatingSink.RotatingFileSink.SinkIt` | rpi_cam_app/include/spdlog/sinks/rotating_file_sink-inl.h:78-96 | the files are rotated exactly when the estimate exceeds the limit and the live file is not empty; the message ends up at the end of the live file; still valid: initial contents + everything logged == what rotations discarded + the files from oldest to newest, the estimate is not below the real size, each file started by the sink is within the limit or holds one nonempty message |
| `RotatingSink.RotatingFileSink.Rotate` | rpi_cam_app/include/spdlog/sinks/rotating_file_sink-inl.h:108-137 | keeps that invariant; only what the last file held is discarded, and only if a file takes its place |
| `RotatingSink.RotatingFileSink.RotateNow` | rpi_cam_app/include/spdlog/sinks/rotating_file_sink-inl.h:72-77 | rotates with the estimate left as it was |
| `RotatingSink.RotatingFileSink.constructor` | rpi_cam_app/include/spdlog/sinks/rotating_file_sink-inl.h:26-50 | opens or creates the live file, rotates on request if it is not empty, and establishes the invariant |
| `RotatingSink.OpenSink` | rpi_cam_app/include/spdlog/sinks/rotating_file_sink-inl.h:37-44 | a zero size, too many files or an empty name are refused in this order, everything else gives a valid sink |
| `RotatingSink.ShiftKeepsHistory` | rpi_cam_app/include/spdlog/sinks/rotating_file_sink-inl.h:108-137 | for every disk: the files read from oldest to newest before a rotation are what is lost at the old end followed by the files after it |
| `RotatingSink.RenameShifts` | rpi_cam_app/include/spdlog/sinks/rotating_file_sink-inl.h:114-135 | one round of the countdown extends the shifted part by one file |
| `FileNames.CalcInjective` | rpi_cam_app/include/spdlog/sinks/rotating_file_sink-inl.h:54-64 | different indices give different file names |
| `FileNames.NameIsRotated` | rpi_cam_app/include/spdlog/sinks/rotating_file_sink-inl.h:52-64 | file 0 has the name itself; file i has a dot and the number i, without superfluous zeros, before the extension if there is one and else at the end |
| `FileNames.SplitIff` | rpi_cam_app/include/spdlog/details/file_helper-inl.h:132-150 | base and extension always join to the name, and there is an extension exactly when the last dot is neither first nor last nor next to or before a separator |
| `TrailingZeros.RemoveTrailingZeros32` | rpi_cam_app/include/spdlog/fmt/bundled/format-inl.h:1152-1171 | terminates with the number without its trailing zeros and the count added to an even start; for an odd start a last single zero is not counted |
| `TrailingZeros.RemoveTrailingZeros64` | rpi_cam_app/include/spdlog/fmt/bundled/format-inl.h:1173-1209 | the same for 64 bits, with the quotient of a multiple of 10^8 cut off at 32 bits |
| `TrailingZeros.RightExactlyWhen` | rpi_cam_app/include/spdlog/fmt/bundled/format-inl.h:1182-1189 | the 64-bit form returns the number without its zeros and their count if and only if 10^8 does not divide it or the quotient is below 2^32 |
| `TrailingZeros.TooLarge` | rpi_cam_app/include/spdlog/fmt/bundled/format-inl.h:1184-1187 | a number for which it does not |
| `TrailingZeros.QuotientTest` | rpi_cam_app/include/spdlog/fmt/bundled/format-inl.h:1155-1169 | multiplying by the inverse and rotating gives a number within the bound exactly for multiples of the divisor, and then the quotient; for any word size and divisor that suit |
| `TrailingZeros.MagicTest` | rpi_cam_app/include/spdlog/fmt/bundled/format-inl.h:1177-1184 | the test on the 128-bit product is true exactly when 10^8 divides the number, and the bits above it are the quotient |
| `TrailingZeros.RotateIsRotr` | rpi_cam_app/include/spdlog/fmt/bundled/format-inl.h:177-184 | the bitwise or of the two shifted parts, for any word size and distance, is the rotation on numbers that the tests are about |
| `TrailingZeros.ZerosUnique` | rpi_cam_app/include/spdlog/fmt/bundled/format-inl.h:1152-1171 | the number without its zeros and their count are the only m, k with n = m * 10^k and m not divisible by 10 |
| `DivideByPow10.DividesBy100` | rpi_cam_app/include/spdlog/fmt/bundled/format-inl.h:257-261 | multiplication and shift divide every 32-bit number by 100 |
| `DivideByPow10.DividesBy1000ExactlyWhen` | rpi_cam_app/include/spdlog/fmt/bundled/format-inl.h:262-266 | the 64-bit form divides by 1000 if and only if the last three digits are not 999 or the quotient is below 15534100272597517, and is one too large otherwise |
| `DivideByPow10.FirstWrong` | rpi_cam_app/include/spdlog/fmt/bundled/format-inl.h:262-266 | 15534100272597517999 is the first number for which it is wrong |
| `IsoWeek.WeekIsThursdays` | rpi_cam_app/include/spdlog/fmt/bundled/chrono.h:1189-1206 | for every year and consistent date: week year and week are those of the Thursday of the date's week, if and only if no long year before year 0 is misjudged |
| `IsoWeek.RightFromYearZero` | rpi_cam_app/include/spdlog/fmt/bundled/chrono.h:1189-1206 | they are for every date from year 0 on |
| `IsoWeek.WrongBeforeYearZero` | rpi_cam_app/include/spdlog/fmt/bundled/chrono.h:1178-1206 | a date in year -1 that gets the wrong week |
| `IsoWeek.WeeksAreThursdays` | rpi_cam_app/include/spdlog/fmt/bundled/chrono.h:1178-1188 | from year 0 on the number of weeks is the number of Thursdays of the year, 53 or 52; before, the program always says 52 |
| `IsoWeek.WeekFromThursday` | rpi_cam_app/include/spdlog/fmt/bundled/chrono.h:1189-1192 | the uncorrected week number counts the Thursdays of the year up to the one of the date's week |
| `PatternFormatter.RoundTrip` | rpi_cam_app/include/spdlog/pattern_formatter-inl.h:1303-1337 | compiling the printed form of any list of nonempty %-free literals (no two adjacent), built-in and custom flags with any padding that the letter cannot be taken for gives the same list back |
| `PatternFormatter.CompiledNarrow` | rpi_cam_app/include/spdlog/pattern_formatter-inl.h:1258-1301 | no pattern asks for more than 64 columns |
| `PatternFormatter.FlagLetters` | rpi_cam_app/include/spdlog/pattern_formatter-inl.h:1016-1230 | the table of the letters: which are flags, which need the time of day, and that h, x and X mean b, D and T |
| `PatternFormatter.FlagMeans` | rpi_cam_app/include/spdlog/pattern_formatter-inl.h:1008-1253 | what each letter becomes: custom flags first, then % and the built-in ones, an unknown one as it is, except after a truncation mark, which is then the function-name flag |
| `PatternFormatter.NeedsTimeExactly` | rpi_cam_app/include/spdlog/pattern_formatter-inl.h:1016-1230 | the time of day is needed if and only if one of these flags is there |
| `PatternFormatter.PadLaidOut` | rpi_cam_app/include/spdlog/pattern_formatter-inl.h:1258-1301 | a mark for the side, digits and a truncation mark are read as such, the width as a machine word and at most 64 |
| `PatternFormatter.NoPadding` | rpi_cam_app/include/spdlog/pattern_formatter-inl.h:1263-1284 | without a digit there is no padding, and a mark for the side is skipped |
| `PatternFormatter.PatternFormatter.CompilePattern` | rpi_cam_app/include/spdlog/pattern_formatter-inl.h:1303-1337 | the loop leaves the formatters that the pattern means, never reads past its end, and notes whether the time of day is needed |
| `PatternFormatter.PatternFormatter.SetPattern` | rpi_cam_app/include/spdlog/pattern_formatter-inl.h:993-997 | the formatters of the new pattern alone, and whether they need the time of day |
| `PatternFormatter.PatternFormatter.HandleFlag` | rpi_cam_app/include/spdlog/pattern_formatter-inl.h:1008-1253 | custom flags first, then the built-in ones, an unknown one as it is, except after a truncation mark, which is then the function-name flag |
| `PatternFormatter.HandlePadspec` | rpi_cam_app/include/spdlog/pattern_formatter-inl.h:1255-1301 | side, width and truncation mark; a side without a width is skipped; the width is at most 64 |
| `PatternFormatter.ParseWidth` | rpi_cam_app/include/spdlog/pattern_formatter-inl.h:1286-1290 | the digits as a machine word |
| `PatternFormatter.FormatField` | rpi_cam_app/include/spdlog/pattern_formatter-inl.h:42-87 | for any declared size: between construction and destruction the padder puts the spaces before, the text and the spaces after, or cuts, as Field says; it fails exactly when it would cut more than the buffer holds |
| `PatternFormatter.ScopedPadder.PadIt` | rpi_cam_app/include/spdlog/pattern_formatter-inl.h:77-86 | at most 64 spaces are asked for, and that many are appended |
| `PatternFormatter.FieldWidth` | rpi_cam_app/include/spdlog/pattern_formatter-inl.h:42-87 | if the declared size is within the width, or the padding truncates: what is appended has the width asked for plus the length of the text less the declared size, so exactly the width if and only if the declared size is right |
| `PatternFormatter.FieldIsFit` | rpi_cam_app/include/spdlog/pattern_formatter-inl.h:42-87 | when the declared size is the length of the text, the field is the text with spaces around it up to the width, or cut to it |
| `PatternFormatter.FitExactly` | rpi_cam_app/include/spdlog/pattern_formatter-inl.h:42-87 | a short text stands at the right for padding on the left, at the left for padding on the right, or in the middle, the odd space after it; a long one is cut at its end or left alone |
| `PatternFormatter.FieldExactly` | rpi_cam_app/include/spdlog/pattern_formatter-inl.h:42-87 | the same for any declared size: the spaces that it lacks to the width, or as many characters fewer at the end as it exceeds it by |
| `PatternFormatter.FitLength` | rpi_cam_app/include/spdlog/pattern_formatter-inl.h:42-87 | that field is as wide as the padding says if the text fits or is cut, else as long as the text |
| `PatternFormatter.DateTimeOneShort` | rpi_cam_app/include/spdlog/pattern_formatter-inl.h:218-243 | the date-and-time flag declares 24 columns: a text of 23 characters, as on days 1 to 9, comes out one column short of the width |
| `VideoHandler.ChosenIsBlock` | rpi_cam_app/src/video/VideoHandler.cpp:85-95 | the chosen files are one contiguous block of the sorted list, exactly those that overlap the window of the event |
| `VideoHandler.WindowCovered` | rpi_cam_app/src/video/VideoHandler.cpp:77-95 | recordings without gaps: every second of the window between the first and the last file is covered by a chosen file |
| `VideoHandler.OverlapsExactlyWhen` | rpi_cam_app/src/video/VideoHandler.cpp:77-92 | a segment is chosen for an event if and only if some second lies both from timestamp - duration to timestamp + duration and from the start of the segment to start + split - 1 |
| `VideoHandler.CoveredIffGapFree` | rpi_cam_app/src/video/VideoHandler.cpp:85-95 | all seconds from the first file to the end of the last are covered if and only if there is no gap |
| `VideoHandler.SafeExactlyWhen` | rpi_cam_app/src/video/VideoHandler.cpp:204-205 | no start time is both chosen for an event and deleted, being less than now - maintain, if and only if timestamp - duration - split + 1 >= now - maintain |
| `VideoHandler.RetentionKeepsEvent` | rpi_cam_app/src/video/VideoHandler.cpp:194-210 | in that case removal leaves the choice for the event as it was |
| `VideoHandler.KeptListing` | rpi_cam_app/src/video/VideoHandler.cpp:194-210 | what is kept of a sorted listing is a sorted listing of exactly the files that are not expired |
| `VideoHandler.VideoHandler.SetFilename` | rpi_cam_app/src/video/VideoHandler.cpp:41-59 | all videos of the directory, each once, sorted by start time; nothing, by an exception, only if the name of some video does not start with a number in range, and always then if there are two videos or more |
| `VideoHandler.VideoHandler.ProcessVideo` | rpi_cam_app/src/video/VideoHandler.cpp:61-101 | the video of the event is made from the listed files that share a second with the time from timestamp - duration to timestamp + duration, in order; without any, -1 and nothing changes; it throws if and only if the name of some video does not start with a number in range, changes nothing then but keeps the lock, and every later call blocks |
| `VideoHandler.VideoHandler.RemoveVideo` | rpi_cam_app/src/video/VideoHandler.cpp:184-214 | exactly the expired videos are deleted; it throws on the same names, deletes nothing then and keeps the lock |
| `VideoHandler.StampOfName` | rpi_cam_app/src/video/VideoHandler.cpp:54-56 | reading a number off the whole name, with spaces, sign and range as the library does, and off the part before the first dot give the same, failures included |
| `VideoHandler.StoiExactlyWhen` | rpi_cam_app/src/video/VideoHandler.cpp:54-56 | a name is read as n if and only if it is white space, a sign or none, digits worth n with that sign, and a rest that does not go on with a digit, and n is an int |
| `VideoHandler.VideoExactlyWhen` | rpi_cam_app/src/video/VideoHandler.cpp:41-53 | a video is a file whose name is something followed by ".mp4" |

## Left out

- Delivery.EveryEventGetsItsFrames: removal of an event while a `pop` of the same event is under way is outside its
  runs (`rpi_cam_app/src/event/EventHandler.cpp` can do that). The code then erases the map entries that `pop` looks
  up again after its wait, and what follows is undefined. Events are registered running there, so that `pop`
  does not meet a stopped one; the object in `VideoQueue.dfy` has that branch. Likewise its registrations ask for 1 to
  the device rate.
- Distributor.OnePlaceEach: the same runs.
- Service.FramesAreServed: the same runs.
- VideoQueueObject.VideoQueue.InsertEvent: a rate of 0, for which the program divides by zero, is excluded.
- VideoQueueObject.VideoQueue.DistributeBuffer: a registered step of 0, for which the program divides by zero, is
  excluded; `Decimation.StepUsable` says that these are the rates above that of the device.
- VideoQueueObject.VideoQueue.Shutdown: only the flag; the wake-up of the sleepers is `Distributor.ShutdownWakes`.
- Counters, queue sizes and indices do not wrap around, except where a machine word is written out (number reading, widths
  in patterns, trailing zeros, division).
- The fields of a `VideoBuffer` are set when it is made; a camera's use of its buffer before the push is not modelled.
- The queue of the thread system has a capacity of at least 1; the ring alone also has the disabled state.
- The pool assumes that nobody posts once its destructor runs, because posters hold a reference to the pool. Its
  constructor's check of the thread count is the bound in `ThreadPool.Init`; start and stop callbacks are left out.
- FormatString.CompiledRefinesRuntime: format specifications after a colon and named arguments have an outcome of their
  own, `Outside`, about which nothing is claimed; locales and wide characters are left out. An argument stands by the
  text it renders to.
- FormatString.FormatMeans: the same; there are at most as many arguments as an int counts.
- FormatString.AcceptedExactlyWhen: the same.
- FormatString.CompileAgrees: the same.
- FormatString.FormatHandler.ParseFormatString: the same.
- FormatString.FormatHandler.ParseReplacementField: the same.
- Failures of renaming, writing and opening (other than an empty name), file events, and other programs that change the
  log files.
- The sort is an insertion sort with the program's comparison in place of the library's, which reads every name as soon
  as there are two; sums of seconds do not overflow an int.
- The GStreamer pipeline that joins the chosen files, its failures, and `get_video`.
- Each flag's own text: a formatter produces any text, and `PatternFormatter.FormatField` pads it. A custom flag goes by
  its letter; caching of the broken-down time and time zones are left out.
- The rest of the floating-point algorithm around the trailing zeros, and the tables it uses.
- RTSP, HTTP, configuration, device access and the other sinks: input and output with little logic to prove.
