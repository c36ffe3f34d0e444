# cppev, verified

A Dafny model of the parts of cppev that have state, arithmetic or interleavings of their own, with
proofs about every input, every run and every interleaving.

`dafny verify dfyconfig.toml` checks the whole project.

## What is modelled

* **Reactor.** `Connection` gives what the handlers of `src/lib/tcp.cc` do to one connection, its callbacks
  in the event loop and its interest in epoll, as functions on values; `Reactor` gives the same handlers as
  methods that change a socket and an event loop in place, each tied to its function. A user callback is an
  arbitrary tree of "put bytes", `async_write` (with the kernel's answer, and the completion callback that runs
  inside it) and `safely_close`. `ConnectionSafety` says exactly when an event throws out of the event loop and
  what it otherwise leaves behind; `EventLoops` lifts that to whole runs of `loop_once` over any number of
  connections, with new ones arriving at any time.
* **Task queue.** `TaskQueues` has one step for each region in which a thread holds the lock, for each return from
  `cond_.wait`, with or without cause, and for each handler; the class `TaskQueue` has those regions as methods.
* **Timed scheduler.** `Scheduler` builds the cyclic table and walks it; the reference is a scheduler that ticks
  through every nanosecond. `Numeric` has gcd and lcm in wrapping 64-bit arithmetic.
* **Buffers and streams.** `ByteBuffer` is the buffer over an array, against a byte sequence with accounting for
  growth; `NStreams` the chunked reads and writes against a kernel that answers anything; `PipeTransfers` two
  streams at the ends of a bounded pipe, system call by system call.
* **Logger.** `AsyncLoggers` has the recursive lock, the condition variable, the two buffers and the backend.
* **Connector.** `Connectors` has the map of hosts and the pipe that announces it.
* **split and join.** `Strings`.

Where a method changes an object, its contract equates the new abstract state with a function of the old one, and
the properties are proved about that function; in the concurrent parts that function is the step of a machine, and the
properties hold over every sequence of its steps. Ghost fields are history.

## Where the code does less than it says

- `src/lib/tcp.cc:118` and `src/lib/tcp.cc:144` order the registrations so that `on_accept` and `on_connect` may call
  `async_write`. They may not, unless the kernel takes everything at once: the descriptor is not watched at that point,
  and `async_write` stops watching it first (`ConnectionSafety.AcceptThatWaitsThrows`). The same holds in
  `on_write_complete` when `on_writable` calls it.
- An `on_closed` that closes the connection throws (`ConnectionSafety.ClosingTwiceThrows`), and so does writing to a
  connection after closing it. `ConnectionSafety.Careful` is the exact condition for all of this, told from sizes
  alone and for all callbacks (`ConnectionSafety.HandleThrowsIff`); `EventLoops.RunSurvivesIff` lifts it to whole runs.
- `join` undoes `split` for every string, but `split` does not undo `join` even on pieces that do not contain the
  separator: the separator can form across the joint (`Strings.OverlapIsNotRestored`). `Strings.AllClean` is the exact
  condition.
- A task added after the last worker has left is never run (`TaskQueues.LateTaskIsStranded`); every other task is
  (`TaskQueues.StrandedIffLate`).
- A line logged just before shutdown can stay unwritten (`AsyncLoggers.ShutdownMayLoseALine`);
  `AsyncLoggers.ShutdownIsCompleteIff` has the exact condition, at the moment stop is set. Bytes that `write`
  does not accept are dropped (`AsyncLoggers.ShortWriteLosesText`), and only those (`AsyncLoggers.NothingLostIff`).
- The logger's destructor sets `stop_` without the lock, and may wait for ever: if the backend is just then about to
  sleep (`AsyncLoggers.StopMayBeMissed`), or if a line is open that is never ended and the backend has yet to swap
  (`AsyncLoggers.OpenLineBlocksJoin`). If nobody logs any more, it returns otherwise (`AsyncLoggers.JoinReturnsIff`).
- A reader at end of file has everything only if the writer closed with an empty buffer
  (`PipeTransfers.EofMeansCompleteIff`, `PipeTransfers.CloseMayLoseBytes`).
- Every byte that announces a host stays in the connector's read buffer for good (`Connectors.BytesAccumulate`).

## Model

| member | source | states |
|---|---|---|
| `ConnectionSafety.HandleThrowsIff` | src/lib/tcp.cc:66-148 | for every kernel and all callbacks, `on_closed` included, an event throws (ADD of an armed descriptor, DEL of an unarmed one, use of a closed one, an error of the kernel's) if and only if it is careless; otherwise the connection ends open, watched for one kind of event with both callbacks registered once, or gone, its read buffer empty and its bytes accounted for |
| `ConnectionSafety.OnReadableThrowsIff` | src/lib/tcp.cc:66-82 | the same for `on_readable`: careless is a failing `read`, a write to a connection that the callbacks have closed, or closing one that has ended |
| `ConnectionSafety.OnWritableThrowsIff` | src/lib/tcp.cc:84-107 | the same for `on_writable`: careless is moreover an `async_write` in the completion callback that leaves bytes |
| `ConnectionSafety.OnOpenThrowsIff` | src/lib/tcp.cc:109-148 | the same for `on_acpt_writable` and `on_cont_writable` |
| `ConnectionSafety.AcceptThatWaitsThrows` | src/lib/tcp.cc:117-121 | an `on_accept` that writes more bytes than the kernel takes at once throws, for all bytes and kernels |
| `ConnectionSafety.ClosingTwiceThrows` | src/lib/tcp.cc:77-81 | on a read that finds the end or a reset, closing the connection in any callback, `on_closed` included, throws |
| `ConnectionSafety.ExecKeeps` | src/lib/tcp.cc:34-56 | a callback on a connection that is watched, or closed, keeps its callbacks and leaves it closed and gone, watched for writable if some `async_write` left bytes, and else watched for what it was |
| `ConnectionSafety.ExecUnwatched` | src/lib/tcp.cc:34-48 | on an unwatched descriptor a callback throws if and only if its forecast fails or some `async_write` leaves bytes, and otherwise does what it does on a watched one |
| `ConnectionSafety.ExecContinues` | src/lib/tcp.cc:34-56 | no callback loses, repeats or reorders a byte, and no sticky flag is ever cleared |
| `ConnectionSafety.PutsHold` | src/lib/tcp.cc:34-48 | what a callback has put is, in order, what its own text says: the bytes of each put that it gets to, those of a completion callback if everything was accepted |
| `ConnectionSafety.CallbackConserves` | src/lib/tcp.cc:34-48 | bytes sent followed by bytes pending are those from before followed by those that the callback puts |
| `ConnectionSafety.ForecastHolds` | src/lib/tcp.cc:34-56 | whether a callback throws on a watched or closed connection, and what becomes of bytes pending, waiting, flags and closing, follows from the sizes put and taken alone |
| `ConnectionSafety.ExecFlushes` | src/lib/tcp.cc:34-48 | a callback in which every put is followed by an `async_write` leaves no byte without a watch for writable |
| `ConnectionSafety.ExecTight` | src/lib/tcp.cc:34-48 | if one `async_write` comes last, output is pending exactly when writable is watched for |
| `ConnectionSafety.SilentNeverWaits` | src/lib/tcp.cc:93-96 | a completion callback that writes nothing never throws and never makes the connection wait, watched or not, closed or not |
| `ConnectionSafety.CompleteWriteCases` | src/lib/tcp.cc:93-101 | reporting a completed write throws if and only if the callback fails or would have waited, else it is as if the descriptor had been watched for input throughout |
| `ConnectionSafety.EstablishCases` | src/lib/tcp.cc:117-121 | establishing a connection throws if and only if the callback fails, would have waited or has closed it, else both callbacks are registered once |
| `ConnectionSafety.FinishSettles` | src/lib/tcp.cc:77-81 | ending a connection throws if and only if `on_closed` fails or the connection is closed by then, else nothing of it is left in the event loop |
| `ConnectionSafety.HandleMoves` | src/lib/tcp.cc:66-148 | an event adds to what was put exactly what its callbacks' texts say, and to what was received exactly what was read |
| `ConnectionSafety.OnReadableMoves` | src/lib/tcp.cc:66-82 | that for `on_readable`; afterwards the connection is gone if and only if it was closed, or at end of file, or reset, and otherwise watched for writable if and only if some `async_write` left bytes |
| `ConnectionSafety.OnWritableMoves` | src/lib/tcp.cc:84-107 | that for `on_writable`; afterwards the connection is gone if and only if it was closed, or cannot be written to, and otherwise watched for readable if and only if everything had been written |
| `ConnectionSafety.OnOpenMoves` | src/lib/tcp.cc:109-148 | that for the first events; afterwards the connection is gone if and only if the connect failed, and otherwise watched for readable |
| `ConnectionSafety.WatchedOnce` | src/lib/event_loop_epoll.cc:96-137 | on an open descriptor exactly one of ADD and DEL succeeds; each undoes the other, and neither works twice |
| `ConnectionSafety.HandleStrandsNothing` | src/lib/tcp.cc:66-148 | if callbacks flush what they put, no event strands an unsent byte; if they do so last, output is pending if and only if writable is watched for |
| `ConnectionSafety.ReadStrandsNothing` | src/lib/tcp.cc:66-82 | that for `on_readable` |
| `ConnectionSafety.WriteStrandsNothing` | src/lib/tcp.cc:84-107 | that for `on_writable`, which leaves output pending only when it watches for writable |
| `ConnectionSafety.OpenStrandsNothing` | src/lib/tcp.cc:109-148 | that for a new connection |
| `EventLoops.CollectedIsReady` | src/lib/event_loop_epoll.cc:154-184 | a round collects at most one callback of each connection, and one that its interest allows |
| `EventLoops.ReportedIsQueued` | src/lib/event_loop_epoll.cc:154-184 | of every reported connection exactly one callback is queued, the one that is due, and none of any other |
| `EventLoops.RoundHandles` | src/lib/event_loop_epoll.cc:185-191 | a descriptor that one item of a round is about is left as that handler leaves it, or as a new connection |
| `EventLoops.RoundLeavesAlone` | src/lib/event_loop_epoll.cc:185-191 | a descriptor that no item is about is left as it was |
| `EventLoops.DispatchInOrder` | src/lib/event_loop_epoll.cc:186-191 | items take effect one after the other, each on what the others have left |
| `EventLoops.RoundFailsIff` | src/lib/event_loop_epoll.cc:185-191 | a round, in any order of dispatch and with connections arriving in between, brings the loop down if and only if some event is careless about the connection as it was when collected |
| `EventLoops.RoundStrandsNothing` | src/lib/event_loop_epoll.cc:185-191 | a round of flushing callbacks that the loop survives strands no byte of any connection |
| `EventLoops.RunSurvivesIff` | src/lib/event_loop_epoll.cc:145-191 | over every run with any callbacks the loop survives if and only if every event that it gets to is careful about the connection as it was when collected; every connection is then fresh, open or gone between rounds, with its bytes accounted for |
| `EventLoops.RunMovesHold` | src/lib/tcp.cc:34-107 | over every run that the loop survives, the bytes sent on a connection followed by those pending are those from before followed by all that its callbacks' texts put, and what callbacks have seen grows by exactly what was read |
| `EventLoops.RoundsInOrder` | src/lib/event_loop_epoll.cc:145-191 | rounds take effect one after the other |
| `EventLoops.RunStrandsNothing` | src/lib/event_loop_epoll.cc:145-191 | over every run of flushing callbacks that the loop survives, no unsent byte is ever stranded |
| `EventLoops.OthersUnaffected` | src/lib/event_loop_epoll.cc:186-190 | handling one connection changes nothing for the callbacks queued for others |
| `Reactor.EventLoop.FdRegister` | src/lib/event_loop_epoll.cc:90-105 | registers the handler, adds the descriptor to epoll, fails on an armed or closed one, and leaves all other descriptors alone |
| `Reactor.EventLoop.FdRemove` | src/lib/event_loop_epoll.cc:131-142 | takes the descriptor out of epoll, fails on an unarmed or closed one, drops its handlers if asked, and leaves all other descriptors alone |
| `Reactor.WriteAsync` | src/lib/tcp.cc:34-48 | `async_write` throws when and changes what its function says, and nothing of other descriptors |
| `Reactor.CloseSafely` | src/lib/tcp.cc:50-56 | `safely_close` likewise |
| `Reactor.RunCallback` | src/lib/tcp.cc:75 | any user callback likewise |
| `Reactor.HandleReadable` | src/lib/tcp.cc:66-82 | `on_readable` likewise |
| `Reactor.HandleWritable` | src/lib/tcp.cc:84-107 | `on_writable` likewise |
| `Reactor.ReportWritten` | src/lib/tcp.cc:95-100 | its branch for an emptied buffer likewise |
| `Reactor.EndConnection` | src/lib/tcp.cc:104-105 | the end of a connection likewise |
| `Reactor.EstablishConnection` | src/lib/tcp.cc:117-121 | the registrations around `on_accept` and `on_connect` likewise |
| `Reactor.HandleAccepted` | src/lib/tcp.cc:109-122 | `on_acpt_writable` likewise |
| `Reactor.HandleConnected` | src/lib/tcp.cc:124-148 | `on_cont_writable` likewise; exactly a failed connect is counted, for its host |
| `Reactor.WriteAllIsStreamWriteAll` | src/lib/nio.cc:154-167 | one `write_all` of a stream, whatever its step and the kernel's answers, is one step of the connection's write, and throws when that does |
| `Reactor.ReadAllIsStreamReadAll` | src/lib/nio.cc:139-152 | one `read_all` of a stream, likewise |
| `TaskQueues.FirstInFirstOutOnce` | src/include/cppev/thread_pool.h:148-176 | in every interleaving, the tasks taken followed by the queue are the tasks that the calls have added, in the order of the lock, no task is with two workers, and a task taken is with a worker if and only if it has not been run |
| `TaskQueues.AddedIsWhatCallsAdd` | src/include/cppev/thread_pool.h:105-127 | over every run the tasks added are those of the calls, in order |
| `TaskQueues.WhatIsHandedIsTaken` | src/include/cppev/thread_pool.h:155-172 | the task a worker is handed is the one that leaves the front of the queue and that the worker then holds; it is told to wait or leave if and only if it then sleeps or has left |
| `TaskQueues.CallsWake` | src/include/cppev/thread_pool.h:109-126 | a batch, a taken task and stop wake everybody, a single task one sleeper if there is any |
| `TaskQueues.NoLostWakeUp` | src/include/cppev/thread_pool.h:105-127 | while a worker sleeps, at least as many workers are about to look at the queue as it has tasks, and stop has not been called |
| `TaskQueues.QuietMeansDone` | src/include/cppev/thread_pool.h:148-176 | when no worker can move, every task has been run but those added after the last one left |
| `TaskQueues.RestIsReached` | src/include/cppev/thread_pool.h:148-176 | over every run, with stop or without, the workers take boundedly many steps for each task, stop and wake-up without cause |
| `TaskQueues.ShutdownCountsDown` | src/include/cppev/thread_pool.h:198-206 | after stop, every worker step uses up exactly one of the steps remaining and every added task adds three, over every run |
| `TaskQueues.ShutdownMovesOn` | src/include/cppev/thread_pool.h:198-206 | after stop, all workers have left if and only if none can move, and if and only if no step remains beyond those of late tasks |
| `TaskQueues.StrandedIffLate` | src/include/cppev/thread_pool.h:157-168 | when all workers have left, a task has been run if and only if it was not added after the last one left |
| `TaskQueues.LateTaskIsStranded` | src/include/cppev/thread_pool.h:105-110 | a run of a pool of one that ends with all workers gone and a task in the queue |
| `TaskQueues.NothingStranded` | src/include/cppev/thread_pool.h:198-206 | if after stop only running handlers add tasks, all workers leave an empty queue and every task run |
| `TaskQueues.HandlersAreNeverLate` | src/include/cppev/thread_pool.h:105-127 | tasks added by running handlers are never late |
| `TaskQueues.NextKeeps` | src/include/cppev/thread_pool.h:105-176 | every step keeps order, ownership, service of the queue and the rules of leaving |
| `TaskQueues.NextServed` | src/include/cppev/thread_pool.h:105-127 | single adds, batch adds, spurious wake-ups and steals keep enough workers awake |
| `TaskQueues.NextOwned` | src/include/cppev/thread_pool.h:170-174 | every step keeps each taken task with the one worker that took it until it has been run |
| `TaskQueues.TaskQueue.AddTask` | src/include/cppev/thread_pool.h:105-117 | appends the task and wakes one waiting worker, if there is one |
| `TaskQueues.TaskQueue.AddTasks` | src/include/cppev/thread_pool.h:119-127 | appends all tasks in order and wakes all waiting workers |
| `TaskQueues.TaskQueue.CheckQueue` | src/include/cppev/thread_pool.h:154-172 | the locked region entered from the top: the front of the queue, or wait, or leave after stop |
| `TaskQueues.TaskQueue.RecheckQueue` | src/include/cppev/thread_pool.h:161-172 | the locked region entered from the wait, likewise |
| `TaskQueues.TaskQueue.AnnounceTaken` | src/include/cppev/thread_pool.h:173-174 | wakes everybody after a task was taken |
| `TaskQueues.TaskQueue.FinishTask` | src/include/cppev/thread_pool.h:174-175 | the worker is free again, and its task has been run |
| `TaskQueues.TaskQueue.SetStop` | src/include/cppev/thread_pool.h:200-204 | sets the flag and wakes everybody |
| `TaskQueues.TaskQueue.constructor` | src/include/cppev/thread_pool.h:98-101 | nothing queued, nobody started, not stopped |
| `Scheduler.TimedScheduler.constructor` | src/include/cppev/scheduler.h:40-81 | for any positive intervals whose lcm fits, the table holds exactly the non-empty rows of one cycle, the cycle is the lcm, and handlers stand in non-increasing priority |
| `Scheduler.TimedScheduler.Walk` | src/include/cppev/scheduler.h:96-125 | however many batches it runs before stopping, its trace is that of the scheduler that ticks through every nanosecond |
| `Scheduler.TickingIsEveryDueTime` | src/include/cppev/scheduler.h:96-125 | the reference trace has one batch, in order, for every time that some interval divides, and no other |
| `Scheduler.TickingIsPrefix` | src/include/cppev/scheduler.h:96-98 | stopping earlier leaves a prefix |
| `Scheduler.FiredIsExact` | src/include/cppev/scheduler.h:113-116 | a batch triggers exactly the tasks whose interval divides its time, each once, by non-increasing priority |
| `Scheduler.DueIffRow` | src/include/cppev/scheduler.h:74-80 | a time has a row if and only if some interval divides it |
| `Scheduler.RowExact` | src/include/cppev/scheduler.h:74-80 | a row holds exactly the handlers due, ascending |
| `Scheduler.RowRepeats` | src/include/cppev/scheduler.h:96-107 | rows repeat with the cycle, for all time |
| `Scheduler.NothingBetweenSteps` | src/include/cppev/scheduler.h:74 | stepping by the gcd misses no due time |
| `Scheduler.TickingSkips` | src/include/cppev/scheduler.h:104-124 | skipping a span without due times skips no batch |
| `Scheduler.BuildTable` | src/include/cppev/scheduler.h:69-81 | the table is exact, whatever order the heap gives ties |
| `Scheduler.EnterTask` | src/include/cppev/scheduler.h:73-80 | entering one more task keeps the table exact |
| `Scheduler.Top` | src/include/cppev/scheduler.h:71 | some task of the largest priority |
| `Scheduler.KeyAbove` | src/include/cppev/scheduler.h:98-111 | the least stamp above a bound, or the end |
| `Scheduler.TimedScheduler.Fire` | src/include/cppev/scheduler.h:113-116 | runs the handlers of a row in its order |
| `Numeric.GcdPair` | src/lib/utils.cc:67-82 | Euclid's loop ends with a common divisor that every common divisor divides |
| `Numeric.GcdAll` | src/lib/utils.cc:84-93 | so does the fold over a list |
| `Numeric.LcmPair` | src/lib/utils.cc:50-54 | if some common multiple fits 64 bits, the result is the least common multiple |
| `Numeric.LcmAll` | src/lib/utils.cc:56-65 | so is the fold over a list, in wrapping arithmetic |
| `Numeric.LcmOfPair` | src/lib/utils.cc:53 | dividing by the gcd before multiplying gives a common multiple that divides every other |
| `Numeric.PrefixFits` | src/lib/utils.cc:60-63 | if the final lcm fits, no intermediate one overflows |
| `Numeric.DivisionMustComeFirst` | src/lib/utils.cc:53 | multiplying first would overflow on an input whose lcm fits |
| `Numeric.MultiplyingFirstIff` | src/lib/utils.cc:53 | multiplying first gives the same result if and only if the product itself fits 64 bits |
| `Numeric.TruncatingDivision` | src/lib/utils.cc:53-73 | quotient and remainder truncate towards zero |
| `Numeric.WrapIsCongruent` | src/lib/utils.cc:53 | wrapped values are in range and the same modulo 2^64 |
| `Numeric.Bezout` | src/lib/utils.cc:67-82 | some common divisor is a linear combination |
| `ByteBuffer.Fifo` | src/include/cppev/buffer.h:89-186 | over every run of calls, what was removed followed by the contents is what was there followed by what was added |
| `ByteBuffer.AmortisedGrowth` | src/include/cppev/buffer.h:89-110 | over every run, growing has copied at most the capacity it added, and a grown capacity is below twice the largest size ever asked for |
| `ByteBuffer.CopyingIsLinear` | src/include/cppev/buffer.h:89-110 | so copying is linear in the demand |
| `ByteBuffer.GrowthCopies` | src/include/cppev/buffer.h:103-109 | bytes are copied exactly when the capacity changes, and then all of the contents |
| `ByteBuffer.RoomIsReclaimed` | src/include/cppev/buffer.h:113-162 | after `tiny`, `clear` and consuming everything the buffer grows only as far as its contents and the new bytes need |
| `ByteBuffer.RemovesAsAsked` | src/include/cppev/buffer.h:130-162 | calls remove as many bytes as they say, and consuming a part leaves the rest in place |
| `ByteBuffer.Grown` | src/include/cppev/buffer.h:99-102 | doubling reaches the size asked for, and stops below twice that |
| `ByteBuffer.GrownIsDoubled` | src/include/cppev/buffer.h:99-102 | a capacity grows by doubling, the least number of times that suffices |
| `ByteBuffer.Buffer.ResizeTo` | src/include/cppev/buffer.h:89-110 | keeps the contents and their place, and a zero tail |
| `ByteBuffer.Buffer.MoveToFront` | src/include/cppev/buffer.h:113-127 | the overlapping move in place keeps the contents, and zeroes the rest |
| `ByteBuffer.Buffer.Reset` | src/include/cppev/buffer.h:130-135 | empties the buffer, all bytes zero |
| `ByteBuffer.Buffer.PutString` | src/include/cppev/buffer.h:140-169 | appends exactly the given bytes |
| `ByteBuffer.Buffer.Store` | src/include/cppev/buffer.h:143-146 | the copying loop appends the bytes where there is room |
| `ByteBuffer.Buffer.Drop` | src/include/cppev/buffer.h:151-162 | removes exactly the prefix, and clears what is empty then |
| `ByteBuffer.Buffer.GetString` | src/include/cppev/buffer.h:174-186 | returns the prefix, or the contents and then zeros, and removes it if asked |
| `ByteBuffer.Buffer.CopyFrom` | src/include/cppev/buffer.h:202-212 | a copy has the same contents in storage of its own; a buffer copied to itself is unchanged |
| `ByteBuffer.Buffer.constructor` | src/include/cppev/buffer.h:27-39 | empty, with the capacity asked for |
| `NStreams.NStream.ReadChunk` | src/lib/nio.cc:57-93 | for every kernel, the bytes read are appended in order and the count is theirs; if fewer than asked for, end of file or ECONNRESET, and no other answer, sets its flag, and another error throws |
| `NStreams.NStream.WriteChunk` | src/lib/nio.cc:95-137 | for every kernel, the bytes sent are the prefix that leaves the buffer and the count is theirs; if fewer than there were to send, EPIPE or ECONNRESET, and no other answer, sets its flag, and another error throws |
| `NStreams.NStream.ReadAll` | src/lib/nio.cc:139-152 | for every step and kernel, the total is the bytes appended, and the flags are those of the first answer that ends it |
| `NStreams.NStream.WriteAll` | src/lib/nio.cc:154-167 | for every step and kernel, what was sent followed by what is left is what was there, and if anything is left the flags are those of the first error |
| `NStreams.ReadAllStop` | src/lib/nio.cc:139-152 | `read_all` ends only on would-block, end of file or reset (or throws), at the first such answer |
| `NStreams.WriteAllStop` | src/lib/nio.cc:154-167 | `write_all` ends with everything sent if and only if it was not stopped, and otherwise for the kernel's first such answer |
| `NStreams.WriteStopMeans` | src/lib/nio.cc:103-127 | a write ends as blocked, broken pipe, reset or thrown if and only if the first error that is not EINTR is EAGAIN, EPIPE, ECONNRESET or another |
| `NStreams.ReadStopMeans` | src/lib/nio.cc:64-88 | likewise for a read, with the end of the file |
| `NStreams.ReadChunkStop` | src/lib/nio.cc:61-91 | a chunk that is not full ended at the first answer that is neither data nor EINTR |
| `NStreams.WriteChunkStop` | src/lib/nio.cc:99-130 | likewise for writing |
| `NStreams.ReadLoop` | src/lib/nio.cc:61-91 | the reading loop over the array moves what its function says |
| `NStreams.WriteLoop` | src/lib/nio.cc:99-130 | the writing loop over the array moves what its function says |
| `NStreams.Receive` | src/lib/nio.cc:63-90 | one read appends exactly the bytes that came |
| `NStreams.WriteOnce` | src/lib/nio.cc:101-129 | one write takes exactly the bytes accepted off the front |
| `NStreams.WriteTurnOnce` | src/lib/nio.cc:101-129 | a turn of the writing loop keeps what has been sent and what is to come together |
| `NStreams.ReadAllInto` | src/lib/nio.cc:139-152 | chunk after chunk, the bytes of all are appended in order |
| `NStreams.WriteAllFrom` | src/lib/nio.cc:154-167 | chunk after chunk, the bytes sent are a prefix of what was there |
| `PipeTransfers.EveryByteArrivesInOrder` | src/lib/nio.cc:57-167 | in every interleaving of the two ends, what was taken, read, in the pipe and unsent is what the writer has put, in order |
| `PipeTransfers.HistoryIsOfTheRun` | src/lib/nio.cc:57-167 | over every run what counts as put is what the writer has put, in order, and as much is taken as the reader asks for |
| `PipeTransfers.EofMeansCompleteIff` | src/lib/nio.cc:64-68 | at end of file the reader gets to have everything if and only if nothing was left to write when the writer closed |
| `PipeTransfers.CloseMayLoseBytes` | src/lib/nio.cc:64-68 | a run in which the reader sees the end of the file and never the bytes |
| `PipeTransfers.TransfersCountDown` | src/lib/nio.cc:57-167 | every transferred byte brings completion nearer, over every run |
| `PipeTransfers.NeverStuck` | src/lib/nio.cc:57-167 | from every reachable state of an open pipe, writes and reads alone can bring every byte put to the reader, and those that do move as many bytes as the distance is |
| `PipeTransfers.WriteAllMoves` | src/lib/nio.cc:154-167 | whatever the reader does between the system calls of a `write_all`, the bytes it reports have left its buffer from the front and entered the pipe in order |
| `PipeTransfers.WritesEnter` | src/lib/nio.cc:95-137 | in any run whose writer only writes, the bytes accepted go from its buffer into the pipe |
| `PipeTransfers.AllAccepts` | src/lib/nio.cc:95-167 | the system calls of a `write_all` are accepted for as many bytes as it reports |
| `PipeTransfers.ReadAllArrives` | src/lib/nio.cc:139-152 | whatever the writer does between the system calls of a `read_all`, the bytes it reports are appended to its buffer and are the next of those put |
| `PipeTransfers.ReadsArrive` | src/lib/nio.cc:57-93 | in any run whose reader only reads, the bytes read are appended to its buffer |
| `PipeTransfers.AllBrings` | src/lib/nio.cc:57-152 | the system calls of a `read_all` bring the bytes it reports, and end of file if it says so |
| `AsyncLoggers.NothingLostIff` | src/lib/async_logger.cc:89-141 | in every interleaving, output, buffer being written and current buffer are the completed lines and the open one, if and only if every `write` so far has accepted all it was given |
| `AsyncLoggers.ShortWriteLosesText` | src/lib/async_logger.cc:137-138 | a short write of a line, for any number of bytes accepted, after which the rest is nowhere |
| `AsyncLoggers.LinesAreAtomic` | src/lib/async_logger.cc:89-111 | each thread's lines in the log are exactly those its own calls spell out: one header, its pieces, a newline, nothing in between |
| `AsyncLoggers.LogIsSpelledOut` | src/lib/async_logger.cc:89-102 | a thread's own log is, as text, what its calls spell out: a header at each beginning of a line, the pieces, a newline at each end |
| `AsyncLoggers.FlushesEndOnLines` | src/lib/async_logger.cc:129-139 | whatever has been or is about to be written is a number of completed lines, and ends in the newline of the last |
| `AsyncLoggers.WritersNeverTouchFlushed` | src/lib/async_logger.cc:129-139 | nobody appends to the buffer that is being written |
| `AsyncLoggers.LockAccounting` | src/lib/async_logger.cc:89-111 | the depth of the lock is `recur_level_`, the end of a line releases it entirely, and buffers are swapped only between lines |
| `AsyncLoggers.LeftBehind` | src/lib/async_logger.cc:113-141 | at exit exactly the lines completed before the last swap have been passed on, the others are in the buffer, and all have been passed on if and only if none was completed since |
| `AsyncLoggers.ShutdownIsCompleteIff` | src/lib/async_logger.cc:31-40 | if nobody logs after stop is set, all lines get passed on if and only if the backend was then past the test of its loop and had yet to swap, or no line had been completed since its last swap |
| `AsyncLoggers.NothingNewIff` | src/lib/async_logger.cc:120 | between lines, none has been completed since the last swap if and only if the current buffer is empty |
| `AsyncLoggers.ShutdownMayLoseALine` | src/lib/async_logger.cc:37 | a run that ends with a completed line unwritten |
| `AsyncLoggers.NoLineIsSleptThrough` | src/lib/async_logger.cc:109-127 | between lines, a sleeping backend with text to write is about to be notified |
| `AsyncLoggers.RestMeansWritten` | src/lib/async_logger.cc:109-137 | until it is stopped, the logger comes to rest only when every completed line has been passed on |
| `AsyncLoggers.RestIsReached` | src/lib/async_logger.cc:113-141 | over every run the backend takes boundedly many steps for each call, stop and wake-up without cause |
| `AsyncLoggers.StopWakes` | src/lib/async_logger.cc:37-39 | if, when stop is set, the backend is not between its look at the flag and its sleep, and either no line is open or it need not lock before it leaves, then without further logging it takes boundedly many steps and can do nothing only outside its loop |
| `AsyncLoggers.StopMayBeMissed` | src/lib/async_logger.cc:37-38 | if stop is set between the look and the sleep, in any such state, the notification can be lost and the backend asleep for good |
| `AsyncLoggers.OpenLineLocksOut` | src/lib/async_logger.cc:89-98 | if a line is open when stop is set, is never ended, and the backend has yet to swap, it never leaves |
| `AsyncLoggers.JoinReturnsIff` | src/lib/async_logger.cc:31-40 | the backend leaves in every run after stop without further logging if and only if, when stop is set, it hears of it and is not locked out |
| `AsyncLoggers.OpenLineBlocksJoin` | src/lib/async_logger.cc:31-40 | a line opened and not ended before the destructor, for any text: the backend is notified and can do nothing |
| `AsyncLoggers.CheckedIsReachable` | src/lib/async_logger.cc:115-127 | such a state is reached by a backend that starts with nothing to write |
| `AsyncLoggers.NextKeeps` | src/lib/async_logger.cc:89-141 | every step keeps the accounts of lock, buffers and output |
| `AsyncLoggers.AsyncLogger.LogText` | src/lib/async_logger.cc:89-98 | takes the lock once more, writes a header only at the beginning of a line, appends the text |
| `AsyncLoggers.AsyncLogger.EndOfLine` | src/lib/async_logger.cc:100-111 | completes the line and gives up the lock entirely |
| `AsyncLoggers.AsyncLogger.NotifyOne` | src/lib/async_logger.cc:109 | wakes the backend if it is asleep, and is lost otherwise |
| `AsyncLoggers.AsyncLogger.EnterLocked` | src/lib/async_logger.cc:118-131 | waits only for an empty buffer, else swaps |
| `AsyncLoggers.AsyncLogger.RecheckLocked` | src/lib/async_logger.cc:122-131 | swaps after the wait if there is text, or stop |
| `AsyncLoggers.AsyncLogger.FlushBuffer` | src/lib/async_logger.cc:133-137 | writes the swapped buffer, unless it is empty |
| `AsyncLoggers.AsyncLogger.ClearBuffer` | src/lib/async_logger.cc:138 | empties the buffer written, and no other |
| `AsyncLoggers.AsyncLogger.TestStop` | src/lib/async_logger.cc:115 | the backend leaves if and only if stop is set |
| `AsyncLoggers.AsyncLogger.SetStop` | src/lib/async_logger.cc:37 | sets the flag, without the lock |
| `Connectors.RequestsAreNeverLost` | src/lib/tcp.cc:208-290 | in every interleaving, per host, requested is pending, taken, assigned and failed together |
| `Connectors.CountsAreOfTheRun` | src/lib/tcp.cc:216-286 | over every run, per host, what is counted as requested, made and failed is what the calls asked for and how the connects went |
| `Connectors.NoWakeUpIsLost` | src/lib/tcp.cc:208-252 | pending hosts with no `add` in progress and an idle reader have an unread byte in the pipe |
| `Connectors.RestMeansDone` | src/lib/tcp.cc:208-290 | when neither thread can move, every request has become a connection or a failure |
| `Connectors.RestIsReached` | src/lib/tcp.cc:208-290 | over every run both threads take boundedly many steps for each request, at most t + 11 for one of t connections |
| `Connectors.NextAnnounced` | src/lib/tcp.cc:216-252 | every step keeps pending hosts announced |
| `Connectors.BytesAccumulate` | src/lib/tcp.cc:228-252 | over every run each byte that announced a host is on its way or still held: nothing clears the read buffer |
| `Connectors.Connector.Add` | src/lib/tcp.cc:208-230 | adds to the host's count and announces it, and does nothing for 0 |
| `Connectors.Connector.OnPipeReadable` | src/lib/tcp.cc:237-290 | takes every pending host, and per host counts exactly as many connections and failures as were asked for |
| `Connectors.Connector.ConnectHost` | src/lib/tcp.cc:256-287 | tries one host as often as asked, and changes no other's counts |
| `Connectors.SuccessesCount` | src/lib/tcp.cc:268-286 | the connections counted are the connects whose outcome is success |
| `Connectors.Connector.TakeHosts` | src/lib/tcp.cc:249-252 | swaps the map out under the lock |
| `Connectors.Connector.ConnectTaken` | src/lib/tcp.cc:254-289 | tries every host taken, in any order, as often as asked |
| `Connectors.Connector.ConnectOnce` | src/lib/tcp.cc:258-286 | counts one connect as a connection or as a failure of its host |
| `Connectors.Connector.AddToMap` | src/lib/tcp.cc:216-226 | the host's count grows by what is asked for |
| `Connectors.Connector.WriteByte` | src/lib/tcp.cc:228-229 | a byte goes into the pipe, or the buffer is empty, or the pipe is not |
| `Connectors.Connector.Drain` | src/lib/tcp.cc:245 | moves every byte of the pipe into the read buffer |
| `Connectors.SharesMakeTheWhole` | src/lib/tcp.cc:379-385 | the connectors' shares add up to what was asked for |
| `Connectors.SharesAreEven` | src/lib/tcp.cc:379-385 | the shares are the same, but that the first connector is asked for the remainder as well |
| `Connectors.ClientAdd` | src/lib/tcp.cc:371-387 | each connector's requested and pending counts of the host grow by its share, and no other host's change |
| `Strings.JoinOfSplit` | src/lib/utils.cc:327-382 | joining what was split gives the string back, and no piece contains the separator |
| `Strings.SplitOfJoinIff` | src/lib/utils.cc:384-403 | splitting what was joined gives the pieces back if and only if none, followed by the separator, forms it earlier and the last does not contain it |
| `Strings.SplitIsUnique` | src/lib/utils.cc:327-382 | splitting is the only way to cut a string into such pieces |
| `Strings.OverlapIsNotRestored` | src/lib/utils.cc:343-363 | pieces without the separator that do not survive join and split |
| `Strings.JoinPlaces` | src/lib/utils.cc:394-401 | every piece is in its place in what was joined, with a separator after each but the last, and nothing else is |
| `Strings.Split` | src/lib/utils.cc:327-382 | throws if and only if the separator is empty, else splits |
| `Strings.IndexTable` | src/lib/utils.cc:339-365 | the table holds exactly the separators that the scan finds |
| `Strings.Cut` | src/lib/utils.cc:372-381 | cutting at the table gives the pieces of the scan |
| `Strings.Matches` | src/lib/utils.cc:345-353 | the comparison finds exactly an occurrence |
| `Strings.Join` | src/lib/utils.cc:384-403 | joins, and ends the program on an empty list with a separator |

## Left out

- Numeric.LcmAll: nothing is said when no common multiple fits 64 bits, because signed overflow is undefined behaviour in the original.
- Numeric.GcdPair: not the sign of the result for negative numbers, which is that of the last remainder; the scheduler has none.
- NStreams.NStream.ReadAll: requires that no chunk makes the read buffer outgrow `int`, which the original leaves undefined; so do the calls that grow a `ByteBuffer.Buffer`.
- Numeric.DivisionMustComeFirst: one input; `Numeric.MultiplyingFirstIff` has the condition for all.
- Connectors.Connector.Add: as a method it runs without interruption; its interleavings with the connector's thread are those of the machine.
- System calls, sockets and their addresses, UDP, shared memory, semaphores, processes, signals, the dynamic loader: only the kernel answers named above are modelled.
- `src/lib/event_loop_kqueue.cc`: only the epoll version is modelled.
- A descriptor number is not reused while a handler of the connection that had it still runs, so that using it fails; and no callback acts on a connection other than its own.
- Callbacks that take part of the read buffer: `Connection` clears it afterwards, as `on_readable` does.
- The priority order in which `loop_once` dispatches: the results hold for every order.
- Load balancing (`minloads_get_evlp`), the listening socket, `tcp_server` and the rest of `tcp_client`.
- A handler that throws in the task queue, and cancelling threads: both end the process or the thread outside the protocol.
- Frequencies as floating-point numbers, init and exit tasks, alignment and real time in the scheduler: intervals are positive integers, and clocks count nanoseconds.
- Moves of buffers and streams, direct indexing into a buffer.
- Streams set their flags where the loop stops; the model sets them right after the loop.
- A kernel that answers EINTR for ever, or 0 to a `write` of more than 0 bytes: the loops would not end.
- The text of the logger's header (time and thread), levels, and the `endl` object as a logger.
- The connector's requests are natural numbers, below the width of `int`; one thread adds to a connector at a time, as its unlocked write buffer demands.
- Strings are shorter than `int` can index; `strip` and its variants are not modelled.
- `src/lib/lock.cc`.
