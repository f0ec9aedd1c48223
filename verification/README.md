# libezio: a verified model of its protocols

libezio is an event library on epoll and io_uring with C++20 coroutines on top. Its correctness rests on
a handful of small protocols between the program, its callbacks and the kernel. This project models those
protocols in Dafny and proves what they promise over every run. System calls are nondeterministic steps
that satisfy only the contract the code relies on; callbacks and resumed coroutines may call back into
the library wherever the code lets them.

Nothing here executes the library. `dafny verify dfyconfig.toml` checks the whole project.

## How it is organised

| file | what it covers |
|---|---|
| `EventActions.dfy`, `EventActionObject.dfy` | one descriptor's task queues, cached readiness bits and `handle_events` |
| `Reactor.dfy` | the epoll back end and an edge-triggered kernel as a state machine, and its invariant |
| `ReactorRuns.dfy` | theorems over whole runs of that machine: wakeups and the change list |
| `ReactorTasks.dfy` | the tasks over whole runs: submitted, accepted, conserved, deferred, answered; the passes of the machine and `handle_events` |
| `ReactorService.dfy` | what being awake is worth: the next dispatch attempts the tasks |
| `ReactorLosses.dfy` | what the back end loses, on runs: a wakeup after a cancellation, the end of the stream |
| `Epoll.dfy` | the `epoll` object; each method is a stretch of a run of the machine |
| `Common.dfy`, `Bits.dfy` | optional values, lists without repetition; powers of two, masks, wrapping counters |
| `SubmissionRing.dfy`, `CompletionRing.dfy`, `BufferRing.dfy` | the three io_uring rings |
| `SpscRing.dfy` | the lock-free single-writer single-reader ring buffer |
| `CoroutineReads.dfy` | reads and cancellations of the coroutine layer |
| `FramePools.dfy` | the coroutine frame pool and the frame allocator |
| `SpawnSweep.dfy` | spawned tasks and their lazy sweeping |
| `Scatter.dfy` | `move_iov`, the read loops, chunked delivery |
| `JobQueues.dfy` | the event loop's job queues |
| `Listener.dfy` | the TCP listener's connection cap |

Most modules have the same three layers: functions that say what each operation does to a value, an
invariant or refinement with the theorem over all runs, and a class whose methods have the source's
control flow and are proved to compute those functions. Methods such as `Interfere`, `Resume`, `UserCode`,
`Call`, `EpollWait` and `Receive` stand for the kernel or for user code: their callers know their
contracts only.

## Where the code falls short of the obvious property

In each case the code is modelled as it is, and the exact condition is proved.

- A cancellation leaves the EV_READ or EV_WRITE bit of the `event_info` up. A later change of the same
  descriptor then drops the kernel's interest while the next submission believes it registered: the task
  is never attempted, whatever follows, unless the descriptor is cancelled again. `ApplyKeepsWiredIff` gives
  the exact guard, `UnsoundChangeLosesWakeup` and `DeadForGood` the loss, `CancelLosesLaterRead` an ordinary
  run that suffers it.
- Closing a registered descriptor and opening the same number again loses the next read's wakeup in the
  same way: `CloseKeepsWiredIff` gives the exact guard, `CloseLosesLaterRead` a run.
- Cancelling the last interest of a descriptor removes it from the kernel only when reads are cancelled
  (`CancelRemovesIff`); `WriteCancelKeepsInterest` is a run.
- A read that finds the kernel empty is completed with 0, which otherwise means the end of the stream, if
  and only if an event triggered the pass (`SpuriousEndIff`); `SpuriousEndReached` is a run with two reads
  and data for one.
- A cancellation without a callback reports a failure after it has done its work
  (`EpollBackend.Cancellation`).
- `get_io_uring_sqe` retries on a full ring only when the submission reported zero entries, so the retry
  never helps (`SubmissionQueue.GetIoUringSqe`).
- `cq_consume` compares wrapped counters: if and only if the tail passes a multiple of 2^32 behind the
  handled completions, unhandled ones are given back (`ConsumeExact`); `WrapLosesCompletion` is a run.
- A provided-buffer group of one block looks for data behind all earlier data and finally loses its block
  (`OffsetZeroIffTwoBlocks`, `SoloRecycle`); `SoloLosesBlock` is a run.
- `ring_buffer::init` indexes within its blocks exactly for power-of-two counts (`Init`), and the reader's
  count is computed but not stored (`ReaderCountStaysZero`, `ReaderCountWrong`). A count that a peek stored
  can hide published blocks from a reader that needs them (`ReaderNeedMetIff`); `PeekHidesBlock` is a run.
- Descriptor 0 can be read but not cancelled: its awaiter is completed twice (`CancelClearsIff`,
  `DescriptorZeroCompletesTwice`).
- A call of `cancel_read` completes its own awaiter twice if and only if a read was pending on a descriptor
  other than 0 (`CancelCompletedTwiceIff`); `CancelCompletesTwice` is a run.
- A block freed twice makes the pool's free list cyclic (`FreeKeepsIff`).
- The TCP read loop describes its list to the kernel once: it is right for every split of the stream
  exactly when at most one entry is not empty (`TcpScatterIff`). Its result differs from the number of
  bytes received exactly when the end of the stream follows data (`ReadTcp`).
- Registered buffer groups stay in the free list or in use exactly as long as no accepted connection turns
  out not to be connected (`FailedOpenLosesBuffer`); `FirstAcceptLosesBuffer` is a run.

## Model

| member | source | states |
|---|---|---|
| EventActions.DrainExact | source/event/event_action.cpp:217-252 | one drain against an independent description, for all kernel answers and all callback submissions: what stays queued, what completes with which result in which order, when the readiness bit survives, and what the other queue gains |
| EventActions.PassPermutes | source/event/event_action.cpp:217-252 | a whole `handle_events` pass, for all kernel answers and callbacks: in each direction the tasks it completed and the remaining ones are a permutation of the queued ones and those its callbacks submitted, and those are exactly what was newly accepted |
| EventActions.PassConserves | source/event/event_action.cpp:217-252 | the pass keeps the ledger: accepted tasks are exactly pending, deferred, completed and cancelled ones |
| EventActions.NoneTwice | source/event/event_action.cpp:217-252 | distinct accepted tasks: no two completions are of the same task, and no completed task is queued, deferred or cancelled |
| EventActions.FifoPass | source/event/event_action.cpp:240-251 | when callbacks append nothing and the kernel has nothing to give or take from attempt k on, a write pass, or a read pass that no event triggered, completes the first k tasks and later only those without buffers; the rest keep their order |
| EventActions.CompletedIff | source/event/event_action.cpp:387-391 | a pass completes a task queued once with exactly what the kernel answered: the bytes moved, also when it ran out afterwards, or the code it ended with; not completed, and still queued, exactly when the kernel had nothing to give or take, unless it is a read and an event triggered the pass |
| EventActions.BlockedWriteStays | source/event/event_action.cpp:421-423 | a write that meets a full descriptor stays queued and is not completed with any result, whatever triggered the pass |
| EventActions.BitSurvivesIff | source/event/event_action.cpp:240-251 | the readiness bit survives a drain if and only if it was up and no attempt found the kernel run out, for a read after any number of bytes, for a write before the first one |
| EventActions.ReadyLaneHoldsOnlyNewTasks | source/event/event_action.cpp:217-252 | if the readiness bit survives the pass, every task of its start has finished and only tasks that callbacks submitted are queued |
| EventActions.TriggeredReadsAllFinish | source/event/event_action.cpp:384-392 | an event-triggered pass finishes every queued read with the kernel's answer, in queue order |
| EventActions.SpuriousEndIff | source/event/event_action.cpp:387-391 | a read that finds the kernel empty is completed with 0 if and only if an event triggered the pass; otherwise it stays queued |
| EventActions.AttemptConserves | source/event/event_action.cpp:344-424 | one attempt keeps the task ledger |
| EventActions.AddTaskConserves | include/event/event_action.h:129-148 | queueing a task, submitted or deferred, keeps the ledger |
| EventActions.SubmitConserves | source/event/event_action.cpp:87-110 | moving deferred to pending keeps the ledger |
| EventActions.DisableConserves | source/event/event_action.cpp:112-128 | a cancellation accounts for every task it drops |
| EventActionObject.EventAction.SetReadCallback | include/event/event_action.h:108-111 | only the read interest changes |
| EventActionObject.EventAction.SetWriteCallback | include/event/event_action.h:112-115 | only the write interest changes |
| EventActionObject.EventAction.AddReadTask | include/event/event_action.h:129-132 | the task is the last pending read |
| EventActionObject.EventAction.AddNonSubmitReadTask | include/event/event_action.h:133-136 | the task is the last deferred read |
| EventActionObject.EventAction.AddWriteTask | include/event/event_action.h:141-144 | the task is the last pending write |
| EventActionObject.EventAction.AddNonSubmitWriteTask | include/event/event_action.h:145-148 | the task is the last deferred write |
| EventActionObject.EventAction.Submit | source/event/event_action.cpp:87-110 | the two pop-and-push loops append the deferred queues to the pending ones and empty them |
| EventActionObject.EventAction.DisableRead | source/event/event_action.cpp:112-120 | both read queues are emptied, the interest is gone, the readiness bit stays |
| EventActionObject.EventAction.DisableWrite | source/event/event_action.cpp:122-128 | the same for writes |
| EventActionObject.EventAction.DoReadTask | source/event/event_action.cpp:344-394 | the front read is refused exactly when it has buffers, the kernel had nothing and no event triggered the pass; otherwise it is completed with the bytes or the code, and the callback submits; the bit falls exactly when the descriptor ran empty |
| EventActionObject.EventAction.DoWriteTask | source/event/event_action.cpp:396-424 | the front write is refused exactly when it has buffers and the kernel took nothing; otherwise it is completed with the bytes or the code |
| EventActionObject.EventAction.HandleEvents | source/event/event_action.cpp:217-252 | the two counted loops over live queues compute the pass that the lemmas above describe |
| EventActionObject.EventAction.SetReadyEvents | source/event/event_action.cpp:130-140 | raises bits, then runs the triggered pass |
| Reactor.StepKeeps | source/event/epoll.cpp:139-456 | every enabled step of caller, kernel and dispatch keeps the invariant: flag equals list membership without duplicates, nothing listed has left the table, a set bit strands no task, a watched ready direction has an edge, a bit or a report |
| Reactor.SubmitKeeps | source/event/epoll.cpp:262-314 | a submission keeps the invariant |
| Reactor.FlushAllLanes | source/event/epoll.cpp:248-260 | walking the deferred set in any order submits exactly the deferred tasks of its members |
| Reactor.FlushKeeps | source/event/epoll.cpp:248-260 | emptying the deferred set afterwards strands no task |
| Reactor.CancelKeeps | source/event/epoll.cpp:316-333 | a cancellation keeps the invariant |
| Reactor.ApplyOneEffect | source/event/epoll.cpp:343-410 | one change with its retries: interest equals the wanted events on an open descriptor, or the entry leaves table and kernel |
| Reactor.ApplyKeeps | source/event/epoll.cpp:343-417 | applying the head of the change list keeps the invariant |
| Reactor.PollKeeps | source/event/epoll.cpp:428-439 | taking reports off the kernel's ready list loses no edge |
| Reactor.StartEventKeeps | source/event/event_action.cpp:130-140 | handling a report raises exactly the reported bits of its action and keeps the invariant |
| Reactor.TryKeeps | source/event/event_action.cpp:224-251 | an attempt, whatever the kernel answers, keeps the invariant |
| Reactor.EndPassKeeps | source/event/epoll.cpp:447-456 | popping the ready list after a pass strands no task |
| ReactorRuns.NoLostWakeup | source/event/epoll.cpp:419-456 | in every run without an unsound change and without a close behind the back end's back, other cancellations and closes included: between dispatches, a submitted task the kernel could serve has an unreported edge, a queued registration, or a set bit and a place on the ready list |
| ReactorRuns.CloseKeepsWiredIff | source/event/epoll.cpp:335-341 | closing a descriptor keeps every registered direction watched or listed if and only if the table does not know it, or it has no registered direction, or it is on the change list |
| ReactorRuns.CancelRemovesIff | source/event/epoll.cpp:316-333 | a cancellation that leaves no interest makes the next `apply_changes` take the descriptor out of table and kernel if and only if it cancels reads or a change was queued already; otherwise the kernel record stays as it is |
| ReactorService.AwakeIsServed | source/event/epoll.cpp:419-456 | a dispatch that is not interrupted and whose reports cover the descriptor's queued edges does not end without an attempt on the tasks of a direction that was awake when it began |
| ReactorService.NextDispatchServes | source/event/epoll.cpp:419-456 | so after every careful run the next such dispatch attempts every submitted task the kernel could serve |
| ReactorRuns.NoLostWakeupWithoutCancel | source/event/epoll.cpp:262-314 | the same for every run without cancellation over descriptors that stay open |
| ReactorRuns.WiredIsAwake | source/event/epoll.cpp:419-456 | in any reachable idle state a watched or listed direction with serviceable tasks is awake |
| ReactorRuns.ApplyKeepsWiredIff | source/event/epoll.cpp:343-410 | applying a change keeps every registered direction watched if and only if no direction was cancelled alone and the descriptor is open |
| ReactorRuns.PlainRunIsCareful | source/event/epoll.cpp:139-192 | without cancellations no unsound change is ever applied |
| ReactorLosses.UnsoundChangeLosesWakeup | source/event/epoll.cpp:283-289 | after any run that is applying changes with an unsound one anywhere in the list, of an open descriptor whose cancelled direction is not marked ready: finishing the list, a submission and new readiness lead to a task the kernel could serve that no continuation attempts unless the descriptor is cancelled again |
| ReactorLosses.DeadForGood | source/event/epoll.cpp:283-308 | the queued tasks of a dead direction stay queued and uncompleted in every continuation without a cancellation of the descriptor |
| ReactorLosses.CancelLosesLaterRead | source/event/epoll.cpp:316-333 | an ordinary run that ends with such a read |
| ReactorLosses.CloseLosesLaterRead | source/event/epoll.cpp:283-289 | a registered read, close and reopening of its descriptor: the next read is asleep when data arrives |
| ReactorLosses.WriteCancelKeepsInterest | source/event/epoll.cpp:194-203 | write, dispatch, cancel the write: nothing wants the descriptor, but table and kernel keep it, also after the next `apply_changes` |
| ReactorLosses.SpuriousEndReached | source/event/event_action.cpp:387-391 | two queued reads and bytes for one: a run that completes the second with 0 on an open descriptor |
| ReactorLosses.UnwiredIsLost | source/event/epoll.cpp:283-289 | an unwatched direction whose EV bit is up is not registered again by a submission |
| ReactorLosses.CancelReachesUnsoundChange | source/event/epoll.cpp:316-333 | read, dispatch, write, cancel the read, dispatch: a run that reaches an unsound change |
| ReactorTasks.TasksConserved | source/event/epoll.cpp:139-456 | in every run the pending, deferred, completed and cancelled tasks of an action are a permutation of the tasks the run submitted to it |
| ReactorTasks.AcceptedIs | source/event/epoll.cpp:181-190 | in every run an action has accepted exactly the tasks submitted to its descriptor while it was in the table, in order |
| ReactorTasks.AnswersReported | source/event/event_action.cpp:344-424 | in every run the callbacks of an action have received exactly the kernel's answers to its attempts, in order; what the kernel refused is not reported, except to reads while events are handled |
| ReactorTasks.BytesConserved | source/event/event_action.cpp:384-423 | in every run the bytes the kernel moved for a direction, ends counted as their codes, are the sum of the results its callbacks received |
| ReactorTasks.SubmissionQueues | source/event/epoll.cpp:181-190 | a submission puts its task at the end of the pending queue, with submit=false at the end of the deferred queue, and leaves the other one alone |
| ReactorTasks.PassIsHandlePass | source/event/event_action.cpp:217-252 | the two loops as the machine makes them, without other steps in between, compute `HandlePass` |
| ReactorTasks.FlushStrandsNothing | source/event/epoll.cpp:248-260 | after `submit` nothing is deferred, pending is old pending followed by deferred in both directions, and ready actions are listed |
| ReactorTasks.DeferredWaits | source/event/epoll.cpp:309-312 | in every continuation of every run without `submit` and without a cancellation of this descriptor, the deferred tasks stay deferred, in order, before any later ones |
| ReactorTasks.DeferredNotRun | source/event/epoll.cpp:187-190 | so in every run a task submitted with submit=false, and submitted once, is neither completed nor pending before `submit`, as long as its descriptor is not cancelled |
| ReactorRuns.ChangesReconciled | source/event/epoll.cpp:335-417 | after `apply_changes`: interest equals the wanted events for every listed open descriptor even with a stale flag, listed ones without interest are gone from table and kernel, unlisted ones are untouched |
| ReactorRuns.ChangesSettle | source/event/epoll.cpp:412-424 | the same while the kernel does what it likes between the changes, short of closing the descriptor itself |
| Epoll.EpollBackend.PushToChangeList | include/event/epoll.h:173-177 | appends exactly when the flag is down, and raises it |
| Epoll.EpollBackend.SubmitAsync | source/event/epoll.cpp:262-314 | find or insert, set the callback, register a new direction, queue the task: one step of the machine |
| Epoll.EpollBackend.SubmitAll | source/event/epoll.cpp:248-260 | -1 exactly when nothing is deferred, otherwise the flush of the whole set |
| Epoll.EpollBackend.Cancellation | source/event/epoll.cpp:194-203 | 0 exactly for a positive known descriptor, reading for reads, and a callback; without the callback the queues are dropped all the same; any other call changes nothing |
| Epoll.EpollBackend.CancelAsync | source/event/epoll.cpp:316-333 | the cancellation is one step of the machine, with the same exact result |
| Epoll.EpollBackend.ApplyOneChange | source/event/epoll.cpp:343-410 | the branches over operation and error code compute the specified kernel record, entry and table |
| Epoll.EpollBackend.ApplyChanges | source/event/epoll.cpp:412-417 | the loop applies the whole list, whatever the kernel does meanwhile; if that is nothing, it computes `ApplyAll` |
| Epoll.EpollBackend.HandleEvents | source/event/event_action.cpp:217-252 | the drain loops, interrupted by any callbacks, are a stretch of a run |
| Epoll.EpollBackend.SetReadyEvents | source/event/event_action.cpp:130-140 | one reported event is a stretch of a run |
| Epoll.EpollBackend.DoReadyTasks | source/event/epoll.cpp:447-456 | processes exactly the entries listed at its start and ends |
| Epoll.EpollBackend.Dispatch | source/event/epoll.cpp:419-445 | whatever the kernel does at any time and whatever the callbacks do, it terminates idle: the run goes on with the start of a dispatch and the changes, mixed with steps of the kernel, until none is listed, then the kernel answers, and it ends in an interrupted wait or at the end of the ready pass; the answers in the run are those the kernel gave |
| Bits.IsPowerOf2Correct | source/util/util.cpp:27-30 | the bit trick holds of exactly the powers of two |
| Bits.MaskIsMod | source/data_struct/ring_buffer.cpp:105-106 | masking by count - 1 is reduction modulo the count |
| Bits.MaskOfWrapped | source/event/io_uring_wrapper.cpp:176-177 | masking a counter that wraps at 2^w finds the slot of the unwrapped counter |
| Bits.HighestBit | source/util/util.cpp:37-40 | the shift loop stops at the highest set bit |
| Bits.RoundupPowerOfTwo | source/util/util.cpp:32-43 | the smallest power of two that is at least the value, for 1 up to the top power of the word (2^63 in the source); 0 otherwise |
| SubmissionRing.RoomIsRoom | source/event/io_uring_wrapper.cpp:168-176 | the modular test equals the unbounded occupancy test across any wraps, for up to 2^31 entries |
| SubmissionRing.GetSqeRefines | source/event/io_uring_wrapper.cpp:166-183 | an entry is handed out exactly when the queue has room, never in the slot of an unconsumed one |
| SubmissionRing.PublishRefines | source/event/io_uring_wrapper.cpp:185-189 | the number submitted is the number of unpublished entries |
| SubmissionRing.ConsumeRefines | source/event/io_uring_wrapper.cpp:189-191 | the kernel takes the oldest unconsumed entry |
| SubmissionRing.RingIsQueue | source/event/io_uring_wrapper.cpp:166-193 | in every interleaving with any kernel consumption, each prepared entry is consumed once and in preparation order |
| SubmissionRing.SubmissionQueue.GetSqe | source/event/io_uring_wrapper.cpp:166-183 | null exactly when the queue is full; otherwise its slot, with flags reset and every other slot as it was |
| SubmissionRing.SubmissionQueue.Submit | source/event/io_uring_wrapper.cpp:185-193 | with nothing unpublished it returns 0 and does not enter the kernel; otherwise it publishes everything and enters it once with the number of unpublished entries; the result is negative exactly for a failure of the kernel and counts what was consumed otherwise |
| SubmissionRing.SubmissionQueue.GetIoUringSqe | include/event/io_uring.h:195-205 | null exactly when the ring was full on entry: the retry never helps; the kernel is entered exactly then and only if entries were unpublished |
| CompletionRing.WaitRefines | source/event/io_uring_wrapper.cpp:218-221 | the ready count is exact across wraps and fits the signed result |
| CompletionRing.HandleRefines | include/event/io_uring_wrapper.h:144-147 | `get_cqe(i)` is the i-th completion after the head |
| CompletionRing.ConsumeExact | source/event/io_uring_wrapper.cpp:224-235 | the head never passes the tail; exactly the handled completions are given back if and only if the tail lies in the same 2^32 block |
| CompletionRing.FinishRefines | source/event/io_uring.cpp:541-577 | a dispatch keeps posting order if and only if the tail does not wrap behind it |
| CompletionRing.CompletionsInOrder | source/event/io_uring.cpp:541-577 | in every run without such a wrap each posted completion is taken up exactly once and in order |
| CompletionRing.WrapLosesCompletion | source/event/io_uring_wrapper.cpp:230-232 | a run of 2^32 completions at whose end one is given back without having been taken up |
| CompletionRing.CompletionQueue.WaitCqeTimeout | source/event/io_uring_wrapper.cpp:218-221 | returns the number of posted and unconsumed completions |
| CompletionRing.CompletionQueue.CqConsume | source/event/io_uring_wrapper.cpp:224-235 | moves the head as specified |
| CompletionRing.CompletionQueue.Dispatch | source/event/io_uring.cpp:541-577 | -1 exactly when nothing was posted; otherwise takes up exactly what was posted at the wait, in order, while more is posted, and gives back exactly that if and only if no wrap |
| BufferRing.BufferCycle | source/event/io_uring.cpp:543-570 | in every run of a group of two or more power-of-two blocks: the k-th completion dispatched is block k mod n with its data at the beginning, free and outstanding blocks are known exactly, across the 16-bit wrap |
| BufferRing.RecycleCycles | include/event/io_uring.h:59-72 | the remembered offset is never used, and the block returns to a slot no free block occupies |
| BufferRing.FreePlusOutstanding | source/event/io_uring_wrapper.cpp:332-336 | free plus outstanding blocks are n, and the emptiness test is exact across the wrap |
| BufferRing.EachBlockOnce | source/event/io_uring_wrapper.cpp:322-330 | every block is in exactly one position of ring and outstanding list |
| BufferRing.SoloRecycle | include/event/io_uring.h:59-72 | a group of one block: data is looked for behind all earlier data, and a filled block is lost |
| BufferRing.SoloLosesBlock | source/event/io_uring.cpp:551-567 | a run from registration at whose end the only block is lost and nothing can happen any more |
| BufferRing.OffsetZeroIffTwoBlocks | source/event/io_uring.cpp:551-567 | a second completion is found at the beginning of its block if and only if the group has two blocks or more |
| BufferRing.BufferGroup.constructor | source/event/io_uring.cpp:187-203 | the registration loop starts the cycle: block i in slot i |
| BufferRing.BufferGroup.AddBufRing | source/event/io_uring_wrapper.cpp:322-330 | writes the masked slot only |
| BufferRing.BufferGroup.BufRingAdvance | source/event/io_uring_wrapper.cpp:332-336 | advances the 16-bit tail |
| BufferRing.BufferGroup.UpdateLast | include/event/io_uring.h:62-71 | accumulates for the same block, restarts for another |
| BufferRing.BufferGroup.DispatchBuffer | source/event/io_uring.cpp:548-567 | one completion: offset, callback, update and recycling as specified |
| SpscRing.WriterCountIs | source/data_struct/ring_buffer.cpp:101-117 | a grant is the largest contiguous one for the index seen, refused exactly when nothing is free |
| SpscRing.ReaderCountIs | source/data_struct/ring_buffer.cpp:128-142 | the same for published blocks |
| SpscRing.GrantAvoidsUnread | source/data_struct/ring_buffer.cpp:101-126 | no block the writer may fill is unread, also with a stale snapshot |
| SpscRing.GrantIsPublished | source/data_struct/ring_buffer.cpp:128-152 | a block the reader may read holds what was published there |
| SpscRing.WriterNeedMet | source/data_struct/ring_buffer.cpp:119-126 | `need` blocks are granted if and only if so many are contiguous and free for the index seen, less only when there is no more, nothing only for a full ring; the grant is the largest for the snapshot it leaves |
| SpscRing.ReaderNeedMetIff | source/data_struct/ring_buffer.cpp:144-152 | nothing is granted exactly when nothing is published; `need` blocks that are published side by side are granted if and only if no peeked count hides that the snapshot is too old |
| SpscRing.PeekHidesBlock | source/data_struct/ring_buffer.cpp:144-170 | a run in which a reader that asks for two blocks gets one although both lie side by side |
| SpscRing.SafeInEveryRun | source/data_struct/ring_buffer.cpp:101-202 | in every interleaving, with loads that return any earlier value: 0 <= w - r <= N, grants contiguous, in bounds and safe, the reader's blocks are the writer's in order |
| SpscRing.ReaderSeesAll | include/data_struct/ring_buffer.h:116-141 | without `reader_reset_out` the reader takes exactly the written sequence, position by position |
| SpscRing.StepIsQueueStep | include/data_struct/ring_buffer.h:116-141 | the ring refines a queue: commits append and remove, everything else leaves it alone |
| SpscRing.ReaderCountStaysZero | source/data_struct/ring_buffer.cpp:128-170 | in every run the reader's stored count is 0 if and only if no peek has found its block |
| SpscRing.ReaderCountWrong | source/data_struct/ring_buffer.cpp:128-152 | then every call that needs a block refreshes its snapshot, and the count its caller finds is right exactly when nothing is granted |
| SpscRing.Init | source/data_struct/ring_buffer.cpp:60-99 | which arguments are accepted, with 32-bit truncation; masked indices stay within the blocks if and only if the count is a power of two |
| SpscRing.RingBuffer.WriterGetBuffer | source/data_struct/ring_buffer.cpp:119-126 | null exactly when the ring is full; `need` blocks exactly when so many are free side by side; the grant starts at the writer's slot and is the largest for its snapshot |
| SpscRing.RingBuffer.Commit | include/data_struct/ring_buffer.h:116-119 | publishes the filled blocks |
| SpscRing.RingBuffer.Put | include/data_struct/ring_buffer.h:75-83 | appends one value to the queue; -1 exactly for a value too large, -2 exactly for a full ring |
| SpscRing.RingBuffer.ReaderGetBuffer | include/data_struct/ring_buffer.h:124-127 | nothing exactly for an empty queue; the blocks granted are its first elements, up to the end of the ring |
| SpscRing.RingBuffer.ReaderGetBufferFor | source/data_struct/ring_buffer.cpp:144-152 | nothing exactly for an empty queue; the blocks granted are its first elements; all up to the end of the ring when the stored count is below the need |
| SpscRing.RingBuffer.Peek | source/data_struct/ring_buffer.cpp:154-174 | 0 exactly for a published index not yet given back; stores the number of published blocks from there to the end of the ring and nothing else |
| SpscRing.RingBuffer.ReaderCommits | include/data_struct/ring_buffer.h:138-141 | removes what was read from the queue |
| SpscRing.RingBuffer.UnreadCnt | source/data_struct/ring_buffer.cpp:196-202 | the length of the queue; only the snapshot is refreshed |
| SpscRing.RingBuffer.ResetsOut | include/data_struct/ring_buffer.h:191-195 | empties the queue; index and snapshot are the writer's index |
| CoroutineReads.CompletedExactlyOnce | include/coroutine/coroutine_service.h:178-222 | at every step of every run, for every descriptor other than 0: free means no read in the back end, pending means exactly one with its awaiter recorded, and every other read awaiter has been completed exactly once |
| CoroutineReads.RunKeeps | include/coroutine/coroutine_service.h:329-379 | the same with re-entrant calls during cancellations and callbacks |
| CoroutineReads.OverlapUndisturbed | include/coroutine/coroutine_service.h:195-198 | in every run, while a read is pending or being cancelled, overlapping and re-entrant reads and cancellations get -EALREADY and leave descriptor, back-end read and awaiter as they are, whatever else happens |
| CoroutineReads.ReadHasOneResult | include/coroutine/coroutine_service.h:200-221 | an accepted read ends with exactly one result, the back end's or -ECANCELED, and keeps it for the rest of the run |
| CoroutineReads.RefusedReadResult | include/coroutine/coroutine_service.h:195-221 | a read that is not accepted, in any run and on any descriptor, has one result at once and for good: -1 for bad arguments on a free descriptor, -EALREADY on one that is not free |
| CoroutineReads.ResultIsFinal | include/coroutine/awaitable.h:189-199 | in every run the result of a read, once there, never changes |
| CoroutineReads.CancelEffect | include/coroutine/coroutine_service.h:346-376 | a whole cancellation in any run, with any calls in between: the reader is completed with -ECANCELED first, at the end the read is gone from layer and back end, and the cancel awaiter goes from no result to two |
| CoroutineReads.CancelCompletedTwiceIff | include/coroutine/coroutine_service.h:358-377 | in every run a finished `cancel_read` has completed its awaiter twice if and only if a read was pending on a descriptor other than 0, and once otherwise, with the exact results |
| CoroutineReads.CancelCompletesTwice | include/coroutine/coroutine_service.h:358-377 | the shortest run that does |
| CoroutineReads.CancelClearsIff | source/event/epoll.cpp:316-333 | a cancellation leaves no read in the back end if and only if the descriptor is not 0 |
| CoroutineReads.DescriptorZeroCompletesTwice | source/event/epoll.cpp:316-319 | a run on descriptor 0 that completes one awaiter twice |
| CoroutineReads.CoroutineService.ReadAsync | include/coroutine/coroutine_service.h:178-222 | one step of the machine, with the refused and the failed submission |
| CoroutineReads.CoroutineService.CancelRead | include/coroutine/coroutine_service.h:329-379 | the run goes on with this cancellation and, for a pending read, its end; whatever the resumed coroutine does meanwhile, layer and back end are free of the read on return, for descriptors other than 0 |
| CoroutineReads.CoroutineService.OnRead | include/coroutine/coroutine_service.h:204-212 | the run goes on with the delivery of this result to this descriptor, which frees it before the reader is resumed, and ends with the callback's return |
| FramePools.PoolSafeInEveryRun | include/coroutine/coroutine_service.h:45-99 | in every run of frame allocations and frees the free list is an acyclic chain of exactly the blocks no live frame holds, free plus held is the capacity, and every frame that fits a block is served by a free block unless all are held, any other by the heap |
| FramePools.AllocKeeps | include/coroutine/coroutine_service.h:76-81 | takes the front of the chain; fails exactly when it is empty |
| FramePools.FreeKeepsIff | include/coroutine/coroutine_service.h:83-89 | `free` keeps the list a chain if and only if the block was held |
| FramePools.FailsIffAllHeld | include/coroutine/coroutine_service.h:76-81 | no block is handed out exactly when live frames hold all of them |
| FramePools.AllocFrameIs | include/coroutine/coroutine_service.h:541-549 | a frame gets an unheld pool block if it fits into one and not all are held, otherwise heap memory |
| FramePools.FreeFrameUndone | include/coroutine/coroutine_service.h:551-557 | freeing takes exactly this frame away; the next allocation that fits gets a pool block freed last; a heap frame leaves the pool alone |
| FramePools.FramesDisjoint | include/coroutine/coroutine_service.h:76-81 | live pool frames do not overlap and all lie on block boundaries |
| FramePools.ReturnsHome | include/coroutine/coroutine_service.h:541-557 | every frame is freed by the allocator it came from |
| FramePools.FramePool.constructor | include/coroutine/coroutine_service.h:45-59 | the loop builds the chain of all blocks |
| FramePools.FramePool.AllocBlock | include/coroutine/coroutine_service.h:76-81 | null exactly for an empty chain, otherwise the address of its first block |
| FramePools.FramePool.FreeBlock | include/coroutine/coroutine_service.h:83-89 | any address within a held block puts that block in front; other addresses are ignored |
| FramePools.FramePool.FreeCount | include/coroutine/coroutine_service.h:91-97 | terminates with the length of the chain |
| SpawnSweep.SweepSafeInEveryRun | include/coroutine/coroutine_service.h:474-528 | in every run, jobs left over by a clear included: finished entries are distinct members of the list with a queued job, every spawned task is in the list or has left it, once; besides the posted job only clears leave jobs behind |
| SpawnSweep.SweepRemovesFinished | include/coroutine/coroutine_service.h:499-518 | any queued sweep job removes exactly the finished tasks |
| SpawnSweep.FinishedIsSwept | include/coroutine/coroutine_service.h:491-518 | in every run a finished task stays in the list until the next sweep or clear and has left it for good afterwards |
| SpawnSweep.UnfinishedStays | include/coroutine/coroutine_service.h:474-518 | a spawned task that has not finished stays in the list until a clear, whatever is swept |
| SpawnSweep.Spawner.SpawnTask | include/coroutine/coroutine_service.h:474-481 | a task that is done is ignored, any other is put in front |
| SpawnSweep.Spawner.OnFinalResume | include/coroutine/coroutine_service.h:491-504 | queues the entry and posts one job unless one is posted |
| SpawnSweep.Spawner.SweepJob | include/coroutine/coroutine_service.h:499-502 | a sweep job, stale or not, removes the finished tasks and allows the next post |
| SpawnSweep.Spawner.SweepCompleted | include/coroutine/coroutine_service.h:513-518 | every entry erased is in the list at that moment |
| SpawnSweep.Spawner.ClearSpawned | include/coroutine/coroutine_service.h:524-528 | empties list and queue, lets queued jobs stand |
| Scatter.MoveIov | source/util/util.cpp:102-120 | the rest of the list covers the old cells minus the first ones, 0 exactly when cells remain, and the entries are exactly the old ones with the first one left trimmed |
| Scatter.TrimmedCells | source/util/util.cpp:102-120 | the trimmed entries cover what remains, and some are left exactly when cells remain |
| Scatter.ReadFile | include/event/fd_io_operation.h:243-264 | for every split of the stream successive bytes fill the list in order; the result is negative exactly for an error of the kernel, otherwise their number, with the list full or the file at its end; terminates when interrupts are finite |
| Scatter.TcpScatterIff | include/event/fd_io_operation.h:125-150 | the list told once, as `move_iov` leaves it, stays right after every partial receive if and only if at most one entry is not empty |
| Scatter.ReadTcp | include/event/fd_io_operation.h:125-150 | negative exactly for an error, otherwise the number of bytes received unless the end of the stream follows data, which makes it 0; the empty flag exactly when the kernel runs out; with at most one entry that is not empty, successive bytes fill the list in order |
| Scatter.Chunks | source/socket/tcp_socket.cpp:184-196 | the chunks cover exactly the first `ret` cells and the list is not overrun |
| JobQueues.CrossJobsInOrder | source/event/event_loop.cpp:212-222 | in every interleaving: executed, rest of the cache and pending are exactly the jobs posted so far, in posting order, so no job runs twice or is dropped |
| JobQueues.PassRunsWhatItFound | source/event/event_loop.cpp:238-247 | a pass runs exactly the jobs present at its start, however many they post; executed and queued are exactly the jobs posted |
| JobQueues.EventLoop.RunInEventLoop | source/event/event_loop.cpp:263-276 | the job goes to the end of the queue of its thread; a null job changes nothing |
| JobQueues.EventLoop.ProcessOtherThreadJob | source/event/event_loop.cpp:212-222 | calls exactly what was posted before the swap, in order, while more is posted |
| JobQueues.EventLoop.RunSameThreadJobs | source/event/event_loop.cpp:238-247 | the loop over the live deque calls its initial contents, in order |
| Listener.CapHoldsInEveryRun | source/socket/tcp_socket.cpp:333-353 | in every run of accepts, closes and timers: the count is the map's size and at most the maximum, enabled is strictly below, no channel is queued as closed twice, no two live connections share a buffer group |
| Listener.TimerSettles | source/socket/tcp_socket.cpp:453-474 | a timer leaves exactly the live channels, as they were, and the listener enabled exactly when there is room; when reopening fails it stays as it was |
| Listener.FailedOpenLosesBuffer | source/socket/tcp_socket.cpp:86-111 | in every run all registered groups are free or in use if and only if no accepted connection turned out not to be connected after it got one |
| Listener.KeptIff | source/socket/tcp_socket.cpp:93-101 | the only step that loses a group is that accept |
| Listener.FirstAcceptLosesBuffer | source/socket/tcp_socket.cpp:93-101 | a run of one accept that loses the first group |
| Listener.TcpListener.GetBufferId | source/socket/tcp_socket.cpp:68-76 | the front of the free list, otherwise a new group, -1 when registration fails |
| Listener.TcpListener.OnAccept | source/socket/tcp_socket.cpp:333-353 | an enabled accept of a connected descriptor with a buffer group enters the new channel live, counts it and disables at the cap; any other leaves map and count alone, and the group taken for one that is not connected is not put back |
| Listener.TcpListener.CloseChannel | source/socket/tcp_socket.cpp:113-135 | a live channel is dead and queued once and its buffer group is back in the free list, whatever its close callback closes; a dead or unknown one changes nothing |
| Listener.TcpListener.OnTimer | source/socket/tcp_socket.cpp:453-474 | the erase loop, the recount and the reopening as specified |

## Left out

- Real system calls, memory mapping, socket options, signals, timer and inotify descriptors: nondeterministic steps or not modelled.
- Hardware memory ordering: every atomic load or store is one step; the ring buffer's loads may return old values, but data written before a store is visible with it.
- `opt_map`: a map.
- The `reader_get_buffer` overloads with a read index and a needed count (source/data_struct/ring_buffer.cpp:176-194): they add a retry to the peek, decided by a field of the caller that no call assigns.
- Multishot reads, accept tasks, UDP and its batching, buffer-group reads of the epoll back end: foreign message structures and per-datagram callbacks.
- File descriptors of type file in the reactor: they are never registered with epoll; file offsets are not modelled.
- The precondition that the first submission of a direction carries a callback, and that a callback does not cancel its own descriptor while its queue is drained: beyond them the code calls an empty function or pops an empty queue.
- Object identity and lifetime in the reactor: entries and actions are values in maps under ids; removed entries stay in the map as their shared pointers keep them. `apply_changes` consumes the list as it walks it instead of clearing it afterwards.
- `write_fd` loops: they use `move_iov` as the read loops do.
- Byte totals beyond 32 bits in the read loops and 64-bit overflow of ring-buffer indices and channel ids: counts are unbounded there.
- Completions with user data 0: the dispatch loop skips their callback; the model counts them as taken up. Completion rings have at most 2^30 entries, so that the signed ready count is exact.
- Argument checks, group ids and allocation failures of `register_ring_buffer`: the model starts with a group the kernel accepted, with at most 2^15 blocks and ids below 2^16.
- Frame pools with capacity 0 or above 4096, or with empty blocks: the constructor writes outside its array there.
- `unregister_ring_buffer`, `resubmit_multishot`, `rollback_sqe`, the wrap of the group id counter.
- Prompt wake-up of the loop from other threads.
- Resumption of a `co_await` that starts after completion: the model speaks of completing awaiters.
- Frames of spawned coroutines across their final suspension: the frame pool's runs free what was allocated, `spawn` is modelled without frames.
- The connector mode of `tcp_socket`, reconnect timers, and closing the listener itself.
- `event_service`, `event_thread`, `event_thread_pool`, `notifier`, `signal_event`, `udp_socket`, `generator`, tests and scripts: thin wrappers, or would only add easy members.
