# Block layer, AES and ser2net: a verified model

Dafny proofs about nine engines of this tree: two of the serial-to-telnet daemon ser2net 2.10.0,
six of the block layer of its Linux kernel, and the kernel's generic AES.

- **Timer heap** (`TimerHeap`): a binary min-heap held only by left, right and up pointers and a
  pointer to the last timer. A ghost level-order sequence ties every pointer write to the heap.
- **Telnet codec and ring buffer** (`RingBuffer`, `Telnet`, `TelnetStream`): the circular output
  buffer, the in-place incremental parser, the framer, and the loop that doubles 255s in place.
- **Segments and completion** (`Segments`, `Requests`, `Completion`, `BlockRequest`): the segment
  count a request keeps through merges, the scatterlist that trusts it, and partial completion.
- **Ordered barriers** (`Barrier`, `BarrierQueue`): drain mode as a transition system over every
  run, and the functions of the queue as methods that perform its steps.
- **Deadline scheduler** (`SortedLists`, `Deadline`, `DeadlineQueue`).
- **Dispatch queue** (`DispatchSort`): the one-way elevator order of elv_dispatch_sort.
- **CFQ** (`CfqChoice`, `CfqQueue`, `CfqMerge`, `CfqSelect`): the choice of the next request, the
  tree of cooperators, and the references held along chains of merging queues.
- **Tags** (`Tags`): bitmap, index and busy list.
- **AES** (`AesAlgebra`, `AesRounds`, `AesRegisters`, `Aes`, `AesContext`, `AesWords`): FIPS 197
  from the field up to the key schedule and the unrolled rounds.

Objects that the source changes in place are classes whose methods state their new state through a
function of the old one; the laws are lemmas about those functions. `Wrappers` holds the option type.
Check the whole project with `dafny verify dfyconfig.toml`.

## Findings

Where the code does not meet what its comments or callers rely on, a lemma or a run gives the input
and a contract the exact condition.

| source | what fails | input | exact condition |
|---|---|---|---|
| sources/applications/ser2net-2.10.0/buffer.c:56-62 | a short first write of a wrapped ring is followed by the write from the start of the array: the bytes between are passed over | `RingBuffer.ShortWriteLoses` | `RingBuffer.WriteIsFifoExactly` for given bytes, `RingBuffer.WriteIsFifoUniformly` for all bytes |
| sources/applications/ser2net-2.10.0/dataxfer.c:540-548 | the doubling loop stores to the cell after the buffer | `TelnetStream.HalfBufferOverrun` | `TelnetStream.HalfBufferFits`: not a whole half buffer of 255s |
| sources/applications/ser2net-2.10.0/telnet.c:189-227 | a frame whose payload starts with 255 is not delivered, or not as it was sent | `Telnet.AllIacsHang`, `Telnet.EarlyEnd`, `Telnet.ByteDropped` | `Telnet.FrameDeliversExactly`, for short payloads `Telnet.ShortFrameDelivers` |
| sources/kernel/block/blk-core.c:2076-2078 | the sector of a request completed in two odd parts falls behind | any m, n with m % 512 + n % 512 >= 512 | `BlockRequest.UpdatedTwice` |
| sources/kernel/block/cfq-iosched.c:2796-2803 | changed_cgroup drops the reference on the queue but none along its chain | `CfqMerge.LeakRun` | `CfqMerge.Pool.ChangedCgroup`: left over exactly when the queue has a link; `CfqMerge.NothingLeaksExactly`: with the processes gone, some queue is still held by one exactly when a reference is left over |
| sources/kernel/block/blk-tag.c:255-260 | the copy of the old index overruns the new one when the depth was clipped (the bitmap, copied in whole longs, is overrun less often: `Tags.MapCopyFitsExactly`) | `Tags.CopyOverruns`: 64 tags grown to 128 with 16 requests | `Tags.CopyFitsExactly` |
| sources/kernel/block/cfq-iosched.c:765-787 | a metadata request further off is not looked at | `CfqChoice.MetadataMissed` | `CfqChoice.FindNextIsLeastExactly` |
| sources/kernel/block/blk-core.c:1811-1814 | when the boundary moves with a started request, other runs get out of order | `DispatchSort.OtherRunLost` | `DispatchSort.BoundaryMoves` |

## Model

| member | source | states |
|---|---|---|
| `TimerHeap.CmpTimeval` | sources/applications/ser2net-2.10.0/selector.c:200-216 | negative, zero or positive exactly as the first time is before, equal to or after the second, seconds first |
| `TimerHeap.DiffTimeval` | sources/applications/ser2net-2.10.0/selector.c:218-240 | the difference in microseconds, with a proper microsecond part, or zero when it would be negative |
| `TimerHeap.TopIsMinimum` | sources/applications/ser2net-2.10.0/selector.c:741-767 | in an ordered heap no timer times out before the one at the top |
| `TimerHeap.WalksMeet` | sources/applications/ser2net-2.10.0/selector.c:365-394 | u levels down, the leftmost slot under c + 1 comes right after the rightmost slot under c: why counting ups and downs finds the next slot |
| `TimerHeap.RenamedIsExchanged` | sources/applications/ser2net-2.10.0/selector.c:427-472 | two timers that trade names in every link have traded their level-order slots, and all links are right again |
| `TimerHeap.UpStep` | sources/applications/ser2net-2.10.0/selector.c:432-472 | one exchange with the parent leaves the order broken at most at the parent's slot, upwards |
| `TimerHeap.DownStep` | sources/applications/ser2net-2.10.0/selector.c:480-550 | one exchange with the smaller child leaves the order broken at most at the child's slot, downwards |
| `TimerHeap.ReplacedHole` | sources/applications/ser2net-2.10.0/selector.c:640-668 | a timer stuck into any slot breaks the order upwards only or downwards only, as its timeout compares with the parent's |
| `TimerHeap.Selector.UpFromRight` | sources/applications/ser2net-2.10.0/selector.c:370-376 | going up while a right child counts exactly the right steps back down to the last slot; the count does not go below zero |
| `TimerHeap.Selector.UpFromLeft` | sources/applications/ser2net-2.10.0/selector.c:401-407 | the same for left children |
| `TimerHeap.Selector.FindNextPos` | sources/applications/ser2net-2.10.0/selector.c:365-394 | from the last of n timers, the parent and the side of slot n |
| `TimerHeap.Selector.FindPrevElem` | sources/applications/ser2net-2.10.0/selector.c:396-425 | from the last of n timers, the timer in slot n - 2 |
| `TimerHeap.Selector.SwapLinks` | sources/applications/ser2net-2.10.0/selector.c:433-466 | the pointer writes of send_up make the timer and its parent trade names in every link of the heap |
| `TimerHeap.Selector.SwapWithRight` | sources/applications/ser2net-2.10.0/selector.c:487-513 | the pointer writes of send_down for the right child do the same |
| `TimerHeap.Selector.SwapWithLeft` | sources/applications/ser2net-2.10.0/selector.c:520-546 | the pointer writes of send_down for the left child do the same |
| `TimerHeap.Selector.SendUp` | sources/applications/ser2net-2.10.0/selector.c:427-472 | restores the heap order from one break upwards, with the same timers and consistent links |
| `TimerHeap.Selector.SendDown` | sources/applications/ser2net-2.10.0/selector.c:474-554 | restores the heap order from one break downwards, with the same timers and consistent links |
| `TimerHeap.Selector.Add` | sources/applications/ser2net-2.10.0/selector.c:556-593 | keeps the complete tree with consistent links, the last pointer and the order, and adds exactly this timer |
| `TimerHeap.Selector.Remove` | sources/applications/ser2net-2.10.0/selector.c:595-670 | the same when any timer, wherever it sits, is removed: exactly this timer goes |
| `TimerHeap.Selector.AllocTimer` | sources/applications/ser2net-2.10.0/selector.c:672-691 | a new timer, not in the heap |
| `TimerHeap.Selector.StartTimer` | sources/applications/ser2net-2.10.0/selector.c:704-715 | refused exactly for a timer in the heap, and then nothing changes; otherwise the timer is in the heap with its timeout |
| `TimerHeap.Selector.StopTimer` | sources/applications/ser2net-2.10.0/selector.c:717-728 | refused exactly for a timer not in the heap, and then nothing changes; otherwise it is out of the heap |
| `TimerHeap.Selector.FireTop` | sources/applications/ser2net-2.10.0/selector.c:741-752 | the timer that fires has expired, leaves the heap, and nothing left was due before it |
| `TimerHeap.Selector.FireAndHandle` | sources/applications/ser2net-2.10.0/selector.c:741-760 | the timer that fires is a minimum of the heap, and the heap after it is what its handler makes of the others |
| `TimerHeap.Selector.FireDue` | sources/applications/ser2net-2.10.0/selector.c:741-760 | from the heap before the call to the heap after it, through what each handler does: every firing is due at its reading of the clock and of a minimum of the heap then; with handlers that leave the heap alone the timers fire in order and none is lost |
| `TimerHeap.Selector.FireTimers` | sources/applications/ser2net-2.10.0/selector.c:733-767 | all of that, and what is left is not due yet, with the time to the earliest timer as the wait |
| `Barrier.ColorTells` | sources/kernel/block/blk-barrier.c:82-89 | the one-bit colour suffices: unless the next barrier stands before it, a queued file system request has the barrier's colour exactly when it belongs to the barrier's epoch |
| `Barrier.NextBarrierBefore` | sources/kernel/block/blk-barrier.c:85-89 | a request two epochs on, whose colour repeats, always stands behind the next barrier |
| `Barrier.HeadEpochIdle` | sources/kernel/block/blk-barrier.c:241-246 | with no sequence in progress a file system request at the head is of the epoch being served |
| `Barrier.HeadBarrier` | sources/kernel/block/blk-barrier.c:183-186 | a barrier at the head is the next one to be served, and all behind it comes after it |
| `Barrier.SkippedAre` | sources/kernel/block/blk-barrier.c:194-225 | a bit is skipped exactly when its request is not stacked, and the drain bit exactly when nothing is in flight |
| `Barrier.CloseKeeps` | sources/kernel/block/blk-barrier.c:105-111 | closing a sequence whose bits are all set ends the barrier in turn and keeps the invariant for the next epoch |
| `Barrier.CompleteSeqKeeps` | sources/kernel/block/blk-barrier.c:92-112 | setting bits, none of them twice, keeps the invariant |
| `Barrier.DrainedWhenChecked` | sources/kernel/block/elevator.c:854-863 | when the drain check succeeds, no file system request of the barrier's epoch is queued or issued |
| `Barrier.ElvCompletedKeeps` | sources/kernel/block/elevator.c:837-867 | so completing the drain bit there keeps the invariant |
| `Barrier.NeverWarned` | sources/kernel/block/blk-barrier.c:274 | the drain-mode warning does not fire in a state that satisfies the invariant |
| `Barrier.HeadIssuable` | sources/kernel/block/blk-barrier.c:263-277 | what is let through while a sequence is in progress is the stage whose turn it is, or, before the drain is done, a request that came before the barrier |
| `Barrier.DispatchArranged` | sources/kernel/block/elevator.c:413-449 | a request sorted in behind the last stop keeps the queue in epoch order |
| `Barrier.RequeuedInFront` | sources/kernel/block/elevator.c:664-692 | a requeued request that is not a stage goes to the front, sequence or not |
| `Barrier.RequeueStageArranged` | sources/kernel/block/elevator.c:682-691 | a requeued stage goes back before the later stages and every request after the barrier |
| `Barrier.StartKeeps` | sources/kernel/block/blk-barrier.c:154-234 | opening a sequence, with all its combinations of stages, keeps the invariant |
| `Barrier.StartedHead` | sources/kernel/block/blk-barrier.c:222-233 | the stages stand at the head in order; the sequence is over at once exactly when none was stacked and nothing is in flight; else the first may be issued when nothing is in flight |
| `Barrier.StepKeeps` | sources/kernel/block/blk-barrier.c:92-280 | every step of the protocol (add, dispatch, merge, start, issue, complete, requeue) keeps the invariant |
| `Barrier.RunKeeps` | sources/kernel/block/blk-barrier.c:92-280 | the invariant holds in every state of every run |
| `Barrier.StageIssuedInTurn` | sources/kernel/block/blk-barrier.c:154-280 | over every run: when a stage is issued, all earlier stages have completed, no other stage is issued, and no file system request added before the barrier is queued or in flight |
| `Barrier.FsIssuedAfterBarriers` | sources/kernel/block/blk-barrier.c:236-280 | over every run: when a file system request is issued, every barrier added before it has ended; during a sequence only requests older than its barrier are issued, and only while draining |
| `Barrier.BarriersEndOnce` | sources/kernel/block/blk-barrier.c:92-130 | over every run: barriers end in order, each once, with the first error its sequence reported and each bit set once; no BUG_ON or WARN_ON fires; in_flight counts the issued requests |
| `Barrier.StepLive` | sources/kernel/block/blk-barrier.c:92-280 | every step keeps the queue live: draining with nothing issued, it has a request at its head that may go |
| `Barrier.HeadMayGo` | sources/kernel/block/blk-barrier.c:263-277 | in a live queue with nothing issued, the head of a sequence in progress may be issued |
| `Barrier.NeverStalls` | sources/kernel/block/blk-barrier.c:154-280 | over every run: as long as a sequence is in progress, some request is issued or the head of the queue may be issued |
| `BarrierQueue.RequestQueue.CompleteSeq` | sources/kernel/block/blk-barrier.c:92-112 | sets the bits, records the first error, and ends the stashed barrier exactly when all bits are set |
| `BarrierQueue.RequestQueue.StackStages` | sources/kernel/block/blk-barrier.c:188-225 | the stages in order at the head, the bits of the others collected, and the request to issue now |
| `BarrierQueue.RequestQueue.StartOrdered` | sources/kernel/block/blk-barrier.c:154-234 | performs the start step of the protocol; false exactly when nothing was stacked and nothing is in flight; else the head is offered exactly when nothing is in flight, and may be issued |
| `BarrierQueue.RequestQueue.DoOrdered` | sources/kernel/block/blk-barrier.c:236-280 | starts a sequence exactly for a barrier at the head with none in progress; otherwise the head is offered exactly when it may be issued |
| `BarrierQueue.RequestQueue.NextRequest` | sources/kernel/block/blk.h:54-68 | performs a run of start and dispatch steps; what it returns is the head, which may be issued; it returns nothing only when the queue is empty, its head may not be issued, or a sequence just started waits for the requests in flight: in a live queue, only when it is empty or something is issued |
| `BarrierQueue.RequestQueue.StartRequest` | sources/kernel/block/blk-core.c:1871-1907 | performs the issue step |
| `BarrierQueue.RequestQueue.AddFs` | sources/kernel/block/elevator.c:709-738 | performs the add step: the colour toggles exactly for a barrier, which goes to the back |
| `BarrierQueue.RequestQueue.CompletedRequest` | sources/kernel/block/elevator.c:837-867 | releases the request and completes the drain when the check succeeds |
| `BarrierQueue.RequestQueue.EndRequest` | sources/kernel/block/blk-barrier.c:114-130 | performs the completion step of the request or stage |
| `BarrierQueue.RequestQueue.FindRequeuePos` | sources/kernel/block/elevator.c:682-690 | the place before the first request that is not earlier in the sequence |
| `BarrierQueue.RequestQueue.RequeueRequest` | sources/kernel/block/elevator.c:553-568 | performs the requeue step |
| `Segments.GreedyIsPartition` | sources/kernel/block/blk-merge.c:118-171 | the greedy rule yields segments the queue accepts, which flatten to the vectors |
| `Segments.GreedyStaysAhead` | sources/kernel/block/blk-merge.c:118-171 | it makes no more segments than any other way to cut the vectors, at every point |
| `Segments.JoinIsPartition` | sources/kernel/block/blk-merge.c:88-112 | two partitions whose ends join make a partition with one segment less |
| `Segments.RestrictedIsPartition` | sources/kernel/block/blk-merge.c:36-52 | a count that splits at high pages is still a partition the queue accepts |
| `Requests.RecalcSegments` | sources/kernel/block/blk-merge.c:12-70 | counts the segments the greedy rule makes with splits at high pages, and raises the recorded sizes at the two ends of the chain |
| `Requests.RecountedIsCounted` | sources/kernel/block/blk-merge.c:77-85 | a recounted bio carries the right count and bounds for its first and last segment, and its data is untouched |
| `Requests.RecountSegments` | sources/kernel/block/blk-merge.c:77-85 | computes that |
| `Requests.BackMergeAccounted` | sources/kernel/block/blk-merge.c:203-246 | adding the count of a bio behind keeps a partition with the counted number of segments |
| `Requests.FrontMergeAccounted` | sources/kernel/block/blk-merge.c:203-271 | the same in front |
| `Requests.MarkedAccounted` | sources/kernel/block/blk-merge.c:289-295 | the sizes marked for joined ends stay bounds, also when the merge is then refused |
| `Requests.JoinAccounted` | sources/kernel/block/blk-merge.c:284-308 | contiguous requests, one segment less: still a partition, by the recorded end sizes |
| `Requests.AppendAccounted` | sources/kernel/block/blk-merge.c:284-308 | requests that do not join: the counts add up |
| `Requests.AccountCoversMapping` | sources/kernel/block/blk-merge.c:118-171 | any account is enough for the greedy mapping |
| `Requests.MapSg` | sources/kernel/block/blk-merge.c:118-171 | the scatterlist entries are the segments of the greedy rule, in order |
| `Completion.DropStream` | sources/kernel/block/blk-core.c:1969-2069 | dropping bytes of the vectors drops bytes of the stream |
| `Completion.RemainingVecs` | sources/kernel/block/blk-core.c:1992-2069 | the vectors left are the old ones without their first n bytes |
| `Completion.EndedAt` | sources/kernel/block/blk-core.c:134-161 | the bios that end are the first of the chain, each with its own error |
| `Completion.EndedOrLeft` | sources/kernel/block/blk-core.c:1992-2069 | every bio has either ended or is left |
| `Completion.LeftAt` | sources/kernel/block/blk-core.c:1992-2069 | the bios left are the last of the chain, in order |
| `Completion.EndsWithLastByte` | sources/kernel/block/blk-core.c:1992-2069 | a bio ends if and only if its last byte completes |
| `Completion.EndedTwice` | sources/kernel/block/blk-core.c:1992-2069 | the bios ended by m and then n bytes are those ended by m + n, on the bare chain |
| `Completion.RemainingTwice` | sources/kernel/block/blk-core.c:1992-2075 | what m and then n bytes leave against m + n: alike but for the sector of the bio that is cut, and equal exactly in the cases of SectorsAgree |
| `Completion.EndBios` | sources/kernel/block/blk-core.c:1992-2063 | the loop ends those bios and halts at the place where the rest begins |
| `BlockRequest.FirstRequestSound` | sources/kernel/block/blk-core.c:2362-2377 | a request made of a bio has a true account of its bytes and segments |
| `BlockRequest.BackMergeSound` | sources/kernel/block/blk-merge.c:224-246 | a back merge keeps the account, taken or refused |
| `BlockRequest.FrontMergeSound` | sources/kernel/block/blk-merge.c:248-271 | a front merge keeps the account, taken or refused |
| `BlockRequest.BackMergeChain` | sources/kernel/block/blk-core.c:1208-1229 | after a back merge the bio follows the chain, or the chain has the same data |
| `BlockRequest.FrontMergeChain` | sources/kernel/block/blk-core.c:1231-1262 | after a front merge the bio leads the chain, or the chain has the same data |
| `BlockRequest.MarksSound` | sources/kernel/block/blk-merge.c:287-295 | the marks of a refused merge keep the accounts of both requests |
| `BlockRequest.MergeSound` | sources/kernel/block/blk-merge.c:273-430 | two merged requests are one with a true account |
| `BlockRequest.RecalculatedSound` | sources/kernel/block/blk-core.c:2095-2096 | counting the segments anew gives a true account of the same data |
| `BlockRequest.UpdatedSound` | sources/kernel/block/blk-core.c:1969-2099 | a request that is not done has a true account again |
| `BlockRequest.UpdatedBytes` | sources/kernel/block/blk-core.c:1969-2099 | its bytes are the old ones without the first n, and its length is their number |
| `BlockRequest.UpdatedTwice` | sources/kernel/block/blk-core.c:1969-2099 | calls for m and n bytes, with the recount between, against one for m + n: the same bios end in order with the same errors, the same vectors, length and count are left; the same sector if and only if m % 512 + n % 512 < 512; the same bios but for the first one's sector |
| `BlockRequest.RestIsCut` | sources/kernel/block/blk-core.c:2063-2093 | what the end of the function keeps is the request without its first bytes; the length is never corrected |
| `BlockRequest.HistorySound` | sources/kernel/block/blk-merge.c:203-430 | through every history of merges, refused merges (either request) and partial completions the account stays true |
| `BlockRequest.SoundCoversMapping` | sources/kernel/block/blk-merge.c:118-171 | a true account counts at least as many segments as the mapping makes, and those flatten to the vectors |
| `BlockRequest.HistoryCoversMapping` | sources/kernel/block/blk-merge.c:118-308 | both together: after every history nr_phys_segments is enough for the scatterlist, which flattens to the request's vectors, and the length is their size |
| `BlockRequest.Request.constructor` | sources/kernel/block/blk-core.c:1138-1167 | the first bio, counted if it has data |
| `BlockRequest.Request.NewHwSegment` | sources/kernel/block/blk-merge.c:203-222 | counts the bio's segments in, or refuses and closes the request to merging |
| `BlockRequest.Request.BackMerge` | sources/kernel/block/blk-merge.c:224-246 | takes the bio exactly when length and count allow it, and performs the back merge; the data of the chain is the old data, with the bio behind it if taken |
| `BlockRequest.Request.FrontMerge` | sources/kernel/block/blk-merge.c:248-271 | the same in front |
| `BlockRequest.Request.MergeSegments` | sources/kernel/block/blk-merge.c:273-308 | the total of both counts, less one if contiguous, and the marks on both requests, kept also when refused |
| `BlockRequest.Request.AttemptMerge` | sources/kernel/block/blk-merge.c:359-430 | merges exactly when the requests are mergeable and the total fits; if only the total does not fit, both keep the marks of joined ends, else both are as before |
| `BlockRequest.Request.MapSegments` | sources/kernel/block/blk-merge.c:118-171 | a scatterlist of nr_phys_segments entries takes a request with a true account |
| `BlockRequest.Request.Update` | sources/kernel/block/blk-core.c:1969-2099 | ends the bios that n bytes cover, in order, and leaves the request with the rest |
| `RingBuffer.OutputAppends` | sources/applications/ser2net-2.10.0/buffer.c:98-120 | output appends the bytes to the contents, wrapped or not |
| `RingBuffer.OutcharAppends` | sources/applications/ser2net-2.10.0/buffer.c:122-136 | one byte is appended, wrapped or not |
| `RingBuffer.WriteIsFifoExactly` | sources/applications/ser2net-2.10.0/buffer.c:26-84 | for every ring and all replies: what is sent, followed by what is left, is what there was if and only if the first of two writes is not short or the bytes it did not take match those at the start of the array |
| `RingBuffer.WriteIsFifoUniformly` | sources/applications/ser2net-2.10.0/buffer.c:26-84 | for one shape and one pair of replies: the order is kept whatever the bytes are if and only if the first of two writes is not short |
| `RingBuffer.ShortWriteSkips` | sources/applications/ser2net-2.10.0/buffer.c:36-84 | after a short first write the byte it stopped at is passed over for the byte at the start of the array |
| `RingBuffer.ShortWriteLoses` | sources/applications/ser2net-2.10.0/buffer.c:36-84 | so for every ring and every short first write some contents come out in the wrong order |
| `RingBuffer.DoKeepsOrder` | sources/applications/ser2net-2.10.0/buffer.c:26-136 | an operation keeps the accepted bytes those sent followed by those in the ring if and only if it is not a write that breaks the order |
| `RingBuffer.RunKeepsOrder` | sources/applications/ser2net-2.10.0/buffer.c:26-136 | over any interleaving of output, outchar and write calls of which none breaks the order: accepted bytes are those sent followed by those in the ring |
| `RingBuffer.RunKeepsOrderExactly` | sources/applications/ser2net-2.10.0/buffer.c:26-136 | over every interleaving: that holds at every point if and only if no write breaks the order |
| `RingBuffer.Buffer.constructor` | sources/applications/ser2net-2.10.0/buffer.c:138-145 | an empty ring |
| `RingBuffer.Buffer.PutBytes` | sources/applications/ser2net-2.10.0/buffer.c:98-120 | all bytes appended, or, exactly when they do not fit, nothing |
| `RingBuffer.Buffer.PutByte` | sources/applications/ser2net-2.10.0/buffer.c:122-136 | one byte appended, or, exactly when full, nothing |
| `RingBuffer.Buffer.Flush` | sources/applications/ser2net-2.10.0/buffer.c:26-84 | performs the write for the device's replies to its two writes: what is sent, what is left, the result and the error code |
| `Telnet.StepSane` | sources/applications/ser2net-2.10.0/telnet.c:158-240 | the position stays within the command array, and a 255 pending in a suboption means a position of at least 4; one byte gives at most one output |
| `Telnet.FeedSane` | sources/applications/ser2net-2.10.0/telnet.c:158-240 | the same over every stream |
| `Telnet.FeedChunks` | sources/applications/ser2net-2.10.0/telnet.c:158-240 | a stream fed in two parts gives what it gives as a whole |
| `Telnet.FeedAnyChunks` | sources/applications/ser2net-2.10.0/telnet.c:158-240 | however a stream is cut into chunks, the same bytes get through and the same commands are handled |
| `Telnet.FeedBody` | sources/applications/ser2net-2.10.0/telnet.c:198-228 | inside a suboption doubled bytes are collected once each |
| `Telnet.FeedEnd` | sources/applications/ser2net-2.10.0/telnet.c:199-204 | the end of a suboption hands on what was collected, up to the size of the array |
| `Telnet.FrameDelivers` | sources/applications/ser2net-2.10.0/telnet.c:113-145 | from an idle parser a frame whose payload does not start with 255 comes out as one command with the first 29 payload bytes, and no data |
| `Telnet.RoundTrip` | sources/applications/ser2net-2.10.0/telnet.c:158-240 | any sequence of data, commands, negotiations and frames, encoded, comes back in order |
| `Telnet.DoubledRoundTrip` | sources/applications/ser2net-2.10.0/telnet.c:165-176 | data with its 255s doubled comes back as it was |
| `Telnet.FrameDeliversExactly` | sources/applications/ser2net-2.10.0/telnet.c:189-227 | a frame comes out as one command with its payload if and only if the payload is Deliverable, a condition on its leading 255s |
| `Telnet.ShortFrameDelivers` | sources/applications/ser2net-2.10.0/telnet.c:189-227 | for payloads that fit: if and only if it is not empty and does not start with 255 |
| `TelnetStream.HighStoreIs` | sources/applications/ser2net-2.10.0/dataxfer.c:540-548 | the highest cell the doubling loop stores to, by recursion on the data |
| `TelnetStream.RoomIs` | sources/applications/ser2net-2.10.0/dataxfer.c:540-548 | that is the cell after the doubled data, so every store is in the buffer if and only if it has that cell or there is nothing to double |
| `TelnetStream.HalfBufferFits` | sources/applications/ser2net-2.10.0/dataxfer.c:535-549 | half a buffer of data is doubled within the buffer if and only if it is not a whole half of 255s |
| `TelnetStream.HalfBufferOverrun` | sources/applications/ser2net-2.10.0/dataxfer.c:538-548 | the input that fails: 32 bytes of 255 in the buffer of 64 make the loop store to cell 64 |
| `TelnetStream.InsertIac` | sources/applications/ser2net-2.10.0/dataxfer.c:541-547 | the bytes behind are shifted by one, a 255 is put into the gap, and the highest cell stored to is count + 1 |
| `TelnetStream.DoubleIacs` | sources/applications/ser2net-2.10.0/dataxfer.c:540-548 | the buffer holds the doubled data, and the highest cell stored to is the one of RoomIs |
| `TelnetStream.DeleteChar` | sources/applications/ser2net-2.10.0/telnet.c:147-156 | one byte is removed in place |
| `TelnetStream.TelnetData.constructor` | sources/applications/ser2net-2.10.0/telnet.c:242-258 | an idle parser with an empty output buffer of 256 bytes |
| `TelnetStream.TelnetData.CmdSend` | sources/applications/ser2net-2.10.0/telnet.c:19-30 | the bytes are appended and announced, or, exactly when they do not fit, the error is set and nothing is sent |
| `TelnetStream.TelnetData.FrameSize` | sources/applications/ser2net-2.10.0/telnet.c:119-125 | the precomputed length is the length of the frame |
| `TelnetStream.TelnetData.SendOption` | sources/applications/ser2net-2.10.0/telnet.c:113-145 | the whole frame is appended and announced, or, exactly when it does not fit, the error is set and nothing is sent |
| `TelnetStream.TelnetData.Process` | sources/applications/ser2net-2.10.0/telnet.c:158-240 | parsing in place leaves the bytes, the state and the commands of the byte-at-a-time machine |
| `AesAlgebra.Unmixes` | sources/kernel/crypto/aes_generic.c:857-1120 | InvMixColumns undoes MixColumns, in any field that satisfies the coefficient laws |
| `AesAlgebra.InvMixAdds` | sources/kernel/crypto/aes_generic.c:1130-1139 | InvMixColumns is linear |
| `AesRounds.RoundUndone` | sources/kernel/crypto/aes_generic.c:1372-1399 | an inverse round with the key put through InvMixColumns undoes a round (section 5.3.5 of FIPS 197) |
| `AesRounds.CipherUndone` | sources/kernel/crypto/aes_generic.c:1329-1440 | the equivalent inverse cipher undoes the cipher, for any number of rounds and any keys |
| `AesRegisters.ImixIsInvMix` | sources/kernel/crypto/aes_generic.c:1130-1139 | imix_col on a word is InvMixColumns on its column |
| `AesRegisters.ForwardSplits` | sources/kernel/crypto/aes_generic.c:1300-1305 | one word of a round is SubBytes, ShiftRows, MixColumns and AddRoundKey on its column |
| `AesRegisters.ForwardLastSplits` | sources/kernel/crypto/aes_generic.c:1315-1320 | the same without MixColumns for the last round |
| `AesRegisters.BackSplits` | sources/kernel/crypto/aes_generic.c:1372-1377 | one word of an inverse round on its column |
| `AesRegisters.BackLastSplits` | sources/kernel/crypto/aes_generic.c:1387-1392 | the same without InvMixColumns for the last round |
| `AesRegisters.LsBoxSplits` | sources/kernel/crypto/aes_generic.c:1141-1145 | ls_box is SubWord (section 5.2 of FIPS 197) |
| `Aes.DecWordsInvert` | sources/kernel/crypto/aes_generic.c:1258-1266 | the reversed schedule put through imix_col is the inverse key schedule |
| `Aes.EncryptIsCipher` | sources/kernel/crypto/aes_generic.c:1329-1368 | encryption by the tables is the cipher of section 5.1 of FIPS 197 |
| `Aes.DecryptIsInverse` | sources/kernel/crypto/aes_generic.c:1401-1440 | decryption by the tables is the equivalent inverse cipher of section 5.3.5 of FIPS 197 |
| `Aes.DecryptUndoes` | sources/kernel/crypto/aes_generic.c:1329-1440 | decryption undoes encryption for any keys, if those of the inverse were made from them |
| `AesContext.Context.Loop4` | sources/kernel/crypto/aes_generic.c:1147-1158 | the next four words of the key schedule |
| `AesContext.Context.Loop6` | sources/kernel/crypto/aes_generic.c:1160-1175 | the next six |
| `AesContext.Context.Loop8TopHalf` | sources/kernel/crypto/aes_generic.c:1177-1188 | the next four of a 256-bit key |
| `AesContext.Context.Loop8` | sources/kernel/crypto/aes_generic.c:1190-1200 | the next eight |
| `AesContext.Context.ExpandEnc` | sources/kernel/crypto/aes_generic.c:1228-1256 | the key schedule of section 5.2 of FIPS 197, for each of the three lengths, begins with the key |
| `AesContext.Context.ExpandDec` | sources/kernel/crypto/aes_generic.c:1258-1266 | the words of the inverse: reversed by rounds, the inner ones through imix_col |
| `AesContext.Context.ExpandKey` | sources/kernel/crypto/aes_generic.c:1216-1268 | fails with -EINVAL, changing nothing, exactly for other key lengths; else both schedules |
| `AesContext.Context.ForwardRound` | sources/kernel/crypto/aes_generic.c:1307-1313 | one round, from one block to the other |
| `AesContext.Context.Encrypt` | sources/kernel/crypto/aes_generic.c:1329-1368 | the words after all rounds for the key length |
| `AesContext.Context.BackRound` | sources/kernel/crypto/aes_generic.c:1379-1385 | one inverse round |
| `AesContext.Context.Decrypt` | sources/kernel/crypto/aes_generic.c:1401-1440 | the words after all inverse rounds |
| `AesContext.Context.DecryptUndoesEncrypt` | sources/kernel/crypto/aes_generic.c:1329-1440 | with an expanded key of any of the three lengths, decrypting what was encrypted gives the block back |
| `AesWords.XtimeReduces` | sources/kernel/crypto/aes_generic.c:1128 | multiplication by x is a shift, reduced by 0x1b when the top bit falls out |
| `AesWords.GfLawful` | sources/kernel/crypto/aes_generic.c:857-1120 | bytes under xor and multiplication by x satisfy all laws the proofs use |
| `AesWords.SplitStar` | sources/kernel/crypto/aes_generic.c:1128 | star_x multiplies each byte of a word by x |
| `AesWords.KernelFits` | sources/kernel/crypto/aes_generic.c:65-1120 | the tables, given by their formulas over any substitution with an inverse, fit the cipher |
| `AesWords.KernelUndoes` | sources/kernel/crypto/aes_generic.c:1216-1440 | for every substitution with an inverse, every key of the three lengths and every block of 32-bit words, aes_decrypt undoes aes_encrypt |
| `AesWords.RcoIsPower` | sources/kernel/crypto/aes_generic.c:63 | the round constants are the powers of x |
| `SortedLists.Find` | sources/kernel/block/elevator.c:388-405 | the request at a sector, if there is one |
| `SortedLists.InsertSorted` | sources/kernel/block/elevator.c:356-377 | inserting at a free sector keeps the order |
| `SortedLists.LatterIsNearest` | sources/kernel/block/deadline-iosched.c:65-74 | the request after a sector is the nearest one |
| `Deadline.MoveOk` | sources/kernel/block/deadline-iosched.c:206-222 | moving a request to the dispatch queue keeps both lists the same and sets the only next request |
| `Deadline.ClearedFree` | sources/kernel/block/deadline-iosched.c:76-84 | after an alias is moved the sector is free: the loop is taken at most once |
| `Deadline.AddOk` | sources/kernel/block/deadline-iosched.c:100-113 | adding keeps the invariant and adds exactly this request |
| `Deadline.FrontMergedOk` | sources/kernel/block/deadline-iosched.c:156-168 | repositioning after a front merge keeps the invariant and the requests |
| `Deadline.MergedRequestsOk` | sources/kernel/block/deadline-iosched.c:170-189 | merging two requests takes exactly one away |
| `Deadline.ChosenOk` | sources/kernel/block/deadline-iosched.c:245-326 | the chosen request is queued, and a new batch has the direction of the rule |
| `Deadline.DispatchOk` | sources/kernel/block/deadline-iosched.c:245-327 | a call takes exactly the chosen request to the dispatch queue, unless nothing is queued |
| `Deadline.StepOk` | sources/kernel/block/deadline-iosched.c:76-327 | every step keeps the invariant |
| `Deadline.RunOk` | sources/kernel/block/deadline-iosched.c:76-327 | in every reachable state the sorted list and the fifo of each direction hold the same requests, at most one next request is set and it is queued, and every request is in one place |
| `Deadline.ReadSpends` | sources/kernel/block/deadline-iosched.c:245-327 | a read dispatched while a write waits costs credit |
| `Deadline.StepKeepsCredit` | sources/kernel/block/deadline-iosched.c:76-189 | adds, merges and alias moves leave the credit alone |
| `Deadline.WritesNotStarved` | sources/kernel/block/deadline-iosched.c:245-327 | over every run in which a write stays queued and only reads are dispatched, at most (writes_starved + 1) * fifo_batch dispatches, whatever is added, merged and moved between |
| `Deadline.StepTimely` | sources/kernel/block/deadline-iosched.c:100-189 | a step at a clock that does not go back keeps the fifos in order of expiry |
| `Deadline.RunTimely` | sources/kernel/block/deadline-iosched.c:76-327 | so does every run |
| `Deadline.ExpiredFirst` | sources/kernel/block/deadline-iosched.c:298-318 | in every reachable state an expired request found at the start of a batch means that the one that expires first is taken |
| `DeadlineQueue.Scheduler.constructor` | sources/kernel/block/deadline-iosched.c:350-368 | both directions empty |
| `DeadlineQueue.Scheduler.RemoveRequest` | sources/kernel/block/deadline-iosched.c:118-124 | off both lists, and the next request moves on if it was this one |
| `DeadlineQueue.Scheduler.MoveRequest` | sources/kernel/block/deadline-iosched.c:206-222 | performs the move |
| `DeadlineQueue.Scheduler.AddRequest` | sources/kernel/block/deadline-iosched.c:100-113 | performs the add, keeps the invariant |
| `DeadlineQueue.Scheduler.MergedRequest` | sources/kernel/block/deadline-iosched.c:156-168 | performs the repositioning, keeps the invariant |
| `DeadlineQueue.Scheduler.MergeRequests` | sources/kernel/block/deadline-iosched.c:170-189 | performs the merge, keeps the invariant |
| `DeadlineQueue.Scheduler.NewBatch` | sources/kernel/block/deadline-iosched.c:262-292 | the direction of the new batch and the starvation count |
| `DeadlineQueue.Scheduler.DispatchRequests` | sources/kernel/block/deadline-iosched.c:245-327 | dispatches exactly the chosen request, or reports that nothing is queued |
| `DeadlineQueue.Scheduler.Drain` | sources/kernel/block/elevator.c:570-575 | both lists end empty and every request known was dispatched, each once |
| `Tags.TagsDiffer` | sources/kernel/block/blk-tag.c:337-384 | no two live requests share a tag |
| `Tags.BitIsHolder` | sources/kernel/block/blk-tag.c:337-384 | a bit is set if and only if a busy request holds the tag |
| `Tags.StartOrderGrows` | sources/kernel/block/blk-tag.c:382 | a request that starts comes last in start order |
| `Tags.StartOrderEnds` | sources/kernel/block/blk-tag.c:298 | a request that ends leaves the order of the others |
| `Tags.HighCopyIs` | sources/kernel/block/blk-tag.c:255-260 | the highest cell a copy of n cells stores to is n - 1 |
| `Tags.MapCopyFitsExactly` | sources/kernel/block/blk-tag.c:255-260 | the copy of the bitmap, in whole longs, is in bounds if and only if that of the index is or the longs suffice |
| `Tags.CopyOverruns` | sources/kernel/block/blk-tag.c:255-260 | an input on which the index is overrun and the bitmap is not |
| `Tags.CopyFitsExactly` | sources/kernel/block/blk-tag.c:255-260 | every store of the copy of the index is in the new table unless the depth grows although twice the requests of the queue is below the old depth |
| `Tags.TagQueue.constructor` | sources/kernel/block/blk-tag.c:107-131 | an empty map, clipped to twice the requests of the queue |
| `Tags.TagQueue.StartTag` | sources/kernel/block/blk-tag.c:337-384 | refused exactly when async requests fill their limit or every tag below it is taken; else the least free tag, with bit, index and busy list in step; async requests leave the last two tags when the depth exceeds 2 |
| `Tags.TagQueue.EndTag` | sources/kernel/block/blk-tag.c:282-316 | the tag is free again: bit, index and busy list in step |
| `Tags.TagQueue.ResizeTags` | sources/kernel/block/blk-tag.c:220-265 | shrinking only lowers the limit, growing keeps every live tag, errors change nothing, and the highest cell the copy stores to |
| `Tags.TagQueue.InvalidateTags` | sources/kernel/block/blk-tag.c:399-405 | every tag is free, and the requests are back ahead of the queue in the order they were started |
| `DispatchSort.NoLaterOrders` | sources/kernel/block/elevator.c:435-444 | the one-way order from a boundary is total, antisymmetric and transitive |
| `DispatchSort.PlaceIsUnique` | sources/kernel/block/elevator.c:428-447 | the walk from the back ends at the only place with nothing to stop at behind it and a stop before it |
| `DispatchSort.SortedOrdered` | sources/kernel/block/elevator.c:413-449 | sorting a request in keeps every run in one-way order |
| `DispatchSort.PassesOnlyLater` | sources/kernel/block/elevator.c:428-445 | it passes only unstarted, non-barrier requests of its kind that are strictly later in the sweep |
| `DispatchSort.StaysBehindEarlier` | sources/kernel/block/elevator.c:428-445 | those it stays behind in its run are no later: equal sectors keep their order |
| `DispatchSort.OneBackwardSeek` | sources/kernel/block/elevator.c:413-449 | a run has at most one backward seek |
| `DispatchSort.BoundaryMoves` | sources/kernel/block/blk-core.c:1811-1814 | however the boundary moves, the queue stays in order from it if and only if it passes, of each run, all requests or none |
| `DispatchSort.RunSameSide` | sources/kernel/block/blk-core.c:1811-1814 | that condition for one run: all of its sectors lie between the boundaries, or none |
| `DispatchSort.HeadAdvances` | sources/kernel/block/blk-core.c:1811-1814 | for the run of the request just started: no other begins inside it, or all do |
| `DispatchSort.OtherRunLost` | sources/kernel/block/blk-core.c:1811-1814 | an input on which starting a read puts the writes behind it out of order |
| `DispatchSort.DoKeeps` | sources/kernel/block/elevator.c:413-449 | each operation on the queue keeps the runs in order, and only barriers and started requests before a started one |
| `DispatchSort.RunKeeps` | sources/kernel/block/elevator.c:413-449 | so does every series of operations under one boundary |
| `DispatchSort.RunKeepsOrder` | sources/kernel/block/elevator.c:413-449 | requests keep their relative order for as long as they are in the queue |
| `DispatchSort.NeverPassed` | sources/kernel/block/elevator.c:428-435 | no barrier, started request or request of the other kind is ever passed by one sorted in later |
| `DispatchSort.DispatchQueue.DispatchSort` | sources/kernel/block/elevator.c:413-449 | puts the request at that place |
| `DispatchSort.DispatchQueue.StartFirst` | sources/kernel/block/blk-core.c:1793-1814 | marks the head, moves the boundary unless another request pins it, and when the rest stays in order |
| `CfqChoice.NoWorseOrders` | sources/kernel/block/cfq-iosched.c:641-716 | the order behind the choice is total and transitive, and antisymmetric up to sector and class |
| `CfqChoice.ChooseIsLeast` | sources/kernel/block/cfq-iosched.c:631-717 | the choice is the least of the two in that order, whichever comes first |
| `CfqChoice.FindNextIsOther` | sources/kernel/block/cfq-iosched.c:765-787 | the result is another request of the list, and missing exactly when there is none |
| `CfqChoice.FindNextIsLeast` | sources/kernel/block/cfq-iosched.c:765-787 | in one class, the choice between the neighbours is the least of all that remain |
| `CfqChoice.GoalIsLeast` | sources/kernel/block/cfq-iosched.c:765-787 | in several classes the least is the nearest request of the best class ahead, or behind, or the first one on wrap |
| `CfqChoice.FindNextIsLeastExactly` | sources/kernel/block/cfq-iosched.c:765-787 | whatever the classes, the search finds the least of all that remain if and only if that request is a neighbour |
| `CfqChoice.MetadataMissed` | sources/kernel/block/cfq-iosched.c:765-787 | an input on which a metadata request is missed |
| `CfqQueue.Queue.CooperatorDiffers` | sources/kernel/block/cfq-iosched.c:2203-2219 | a queue found on the tree is not the one that has run empty |
| `CfqQueue.Queue.PrioTreeAdd` | sources/kernel/block/cfq-iosched.c:1284-1307 | on the tree exactly when not idle, with a next request and no alias |
| `CfqQueue.Queue.ResortRrList` | sources/kernel/block/cfq-iosched.c:1312-1321 | the same for a queue on the round-robin list |
| `CfqQueue.Queue.AddCfqqRr` | sources/kernel/block/cfq-iosched.c:1327-1335 | on the list, and resorted |
| `CfqQueue.Queue.DelCfqqRr` | sources/kernel/block/cfq-iosched.c:1341-1359 | off the list and the tree |
| `CfqQueue.Queue.DelRqRb` | sources/kernel/block/cfq-iosched.c:1364-1385 | the request is off the sorted list; an empty queue is off the tree |
| `CfqQueue.Queue.RemoveRequest` | sources/kernel/block/cfq-iosched.c:1474-1492 | the next request moves on if it was this one, and stays one of the sorted ones |
| `CfqQueue.Queue.DispatchInsert` | sources/kernel/block/cfq-iosched.c:1921-1936 | the next request is the one cfq_find_next_rq finds |
| `CfqQueue.Queue.AddRqRb` | sources/kernel/block/cfq-iosched.c:1387-1418 | the request is in; one at the same sector is dispatched for it; the next request is no worse than this one, nor than the old one if nothing was dispatched |
| `CfqQueue.Queue.RepositionRqRb` | sources/kernel/block/cfq-iosched.c:1420-1430 | the same for a request whose sector a front merge has moved |
| `CfqQueue.Queue.MergedRequests` | sources/kernel/block/cfq-iosched.c:1525-1545 | one request less, and the next request stays one of the sorted ones |
| `CfqQueue.Queue.SliceExpired` | sources/kernel/block/cfq-iosched.c:1636-1639 | on the round-robin list exactly while there are requests |
| `CfqQueue.Queue.ForcedDispatch` | sources/kernel/block/cfq-iosched.c:2249-2264 | all that was queued is dispatched, each request once, and the queue leaves the lists |
| `CfqMerge.NoWayBack` | sources/kernel/block/cfq-iosched.c:1998-2003 | in an acyclic graph no walk along new_cfqq comes back |
| `CfqMerge.WalksEnd` | sources/kernel/block/cfq-iosched.c:1998-2003 | and every walk ends |
| `CfqMerge.LinkAcyclic` | sources/kernel/block/cfq-iosched.c:2016-2023 | a link between two ends keeps the graph acyclic if and only if the ends differ |
| `CfqMerge.ChainAlive` | sources/kernel/block/cfq-iosched.c:1989-1996 | a queue with process references has a chain of queues that all have some |
| `CfqMerge.ProcessAlive` | sources/kernel/block/cfq-iosched.c:2572-2591 | the queue of a process, and every queue it may be moved to, has process references |
| `CfqMerge.PutAlongAt` | sources/kernel/block/cfq-iosched.c:2581-2590 | dropping a reference along a chain takes exactly one from each of its queues |
| `CfqMerge.PutAlongSlack` | sources/kernel/block/cfq-iosched.c:2581-2590 | and of the references in excess it takes one from the first queue only |
| `CfqMerge.ExcessHolds` | sources/kernel/block/cfq-iosched.c:2782-2807 | once the processes are gone, a queue has at least as many process references as it has in excess, so it is never freed |
| `CfqMerge.NothingLeaksExactly` | sources/kernel/block/cfq-iosched.c:2572-2603 | once the processes are gone, only requests hold the queues if and only if no reference is in excess |
| `CfqMerge.LeakRun` | sources/kernel/block/cfq-iosched.c:2782-2807 | a run after which both processes are gone and a reference is left |
| `CfqMerge.NothingLeaks` | sources/kernel/block/cfq-iosched.c:2572-2603 | when every reference is accounted for and the processes are gone, only requests hold the queues |
| `CfqMerge.Pool.constructor` | sources/kernel/block/cfq-iosched.c:3562-3612 | no queues, and processes without one |
| `CfqMerge.Pool.GetQueue` | sources/kernel/block/cfq-iosched.c:2883-2910 | a new queue with its process's reference; no reference in excess |
| `CfqMerge.Pool.SetRequest` | sources/kernel/block/cfq-iosched.c:3607-3608 | a request holds a reference; the process references are as before |
| `CfqMerge.Pool.PutRequest` | sources/kernel/block/cfq-iosched.c:3504-3525 | the request's reference is dropped; the process references are as before |
| `CfqMerge.Pool.PutQueue` | sources/kernel/block/cfq-iosched.c:2458-2466 | one reference less, from a positive count |
| `CfqMerge.Pool.SetupMerge` | sources/kernel/block/cfq-iosched.c:1984-2024 | a link from the end with fewer process references to the other, with as many references, or nothing when one has none or they are linked; the graph stays acyclic and no reference is in excess |
| `CfqMerge.Pool.MergeCfqqs` | sources/kernel/block/cfq-iosched.c:3527-3536 | the process moves along the link on the reference taken for it |
| `CfqMerge.Pool.PutCooperator` | sources/kernel/block/cfq-iosched.c:2572-2591 | one reference less on every queue after this one; each count is positive before, and the loop warning is unreachable |
| `CfqMerge.Pool.ExitCfqq` | sources/kernel/block/cfq-iosched.c:2593-2603 | exactly the queues of the process's chain lose a reference, and none is left over |
| `CfqMerge.Pool.SplitCfqq` | sources/kernel/block/cfq-iosched.c:3542-3558 | the last process keeps its queue, any other leaves it as on exit |
| `CfqMerge.Pool.ChangedCgroup` | sources/kernel/block/cfq-iosched.c:2782-2807 | drops the reference on the queue only: exactly one reference is left over on the next queue, if there is one |
| `CfqSelect.Scheduler.GetQueue` | sources/kernel/block/cfq-iosched.c:2816-2910 | a new empty queue for a process |
| `CfqSelect.Scheduler.Cooperate` | sources/kernel/block/cfq-iosched.c:2203-2221 | the merge set up for an active queue that has run empty and a queue found on a tree: they differ, and the links stay acyclic |

## Left out

- CfqMerge.Pool.ChangedCgroup: keeps enough references but not exactly enough, as the code does; see Findings.
- Tags.TagQueue.ResizeTags: the case in which the copy would overrun the new tables is excluded; see Findings.
- TelnetStream.DoubleIacs: data for which a store would leave the buffer is excluded; see Findings.
- DispatchSort.RunKeeps: one boundary; what a moving boundary does is `DispatchSort.BoundaryMoves`.
- CfqMerge.Pool.GetQueue: sync queues only; the extra reference that pins an async queue is not modelled.
- Freed queues, requests and bios: numbers are not used again, so reuse of memory is not captured.
- Bios are values and a chain is a sequence: aliasing of bi_next is not captured, nor are the hints in last_merge.
- Bios without data, discards with their one-sector payload, DMA drain and padding, bounce buffers, bidi requests, integrity and disk checks of attempt_merge, mixed failfast merges.
- The barrier-proxy branch of req_bio_endio, barriers by tag and queues without ordering; file system requests inserted at the front.
- The stage constants of the barrier sequence are consecutive numbers in the order the comparisons rely on.
- Red-black trees are sorted sequences, kernel lists are sequences, and hashing of requests is not modelled.
- jiffies do not wrap; sectors, counts and products of penalties do not overflow.
- Locks, interrupts and RCU: each locked region is one step; the concurrent retry of test_and_set_bit is not modelled.
- Allocation failure, except as an argument of the tag resize.
- The queue without a tag map (-ENXIO), and maps shared between queues except as an argument of the resize.
- deadline_merge and the last sector of the deadline scheduler.
- The rest of CFQ: idling, slices, groups, priorities, think time, the lookup in the priority tree and the async and fallback queues.
- Telnet option negotiation and the handlers of RFC 2217: commands handed to handle_telnet_cmd are logged.
- The device behind the ring buffer: its replies to writes are arguments.
- The clock and the handlers of timers: readings and heap actions are arguments.
- The contents of the AES tables: they are given by their formulas over any substitution with an inverse; key and block bytes are loaded as words.
- Configuration, sockets, termios, controller, logging, sysfs, ioctl and statistics code.
