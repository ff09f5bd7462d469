# LibreCUDA driver API: verification model

LibreCUDA drives NVIDIA GPUs without the CUDA runtime. This project models the part of its driver
API that decides whether work happens in the right order and at the right addresses, and proves
what that part promises.

## What is modelled

**The stream engine.** `NvCommandQueue` turns launches, copies, event records, commences and awaits
into submissions on two asynchronous channels, COMPUTE and DMA. `Stream` states it as a transition
system: the host's fields, a GPU with two in-order channels whose kernels start in order and finish
at any time, and the steps of client, CPU side and GPU. `StreamSafety` and `StreamSteps` find and
keep the invariant; `StreamRuns`, `StreamLog`, `StreamPending`, `StreamProgress`, `StreamEvents` draw
the conclusions over every run and every interleaving. `StreamDeadlock`, `StreamDiscipline`,
`StreamOvertake`, `StreamSyncLaunch` and `StreamLaunches` say exactly when the protocol breaks, and
`StreamWitness` gives runs that reach the states concerned. `CommandQueue` is the imperative class: its methods update the
source's fields in the source's order, and a ghost run records which transitions they amount to, so
that everything proved of runs holds of the class. Its CPU waits are real loops over a GPU that may
take any enabled step; that they end is proved.

**What the GPU reads.** `PushBuffer`, `Hardware`, `CommandWords` and `CommandBuffers` go down to
words: headers and arguments are split again by an incrementing-method parser, and a small register
machine gives the methods their effects. The words of every command list have exactly the effects of
its commands, in every run everything submitted has such words (`StreamWords`), and the rules by which
the GPU model lets a command proceed are those of its words. `StreamOperands` and `StreamWork` go from
the arguments of the calls to those words: what the hardware is made to start and to copy is, in order,
what the accepted calls asked for.
`Ring` holds the page and ring of one channel, and `ChannelWords` takes a channel's command lists
through it as words: what the host engine fetches, all together, is the words of the commands. `Qmd`,
`QmdLaunch` and `QmdFields` are the launch descriptor, down to its bits.

**Memory and modules.** `Memory` is the address allocator with its index of CPU-mapped ranges.
`Image`, `Relocations`, `KernelInfo` and `KernArgs` follow a module from its sections to the packed
parameters of a launch, `LaunchBlock` puts one launch's block together, and `MemCopy` is the
device-to-device copy. `Commands`, `Bits` and `Results` are shared vocabulary.

Operations are numbered by the value the timeline counter gets for them. The GPU model rests on the
register definitions: a compute release has its wait-for-idle bit set
(driverapi/internal/nvidia/clc56f.h:227-229), an acquire is the equality variant (clc56f.h:216-220),
transfers are non-pipelined and a DMA release carries no transfer
(driverapi/internal/nvidia/clc6b5.h:143-157); `CommandWords.FetchRule` ties the model's rules to those
words.

## What turned out differently from the documentation

- driverapi/include/librecuda.h:105-110 advises always to await. What the protocol needs is less. A copy
  enqueued between calls is safe, whatever queue and GPU do next, exactly when no kernel that was
  commenced is unawaited, or something is still queued ahead of the copy (it is then submitted and
  waited for first), or the timeline has already reached the counter (`StreamOvertake.CopyPromiseIff`).
  A launch after copies is safe exactly when one of these holds for copies, or it is refused, or it is
  synchronous, because a synchronous launch enqueues its own acquire (`StreamLaunches.LaunchPromiseIff`).
  Otherwise some GPU timing lets work overtake, takes the timeline backwards, or makes it name unfinished
  work. The runs of the main results contain every call that may follow by what the queue holds.
- A synchronous launch that is refused after its ordering commands were enqueued (arguments exhausted,
  an unpackable parameter, launch limits, no constant bank) leaves an acquire without a launch behind. A
  copy enqueued before the GPU has fetched that acquire can move the timeline past the awaited value, and
  the COMPUTE channel is stuck for good. `StreamDeadlock.CopyStrandsIff` is the exact condition,
  `StreamWitness.WedgeReached` a run into it; a caller is safe when no synchronous launch was refused late
  since the last accepted launch (`StreamDeadlock.UnfetchedHistory`). An await does not help: it returns
  while the acquire may still be unfetched.
- driverapi/internal/cmdqueue.h:110-113 says waits are for greater or equal. CPU waits are, GPU waits
  are for equality; that is why the previous point is possible.
- The packer writes every parameter in whole words. Loader and packer agree exactly when all offsets
  are multiples of four (`KernArgs.AgreeIff`); two neighbouring 2-byte parameters are not.
- launchFunction's size check on the parameters keeps them neither clear of the QMD nor inside the
  block. What passes it misses the QMD exactly when bank 0, rounded up to 256, covers constants and
  parameters (`LaunchBlock.ClearOfQmdIff`), and stays inside the block exactly when they end by its size
  (`LaunchBlock.InsideBlockIff`); thirty pointers break the first, one array of 8192 bytes the second.
- Constant bank 0 always points at the argument block, but its valid bit and size come only from the
  list of constants (`QmdLaunch.BanksHold`).
- A page wrap is checked once against the oldest outstanding submission. Later submissions behind a
  wrap that did not wait are not checked at all, and miss what is outstanding exactly when they end
  before the oldest submission begins (`Ring.NextLapIff`).
- The comment at driverapi/src/memcopy.cpp:84-86 says that a synchronous copy synchronises at its last
  kernel; the code makes its first launch the synchronous one. Later asynchronous kernels are held back
  by that first kernel only (`MemCopy.HeldBackByFirst`) and may overlap the others, as asynchronous
  kernels do (`StreamWitness.KernelsOverlap`); an await or a later synchronous operation waits for all.
- An enqueue with the wrong number of arguments fails after its header was appended
  (`PushBuffer.StrayHeader`).
- The padding formula of the image rebuild wraps in 64 bits and is right exactly when the alignment
  divides 2^64 or exceeds the size so far (`Image.PaddingIff`); powers of two do.
- The addend of a RELA entry is read and not used.

## Model

| member | source | states |
|---|---|---|
| StreamRuns.StreamOrder | driverapi/src/cmdqueue.cpp:469-487 | over every disciplined run and GPU interleaving: an operation starts only after all earlier operations of the other kind, and all earlier synchronous ones, are done; synchronous kernels and copies start after all earlier operations are done; operations start once, in order, on their own channel |
| StreamRuns.TimelineMeaning | driverapi/internal/cmdqueue.h:108-117 | in every reachable state the timeline is at most the counter, the counter counts the operations, and a value v means operations 1 to v are done |
| StreamRuns.TimelineMonotone | driverapi/internal/cmdqueue.h:108-117 | between any two points of a run the timeline never decreases and completion is never undone |
| StreamRuns.AwaitMeaning | driverapi/src/cmdqueue.cpp:272-277 | when an await returns the timeline equals the counter, every operation ever enqueued is done, and the argument index is 0 |
| StreamRuns.EventWait | driverapi/src/cmdqueue.cpp:896-940 | once the signal of an event recorded at some step is raised, at any later state, every operation enqueued before the record is done, earlier splits of the other kind included |
| StreamRuns.ArgBlocksDisjoint | driverapi/src/cmdqueue.cpp:188-198 | argument blocks of operations that are not done are pairwise disjoint, in order and inside the page |
| StreamRuns.ArgsRecycledWhenFree | driverapi/src/cmdqueue.cpp:272-277 | the write index decreases only to 0 and only when no operation that is not done owns a block |
| StreamRuns.QmdPlacement | driverapi/src/cmdqueue.cpp:516-531 | in every reachable state the QMD of an acceptable launch is 256-aligned, behind constant bank 0 and inside the launch's own block and the page |
| StreamSafety.GpuStepKeeps | driverapi/src/cmdqueue.cpp:279-332 | every step the GPU can take keeps the safety invariant |
| StreamSteps.StepKeeps | driverapi/src/cmdqueue.cpp:460-926 | every enabled, disciplined step of client, CPU side and GPU keeps the safety invariant |
| StreamSteps.Settles | driverapi/src/cmdqueue.cpp:334-357 | once a CPU wait for the last submitted number is over, neither channel holds anything that could start, finish or move the timeline |
| StreamLog.OneList | driverapi/src/cmdqueue.cpp:788-819 | in every reachable state backlog and buffer together are the kind-tagged list enqueued since the last commence, one buffer is empty, and each channel has fetched or still holds exactly what was submitted to it |
| StreamLog.CommenceSubmitsLog | driverapi/src/cmdqueue.cpp:821-868 | a commence submits exactly that list, in order, with one trailing release per split whose flag was set, and nothing else |
| StreamPending.PendingExact | driverapi/src/cmdqueue.cpp:715-728 | outside a commence the pending flag holds exactly when the operation numbered by the counter has no release, emitted or owed; that operation is then in the buffer in use |
| StreamPending.SplitCovered | driverapi/src/cmdqueue.cpp:788-819 | every split contains, receives or follows a release of its recorded counter |
| StreamPending.RunReleased | driverapi/src/cmdqueue.cpp:837-865 | what has been submitted carries timeline releases up to, and including, the last submitted number |
| StreamProgress.NoDeadlock | driverapi/src/cmdqueue.cpp:334-357 | in every state of every patient run the GPU can step or is idle, every step decreases the measure, and an idle GPU has ended every CPU wait of a commence or of an await after one |
| StreamProgress.RunLive | driverapi/src/cmdqueue.cpp:870-894 | every patient run keeps the liveness invariant, by which each equality acquire comes to see its value |
| StreamProgress.SomeAction | driverapi/src/cmdqueue.cpp:870-894 | from the invariants, a GPU that is not idle has an enabled step |
| StreamProgress.GpuRunEnds | driverapi/src/cmdqueue.cpp:826-844 | any GPU-only walk is no longer than the measure and can only stop with all command lists executed |
| StreamProgress.AwaitEndsIff | driverapi/src/cmdqueue.cpp:272-277 | at any point between calls, an await ends however the GPU proceeds exactly when everything enqueued has been commenced |
| StreamDeadlock.CopyStrandsIff | driverapi/src/cmdqueue.cpp:480-487 | an accepted copy can be followed by a schedule that strands an acquire if and only if an acquire without a launch behind it is unfetched at the call |
| StreamDeadlock.StrandedStays | driverapi/src/cmdqueue.cpp:870-894 | a stranded acquire stays stranded under every later step, and the GPU is never idle again |
| StreamDeadlock.DanglingHistory | driverapi/src/cmdqueue.cpp:480-487 | in every run, when an acquire dangles some earlier synchronous launch was refused late and no launch was accepted since |
| StreamDeadlock.UnfetchedHistory | driverapi/src/cmdqueue.cpp:480-487 | so in every patient run an unfetched acquire without a launch has such a refused launch behind it |
| StreamDeadlock.LaunchDangles | driverapi/src/cmdqueue.cpp:480-581 | an accepted launch leaves no acquire dangling; any other keeps what was there and adds one exactly when it is synchronous, refused late, and its target is not seen |
| StreamWitness.UnfetchedReached | driverapi/src/cmdqueue.cpp:480-515 | from initialisation, an asynchronous launch and a synchronous one without constant banks reach a state with such an acquire unfetched |
| StreamWitness.WedgeReached | driverapi/src/cmdqueue.cpp:732-786 | and a copy there, commenced as usual, has a schedule that strands it |
| StreamOvertake.CopyPromiseIff | driverapi/src/cmdqueue.cpp:732-786 | for every copy in every state of a patient run between calls (StreamProgress.RunLive gives its conditions): every further walk of queue and GPU keeps start order, timeline meaning and monotonicity and ends every CPU wait, if and only if the copy is refused, or no commenced kernel is unawaited, or a buffer or split is still queued, or the timeline equals the counter |
| StreamLaunches.LaunchPromiseIff | driverapi/src/cmdqueue.cpp:460-729 | the same for every launch, refused ones included, if and only if it is refused, or no commenced copy is unawaited, or a buffer or split is still queued, or the launch is synchronous, or the timeline equals the counter |
| StreamSyncLaunch.SyncLaunchSound | driverapi/src/cmdqueue.cpp:480-487 | a synchronous launch after unawaited copies keeps the promise by its own acquire |
| StreamLaunches.RefusedSound | driverapi/src/cmdqueue.cpp:480-581 | what a refused launch leaves behind after unawaited copies, an acquire included, keeps the promise for the stream as it stands |
| StreamDiscipline.CopyKept | driverapi/src/cmdqueue.cpp:788-844 | a copy that may follow leaves a queue in which everything before it is live and nothing comes after it |
| StreamWitness.CopyBehindKernels | driverapi/src/cmdqueue.cpp:737-744 | a disciplined run in which a copy follows a queued kernel while the timeline is short of kernels commenced before |
| StreamOvertake.Breaks | driverapi/src/cmdqueue.cpp:845-865 | whenever the new operation can run ahead of a timeline short of the counter, a schedule is built that ends in a broken promise |
| StreamWitness.KernelsUnawaited | driverapi/src/cmdqueue.cpp:845-854 | a run from initialisation reaches kernels commenced alone with the timeline short of them |
| StreamWitness.CopyUnawaited | driverapi/src/cmdqueue.cpp:855-863 | and one reaches a copy commenced alone |
| StreamWitness.BrokenPromise | driverapi/include/librecuda.h:105-110 | so the promise of a real stream is broken by an unawaited change of kind |
| StreamWitness.KernelsOverlap | driverapi/src/cmdqueue.cpp:719-727 | a run in which an asynchronous kernel may start although the one before it is not done |
| StreamEvents.IdleRaised | driverapi/src/cmdqueue.cpp:928-940 | when the GPU is idle, every event whose release was submitted is raised, so its CPU wait ends |
| StreamEvents.RunRaised | driverapi/src/cmdqueue.cpp:896-926 | in every reachable state every executed event release has raised its signal |
| CommandQueue.NvCommandQueue.constructor | driverapi/src/cmdqueue.cpp:57-59 | a queue starts with empty buffers, counter 0 and idle hardware |
| CommandQueue.NvCommandQueue.InitializeQueue | driverapi/src/cmdqueue.cpp:93-186 | both channels are bound and awaited: counter, timeline and last submitted number are 2, buffers are empty and exactly the four set-up commands were submitted |
| CommandQueue.NvCommandQueue.FillSignals | driverapi/src/cmdqueue.cpp:118-129 | the timeline is signal 0 and the free list holds all others in order |
| CommandQueue.NvCommandQueue.LaunchFunction | driverapi/src/cmdqueue.cpp:460-729 | the status and the whole new state are those of the launch transition, refused launches included, and the run grows by that step; an accepted launch appends the ordering commands, the start of address page + old index + bank 0 rounded up to 256, and its release when synchronous, and moves the index behind the 2048 bytes that follow |
| CommandQueue.NvCommandQueue.EnsureEnoughLocalMem | driverapi/src/cmdqueue.cpp:403-454 | local memory only grows, to a multiple of 32, and its set-up is enqueued; a failure to release the old memory changes nothing, a failed allocation still leaves the new size |
| CommandQueue.NvCommandQueue.CheckParams | driverapi/src/cmdqueue.cpp:535-577 | packing is possible if and only if every size is 1, 2 or a multiple of 4 |
| CommandQueue.NvCommandQueue.AllocKernArgs | driverapi/src/cmdqueue.cpp:188-198 | a block is handed out at the old index, or the call fails and the index stays |
| CommandQueue.NvCommandQueue.GpuMemcpy | driverapi/src/cmdqueue.cpp:732-786 | status and whole new state are those of the copy transition, and the run grows by that step; a copy with both addresses and less than 2^32 - 1 bytes, and no other, appends one transfer of its bytes from its source to its destination, and its release when synchronous, whatever is queued |
| CommandQueue.NvCommandQueue.BacklogCurrentCmdBuffer | driverapi/src/cmdqueue.cpp:788-819 | a non-empty buffer moves to the backlog with counter and flag; an empty one changes nothing, the flag included |
| CommandQueue.NvCommandQueue.StartExecution | driverapi/src/cmdqueue.cpp:821-868 | submits exactly the list enqueued since the last commence plus the owed releases; buffers and backlog end empty; with a backlog the timeline has reached the counter on return |
| CommandQueue.NvCommandQueue.SignalWaitCpu | driverapi/src/cmdqueue.cpp:334-357 | the CPU wait for a submitted number ends, with the timeline at or past it |
| CommandQueue.NvCommandQueue.AwaitExecution | driverapi/src/cmdqueue.cpp:272-277 | on return the timeline equals the counter, every operation is done and the argument page is free |
| CommandQueue.NvCommandQueue.CommenceAndAwait | driverapi/src/librecuda.cpp:1476-1487 | from any state between calls, a commence and an await leave every operation ever enqueued done, whatever the GPU does in between, and no channel in use; what dangled still dangles, and if nothing did, a copy may follow as well as a launch |
| CommandQueue.NvCommandQueue.SignalWaitGpu | driverapi/src/cmdqueue.cpp:870-894 | an acquire is enqueued unless the CPU already sees the target |
| CommandQueue.NvCommandQueue.RecordEvent | driverapi/src/cmdqueue.cpp:896-926 | an event's first record takes the next free signal, or fails when there is none, and enqueues its release on the current channel |
| CommandQueue.NvCommandQueue.WaitForEvent | driverapi/src/cmdqueue.cpp:928-940 | fails for an event never recorded; otherwise, when it returns, every operation enqueued before the record is done |
| StreamOperands.LaunchEnqueues | driverapi/src/cmdqueue.cpp:697-728 | in every state an accepted launch takes the block at the argument index and appends the start of page + index + bank 0 rounded up to 256 behind its ordering commands |
| StreamOperands.CopyEnqueues | driverapi/src/cmdqueue.cpp:732-786 | in every state a copy is refused exactly for a null address or at least 2^32 - 1 bytes, changing nothing; otherwise the DMA buffer grows by exactly its own transfer and its release when synchronous |
| StreamOperands.StartsItsQmd | driverapi/src/cmdqueue.cpp:674-707 | in a block filled for the launch, the 64 words at the address it starts are its QMD, with the grid's width in bits 384 to 415, and bank 0 of that QMD points at the block |
| StreamOperands.LaunchStatusIs | driverapi/src/cmdqueue.cpp:467-598 | the status of every launch: accepted exactly when argument count, local memory, bank 0, room in the page, the size check, packable parameters and limits are all right, and else the error of the first that is not |
| StreamOperands.GrownIsEnough | driverapi/src/cmdqueue.cpp:403-413 | local memory per thread is afterwards enough for the function, grows only when it was not, and then to the least multiple of 32 |
| StreamOperands.ClusterBytes | driverapi/src/cmdqueue.cpp:414-415 | bytes per cluster are the least multiple of 0x8000 for 96 warps, each of them the least multiple of 0x200 for 32 threads |
| StreamWork.WorkIsRequested | driverapi/src/cmdqueue.cpp:460-868 | in every reachable state all work handed over and all work in backlog and buffers is, in order and with its operands, what the accepted calls asked for |
| StreamWork.NumberCarries | driverapi/src/cmdqueue.cpp:697-786 | at every later point of a run exactly one work item, submitted or queued, has the number an accepted call got, and it carries that call's own source, destination and length, or starts the QMD of that call's own block |
| StreamWork.SubmittedIsFirst | driverapi/src/cmdqueue.cpp:821-868 | the work submitted is that of the operations up to the last submitted number, no less and no more |
| StreamWork.WordsDoWhatWasRequested | driverapi/src/cmdqueue.cpp:61-91 | over every run with such addresses, the words submitted to a channel start the kernels and make the transfers that the calls up to the last submitted number asked for there, in order, and no others |
| PushBuffer.HeaderFields | driverapi/src/cmdqueue.cpp:53-55 | opcode, count, subchannel and address of every in-range header read back |
| PushBuffer.RoundTrip | driverapi/internal/nvidia/clc56f.h:311-317 | the parser splits the words of any sequence of in-range methods back into exactly those methods |
| PushBuffer.ParseConcat | driverapi/src/cmdqueue.cpp:200-218 | a well-formed buffer keeps its reading whatever is appended |
| PushBuffer.StrayHeader | driverapi/src/cmdqueue.cpp:200-218 | the header a refused enqueue leaves behind spoils the buffer unless it promises no arguments |
| CommandBuffers.CommandBuffers.Enqueue | driverapi/src/cmdqueue.cpp:200-218 | appends header and arguments, or the header alone with an error when the count does not match; the other buffer is untouched |
| CommandBuffers.CommandBuffers.SignalNotify | driverapi/src/cmdqueue.cpp:279-332 | appends exactly the words of a release to the named buffer |
| CommandBuffers.CommandBuffers.SignalWaitGpu | driverapi/src/cmdqueue.cpp:870-894 | appends the words of an acquire, or nothing when the value is already seen |
| CommandBuffers.CommandBuffers.EnqueueCopy | driverapi/src/cmdqueue.cpp:746-774 | appends exactly the words of a transfer |
| CommandBuffers.CommandBuffers.EnqueueLaunch | driverapi/src/cmdqueue.cpp:683-714 | appends exactly the words that invalidate the caches and start a QMD |
| CommandBuffers.NotifyKeepsReading | driverapi/src/cmdqueue.cpp:279-332 | a release appended to any well-formed buffer is read after everything else and adds only its own effect |
| CommandBuffers.SetupsHarmless | driverapi/src/cmdqueue.cpp:131-163 | the set-up sequences start, copy, release and acquire nothing |
| CommandBuffers.LocalMemRegisters | driverapi/src/cmdqueue.cpp:431-450 | after the local-memory set-up of a launch the registers 0x790 and 0x794 hold the high and low half of the new memory's address, 0x2e4 and 0x2e8 those of the bytes per cluster |
| CommandBuffers.WindowRegisters | driverapi/src/cmdqueue.cpp:131-163 | after the compute set-up the registers hold the class and the two windows that every block names |
| CommandWords.WordsMean | driverapi/src/cmdqueue.cpp:200-218 | the words of every encodable command list are split into the methods that were written, and running them has exactly the effects of the commands, whatever the registers held |
| CommandWords.CommandMeans | driverapi/internal/nvidia/clc56f.h:207-235 | the same for one command: waiting release, equality acquire, transfer, kernel start |
| CommandWords.CopyReleaseMeans | driverapi/internal/nvidia/clc6b5.h:142-157 | the word 0x14 releases the semaphore with a flush and transfers nothing |
| CommandWords.LaunchMeansIff | driverapi/src/cmdqueue.cpp:683-714 | the words of a launch invalidate all shader caches and then start the QMD that was meant, exactly when its address is 256-aligned and below 2^40 |
| CommandWords.WordsFresh | driverapi/src/cmdqueue.cpp:683-714 | in the words of any command list every kernel start comes right after an invalidation of constant, data and instruction caches |
| CommandWords.FetchRule | driverapi/internal/nvidia/clc56f.h:216-229 | a command, engine bindings included, may be fetched in the GPU model exactly when the effects of its words may happen |
| StreamWords.RunEncoded | driverapi/src/cmdqueue.cpp:200-218 | in every run with page and signal pool below 2^40 and copies below 2^49, everything enqueued and submitted can be encoded |
| StreamWords.SubmittedWordsMean | driverapi/src/cmdqueue.cpp:61-91 | so the words of all that a run submits to a channel are read as exactly the submitted commands |
| Hardware.RunAppend | driverapi/internal/nvidia/clc56f.h:311-317 | running two method lists in a row is running their concatenation |
| Ring.EntryFields | driverapi/internal/nvidia/clc56f.h:267-281 | address, length, level and sync of every in-range ring entry read back |
| Ring.GpFifo.SubmitToFifo | driverapi/src/cmdqueue.cpp:61-91 | refused exactly when the words do not fit behind the write index and would meet the oldest outstanding submission at the start of the page; otherwise they lie at the write index, or at 0 if they do not fit there. Every outstanding entry keeps decoding to a region that holds its words, regions stay disjoint, and their order is kept or wraps once |
| Ring.RefusedIff | driverapi/src/cmdqueue.cpp:71-77 | for any outstanding list and any words: where they go, and exactly when they go nowhere |
| Ring.GpFifo.Fetch | driverapi/internal/nvidia/clc56f.h:267-281 | what the entry at GPGet names is exactly the words of the oldest submission |
| ChannelWords.WordChannel.Submit | driverapi/src/cmdqueue.cpp:61-91 | an accepted submission adds its commands, as words, to what the channel holds; a refused one adds nothing |
| ChannelWords.WordChannel.Fetch | driverapi/internal/nvidia/clc56f.h:267-281 | all words fetched so far are exactly the words of the commands taken, in order |
| ChannelWords.ReceivedIsFetched | driverapi/src/cmdqueue.cpp:61-91 | over a run, those commands are a first part of what was submitted to the channel, and when that is what the GPU model has fetched, the words received are the words of exactly those commands |
| Ring.GpFifo.Drained | driverapi/src/cmdqueue.cpp:71-76 | GPGet equals GPPut exactly when nothing is outstanding |
| Ring.NextLapIff | driverapi/src/cmdqueue.cpp:71-82 | for any outstanding list behind one wrap that did not wait, the next words are placed unchecked and miss all of it exactly when they end before the oldest submission begins |
| Qmd.ReadsBack | driverapi/internal/nvidia/nvmisc.h:389-431 | the set macro stores the value cut to the field's width |
| Qmd.OthersKeep | driverapi/internal/nvidia/nvmisc.h:389-431 | and leaves every other field alone |
| Qmd.FieldHolds | driverapi/internal/nvidia/clc6c0qmd.h:33-42 | after any sequence of writes a field holds the last value written to it, or zero |
| QmdLaunch.NamesSeparate | driverapi/internal/nvidia/clc6c0qmd.h:484-710 | no two fields a launch sets share a bit |
| QmdLaunch.NamedFieldHolds | driverapi/src/cmdqueue.cpp:601-680 | every named field of a QMD built by any named writes holds the last value written under its name |
| QmdLaunch.FixedFieldsHold | driverapi/src/cmdqueue.cpp:606-656 | every field outside the constant banks holds the value written under its name, cut to its width, in the finished QMD; QmdFields.FieldsShow gives positions and values |
| QmdFields.FieldsShow | driverapi/src/cmdqueue.cpp:606-656 | all thirty fields of the finished QMD by their bit positions in its 64 words and by the launch's own grid, block, sizes and addresses |
| QmdFields.BankShows | driverapi/src/cmdqueue.cpp:658-672 | the valid bit, size and, but for bank 0, address of a bank by bit positions: those of the last entry for it |
| QmdFields.AbsentBankShows | driverapi/src/cmdqueue.cpp:658-672 | a bank without an entry shows zero in valid bit and size |
| QmdFields.ArgumentsShow | driverapi/src/cmdqueue.cpp:674-678 | bits 1024 to 1055 and 1056 to 1072 hold the argument pointer |
| QmdLaunch.ArgumentsAreBankZero | driverapi/src/cmdqueue.cpp:674-678 | constant buffer 0's address is the argument pointer whatever the list of constants says |
| QmdLaunch.BanksHold | driverapi/src/cmdqueue.cpp:658-672 | a bank is valid exactly when the list has an entry for it, and then has the last entry's size and, but for bank 0, address |
| QmdLaunch.UnwrittenBits | driverapi/src/cmdqueue.cpp:601-602 | a bit outside all named fields stays zero |
| QmdLaunch.AssembleQmd | driverapi/src/cmdqueue.cpp:601-680 | the array built in place is the QMD whose bits the lemmas of QmdFields give |
| Memory.Context.BumpAllocVirtualAddr | driverapi/src/librecuda.cpp:256-265 | the address is the first multiple of the alignment at or above the old position |
| Memory.Context.GpuAlloc | driverapi/src/librecuda.cpp:688-736 | success adds one page-aligned live range, with its index entry when CPU-mapped; a failure changes neither map nor live ranges and leaves a leaked index entry exactly when the CPU mapping is what failed |
| Memory.Context.GpuSystemAlloc | driverapi/src/librecuda.cpp:778-819 | the range is page-aligned and meets no live allocation |
| Memory.Context.GpuFree | driverapi/src/librecuda.cpp:752-776 | removes exactly the named allocation and its index entry, or fails without a change |
| Memory.Context.EraseEntry | driverapi/src/librecuda.cpp:767-774 | the reverse search takes out the last entry that holds the address |
| Memory.FreeKeepsIndex | driverapi/src/librecuda.cpp:767-774 | after a free the index is again the sorted list of live CPU-mapped ranges |
| Memory.Context.IsHostMappedPtr | driverapi/src/librecuda.cpp:838-862 | the early-exit search answers true exactly when a live CPU-mapped range, or one leaked by a failed mapping, holds the address |
| Memory.Context.IsDevicePtr | driverapi/src/librecuda.cpp:821-836 | true exactly below the next address and above the heap start, hence for every live address |
| Image.PaddingIff | driverapi/src/librecuda.cpp:985-987 | the padding reaches a multiple of the alignment exactly when nothing wraps or the alignment divides 2^64 |
| Image.BothAligned | driverapi/src/librecuda.cpp:985 | a multiple of the larger alignment is a multiple of the section's own and of 128 |
| Image.FixedEnd | driverapi/src/librecuda.cpp:964-973 | the reserved size is the largest end of a section with an address |
| Image.Rebuild | driverapi/src/librecuda.cpp:959-1004 | for any sections, the loop leaves every program section's bytes at its final address unless a later fixed one lies over them, fixed ones in place and the others appended in order and aligned |
| Image.RebuiltLayout | driverapi/src/librecuda.cpp:959-1004 | so, when fixed sections do not meet, all program sections are readable at their final addresses, appended ones are aligned, and none overlaps another |
| Relocations.Collect | driverapi/src/librecuda.cpp:1060-1111 | each entry becomes target offset plus entry offset and symbol's section address plus value; a bad symbol index fails |
| Relocations.ApplyRelocations | driverapi/src/librecuda.cpp:1354-1373 | every window that no later one meets holds its address part, every byte outside the windows is unchanged, and it fails exactly when an offset lies outside the image |
| Relocations.PatchedAddress | driverapi/src/librecuda.cpp:1354-1373 | a patch of kind 0x2 reads back as base plus symbol offset; one of kind 0x38 and one of 0x39 recombine to it, low and high half, each four bytes behind its offset |
| Relocations.PointsAtSymbol | driverapi/src/librecuda.cpp:1078-1107 | in the rebuilt image that offset is where the symbol's own byte lies |
| KernelInfo.WalkSection | driverapi/src/librecuda.cpp:1192-1288 | for every section made of parameters (index, offset), totals and passed-over attributes, ended in one of the three ways, the loop returns exactly those parameters in order and the last total; on any section it follows the walk and fails at an unknown attribute |
| KernelInfo.WalkGathers | driverapi/src/librecuda.cpp:1192-1288 | the walk over any list of known attributes is the fold over the list, whichever way it ends |
| KernelInfo.WalkFinds | driverapi/src/librecuda.cpp:1192-1288 | from any list of parameters with index and offset below 2^16, the index in the low half of the third word and the offset in the high half, in any mixture with totals and other attributes of the known lengths, the walk returns exactly that list and the last total |
| KernelInfo.WalkFails | driverapi/src/librecuda.cpp:1192-1288 | after any such attributes an attribute of another kind fails |
| KernArgs.DeriveSizes | driverapi/src/librecuda.cpp:1304-1314 | each parameter gets the distance to the next offset, or to the total, in 16 bits |
| KernArgs.SortUnique | driverapi/src/librecuda.cpp:1296-1302 | with distinct indices sorting has only one result |
| KernArgs.SizesTelescope | driverapi/src/librecuda.cpp:1304-1314 | the derived sizes sum to the next offset and to the total |
| KernArgs.PackOne | driverapi/src/cmdqueue.cpp:535-577 | one parameter becomes its little-endian words, zero-extended when short, or is refused |
| KernArgs.Pack | driverapi/src/cmdqueue.cpp:533-579 | the loop leaves the words of all parameters in a row and touches nothing else; it fails exactly on an unpackable size |
| KernArgs.AgreeIff | driverapi/src/cmdqueue.cpp:533-579 | every parameter lands at its declared offset exactly when all offsets are multiples of four |
| KernArgs.PackedBytes | driverapi/src/cmdqueue.cpp:528-579 | then byte k of parameter i lies at offset i plus k |
| LaunchBlock.FillBlock | driverapi/src/cmdqueue.cpp:489-531 | the QMD ends up in the block, and around it every word of driver constants and parameters, all of them when bank 0 covers them; with a bank 0 that is not empty words 0 to 2 are the block's dimensions, 3 to 5 the grid's, 6 and 7 the shared window, 8 and 9 the local window, 10 0xfffdc0 and the rest zero |
| LaunchBlock.Offsets | driverapi/src/cmdqueue.cpp:516-519 | the QMD lies at the first multiple of 256 that is no less than the size of bank 0, and the block ends 2048 bytes behind that |
| LaunchBlock.ClearOfQmdIff | driverapi/src/cmdqueue.cpp:529-531 | what passes the size check misses the QMD exactly when 352 bytes and the parameter sizes, each rounded up to words, fit into bank 0 rounded up |
| LaunchBlock.ParametersClearIff | driverapi/src/cmdqueue.cpp:529-531 | the same for the parameter words alone |
| LaunchBlock.InsideBlockIff | driverapi/src/cmdqueue.cpp:529-531 | and its parameter words stay inside the block exactly when 352 bytes and those sizes fit the block |
| LaunchBlock.CheckKeepsInside | driverapi/src/cmdqueue.cpp:529-531 | which the check guarantees as long as no parameter is longer than 8 bytes |
| LaunchBlock.ArrayRunsPast | driverapi/src/cmdqueue.cpp:529-531 | one array of 8192 bytes passes the check and runs past the block |
| LaunchBlock.DeclaredBankCovers | driverapi/src/cmdqueue.cpp:529-531 | a bank that is as large as constants plus parameters keeps them clear of the QMD |
| LaunchBlock.CheckTooWeak | driverapi/src/cmdqueue.cpp:529-531 | thirty pointers with a bank of 352 bytes pass the check and reach the QMD |
| MemCopy.MemcpyD2D | driverapi/src/memcopy.cpp:77-158 | the calls copy every byte of the request, at one displacement and inside it exactly as long as the first grid needs one row; the first is the only synchronous one, and a refused launch ends the call |
| MemCopy.HeldBackByFirst | driverapi/src/memcopy.cpp:84-111 | later asynchronous kernels must follow the copy's first kernel and no other of it |
| MemCopy.AnyInterleavingCopies | driverapi/src/memcopy.cpp:84-86 | however the bytes of the kernels interleave, the destination ends as the source was and nothing else changes |

## Left out

- CommandQueue.NvCommandQueue.GpuMemcpy: asks that no acquire without a launch is unfetched when the copy is acceptable; without that the code accepts the call and may hang later, exactly as StreamDeadlock.CopyStrandsIff says. `Stream.CopyNext` and the safety results carry no such condition. It also asks that the copy may follow what is in use: after commenced, unawaited kernels with nothing queued behind them it does not, although the code accepts it; StreamOvertake.CopyPromiseIff says what happens then.
- CommandQueue.NvCommandQueue.AwaitExecution: asks that everything enqueued was commenced; StreamProgress.AwaitEndsIff shows that the source's wait never ends otherwise.
- CommandQueue.NvCommandQueue.LaunchFunction: asks that the launch may follow what is in use: after commenced, unawaited copies with nothing queued behind them it does not, although the code accepts it and StreamLaunches.LaunchPromiseIff shows that synchronous and refused launches are safe there; runs that go on from such calls are not part of the main results. It also asks for a counter below 2^32; the 32-bit wrap of the timeline is not modelled.
- CommandQueue.NvCommandQueue.WaitForEvent: asks that the record was commenced; the source's wait for an event that is only enqueued does not end until someone commences it.
- CommandQueue.NvCommandQueue.RecordEvent: covers an event's first record; the code does not reset a signal on a second one.
- CommandQueue.NvCommandQueue.InitializeQueue: takes the argument page, 256-aligned by `Memory.Context.GpuAlloc`, from its caller; its allocations are taken to succeed.
- CommandQueue.NvCommandQueue.SubmitToFifo: hands commands, not words, to the channel and cannot be refused; words, page and ring are the subject of CommandWords and Ring.
- Ring.GpFifo.SubmitToFifo: asks for fewer outstanding entries than the ring holds and, behind a wrap that did not wait, for words that end before the oldest submission begins; the source checks neither.
- Relocations.Collect: asks that a symbol's section index names a section, as for every defined symbol; the source reads through a null section otherwise.
- Relocations.ApplyRelocations: asks for windows inside the image; the source checks only their first offset and writes past the end otherwise.
- LaunchBlock.FillBlock: asks that constants and parameters fit the block; the source writes past it otherwise.
- MemCopy.MemcpyD2D: the kernels' code is not part of this model; they are taken to copy the range their grid and arguments name.
- KernelInfo.WalkSection: for sections the walk does not run out of.
- Several streams or contexts, which share the rings and the index of mapped ranges.
- Kernel-driver calls, memory mapping, device discovery, context creation: their results are parameters.
- ELF parsing and symbol names: sections, symbols and relocation entries are given.
- The CPU's code between two points the GPU can see is one step; memory ordering between CPU and GPU is not modelled.
- Failures of a submission in the middle of a commence, and releasing signals.
- Sizes of shader-local memory are not cut to 32 bits; the source computes bytes per warp in 32 bits, which differs from 2^27 bytes per thread on.
- Launch-limit checks and the choice of the shared-memory configuration, which are parameters of a launch.
- Spinning against yielding, time stamps, elapsed time, status names: no property of interest.
