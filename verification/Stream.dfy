/** The stream engine as a transition system: the host state of one NvCommandQueue, a
    GPU with an in-order COMPUTE channel and an in-order DMA channel, and the steps that
    the client, the CPU side of the driver and the GPU can take. */
module Stream {
  import opened Results
  import opened Bits
  import opened Commands
  import KernArgs

  const KERNARGS_PAGE_SIZE: nat := 16 * 1024 * 1024
  const QMD_RESERVE: nat := 2048
  const CONSTBUF0_BYTES: nat := 352
  const TIMELINE: nat := 0            // index of the timeline signal in the signal pool
  const MAX_SIGNAL_POOL_SIZE: nat := 65536

  // ------------------------------------------------------------------ host

  /** The current queue type; it has no defined value before the first operation. */
  datatype Mode = Unset | Mode(kind: Kind)

  datatype Split = Split(buf: seq<Command>, kind: Kind, ctr: nat, owes: bool)

  datatype Host = Host(
    compute: seq<Command>,
    dma: seq<Command>,
    backlog: seq<Split>,
    mode: Mode,
    ctr: nat,
    pending: bool,
    argsIdx: nat,
    slm: nat,
    free: seq<nat>,
    page: nat
  )

  function Buf(h: Host, k: Kind): seq<Command> {
    if k == Compute then h.compute else h.dma
  }

  function WithBuf(h: Host, k: Kind, b: seq<Command>): Host {
    if k == Compute then h.(compute := b) else h.(dma := b)
  }

  // ------------------------------------------------------------------- gpu

  /** One channel: commands not yet fetched, work started and not finished, and every
      command fetched so far. */
  datatype Channel = Channel(fifo: seq<Command>, running: set<nat>, fetched: seq<Command>)

  datatype Gpu = Gpu(
    compute: Channel,
    dma: Channel,
    last: nat,                 // number of the last work item fetched
    done: set<nat>,            // numbers of the finished work items
    signals: map<nat, nat>     // the signal pool; memory starts out as zero
  )

  function Ch(g: Gpu, k: Kind): Channel {
    if k == Compute then g.compute else g.dma
  }

  function WithCh(g: Gpu, k: Kind, c: Channel): Gpu {
    if k == Compute then g.(compute := c) else g.(dma := c)
  }

  function Val(g: Gpu, sig: nat): nat {
    if sig in g.signals then g.signals[sig] else 0
  }

  datatype GpuAction = Fetch(kind: Kind) | Finish(kind: Kind, op: nat)

  /** When the head of a channel may execute. Kernels start without waiting for earlier
      kernels; a non-pipelined transfer waits for earlier transfers; a release waits until
      all work of its channel is idle; an acquire waits for equality. */
  predicate HeadEnabled(g: Gpu, k: Kind, c: Command) {
    match c
    case Bind(_, _) => true
    case Launch(_, _) => true
    case Copy(_, _, _, _) => Ch(g, k).running == {}
    case Setup(_) => true
    case Release(_, _) => Ch(g, k).running == {}
    case Acquire(sig, v) => Val(g, sig) == v
  }

  predicate GpuEnabled(g: Gpu, a: GpuAction) {
    match a
    case Fetch(k) => Ch(g, k).fifo != [] && HeadEnabled(g, k, Ch(g, k).fifo[0])
    case Finish(k, op) => op in Ch(g, k).running
  }

  function Fetched(g: Gpu, k: Kind): Gpu
    requires Ch(g, k).fifo != []
  {
    var ch := Ch(g, k);
    var c := ch.fifo[0];
    var popped := ch.(fifo := ch.fifo[1..], fetched := ch.fetched + [c]);
    if c.IsWork() then
      WithCh(g, k, popped.(running := ch.running + {c.op})).(last := c.op)
    else if c.Release? then
      WithCh(g, k, popped).(signals := g.signals[c.sig := c.value])
    else
      WithCh(g, k, popped)
  }

  function GpuNext(g: Gpu, a: GpuAction): Gpu
    requires GpuEnabled(g, a)
  {
    match a
    case Fetch(k) => Fetched(g, k)
    case Finish(k, op) =>
      WithCh(g, k, Ch(g, k).(running := Ch(g, k).running - {op})).(done := g.done + {op})
  }

  // --------------------------------------------------------------- history

  /** What the client asked for, by timeline number; args are the kernel-argument block. */
  datatype Op = Op(kind: Kind, sync: bool, lo: nat, size: nat)

  datatype History = History(
    ops: seq<Op>,               // ops[n-1] is the operation numbered n
    recorded: map<nat, nat>,    // event signal -> timeline counter when it was recorded
    log: seq<Tagged>,           // commands enqueued since the last commence
    submitted: seq<Tagged>,     // commands handed to the channels, in order
    active: Mode,               // the channel that may still hold unfinished work
    sub: nat,                   // number of the last operation submitted
    base: nat,                  // timeline counter at the last await
    dangling: bool              // the last acquire enqueued has no launch behind it
  )

  /** The CPU is outside the queue, or inside the split loop of startExecution waiting for
      the split with this index. */
  datatype Phase = Idle | Draining(i: nat)

  datatype State = State(host: Host, gpu: Gpu, hist: History, phase: Phase)

  /** Whether an acquire with no later work item remains at the end of a command list. */
  function Dangle(cmds: seq<Command>, d: bool): bool {
    if cmds == [] then d
    else Dangle(cmds[1..], if cmds[0].Acquire? then true else if cmds[0].IsWork() then false else d)
  }

  // ------------------------------------------- building blocks of the host

  /** enqueue: append to a command buffer. */
  function Enqueue(s: State, k: Kind, cmds: seq<Command>): State {
    s.(host := WithBuf(s.host, k, Buf(s.host, k) + cmds),
       hist := s.hist.(log := s.hist.log + Tag(k, cmds),
                       dangling := if k == Compute then Dangle(cmds, s.hist.dangling) else s.hist.dangling))
  }

  /** backlogCurrentCmdBuffer. */
  function Backlogged(h: Host, k: Kind): Host {
    if Buf(h, k) == [] then h
    else WithBuf(h, k, []).(backlog := h.backlog + [Split(Buf(h, k), k, h.ctr, h.pending)], pending := false)
  }

  /** The queue-kind switch at the head of launchFunction and gpuMemcpy. */
  function SwitchedHost(h: Host, k: Kind): Host {
    var h1 := if Buf(h, k.Other()) == [] then h.(mode := Mode(k)) else h;
    if h1.mode == Mode(k.Other()) then Backlogged(h1, k.Other()).(mode := Mode(k)) else h1
  }

  function Switched(s: State, k: Kind): State {
    s.(host := SwitchedHost(s.host, k))
  }

  /** Hand a command list to a channel; `upto` is the number of its last operation. */
  function Submitted(s: State, k: Kind, cmds: seq<Command>, upto: nat): State {
    var ch := Ch(s.gpu, k);
    s.(gpu := WithCh(s.gpu, k, ch.(fifo := ch.fifo + cmds)),
       hist := s.hist.(submitted := s.hist.submitted + Tag(k, cmds), active := Mode(k), sub := upto))
  }

  /** The release that startExecution appends to a split whose pending flag is set. */
  function Owed(ctr: nat, owes: bool): seq<Command> {
    if owes then [Release(TIMELINE, ctr)] else []
  }

  function Full(sp: Split): seq<Command> {
    sp.buf + Owed(sp.ctr, sp.owes)
  }

  /** Number, enqueue and, when synchronous, release one accepted operation. */
  function Accepted(s: State, k: Kind, c: Command, op: Op): State
    requires c.IsWork()
  {
    var n := s.host.ctr + 1;
    var s1 := s.(host := s.host.(ctr := n), hist := s.hist.(ops := s.hist.ops + [op]));
    var s2 := Enqueue(s1, k, if op.sync then [c, Release(TIMELINE, n)] else [c]);
    s2.(host := s2.host.(pending := !op.sync))
  }

  // ---------------------------------------------------------------- launch

  /** What launchFunction reads from a function object: the derived parameter sizes, the
      local memory requirement and the sizes of its constant banks, bank 0 first. */
  datatype Kernel = Kernel(paramSizes: seq<nat>, localMem: nat, constants: seq<nat>)

  /** A call of launchFunction. `slm` is the outcome of the shader-local-memory allocation if
      one is needed; `fits` is the outcome of the launch-limit checks. */
  datatype LaunchReq = LaunchReq(kernel: Kernel, numParams: nat, slm: LocalMem, fits: bool, sync: bool)

  /** How getting more shader-local memory turns out: the function's old memory is not an allocation
      (any more), or is not released, or there is no new memory, or it lies at some address. */
  datatype LocalMem = Stale | NotReleased | NotAllocated | At(va: nat)

  function BlockSize(const0: nat): nat {
    RoundUp(const0, 256) + QMD_RESERVE
  }

  predicate NeedsLocalMem(h: Host, r: LaunchReq) {
    r.kernel.localMem > h.slm
  }

  function GrownSlm(h: Host, r: LaunchReq): Host {
    if NeedsLocalMem(h, r) then h.(slm := RoundUp(r.kernel.localMem, 32)) else h
  }

  predicate LocalMemFails(h: Host, r: LaunchReq) {
    NeedsLocalMem(h, r) && !r.slm.At?
  }

  function LocalMemStatus(r: LaunchReq): Status {
    match r.slm
    case Stale => InvalidValue
    case NotReleased => Unknown
    case NotAllocated => Unknown
    case At(_) => Success
  }

  /** The new size is noted before the new memory is asked for. */
  function LocalMemRefused(h: Host, r: LaunchReq): Host {
    if r.slm.NotAllocated? then GrownSlm(h, r) else h
  }

  function BytesPerTpc(perThread: nat): nat {
    RoundUp(RoundUp(perThread * 32, 0x200) * 48 * 2, 0x8000)
  }

  function LocalMemSetup(va: nat, bytesPerTpc: nat): seq<Method> {
    [Method(1, 0x790, [Hi(va), Lo(va)]),
     Method(1, 0x2e4, [Hi(bytesPerTpc), Lo(bytesPerTpc), 0x40])]
  }

  function LocalMemCommand(r: LaunchReq): Command {
    Setup(LocalMemSetup(if r.slm.At? then r.slm.va else 0, BytesPerTpc(RoundUp(r.kernel.localMem, 32))))
  }

  /** ensureEnoughLocalMem, once the allocation has succeeded. */
  function WithLocalMem(s: State, r: LaunchReq): State {
    if NeedsLocalMem(s.host, r) then Enqueue(s.(host := GrownSlm(s.host, r)), Compute, [LocalMemCommand(r)]) else s
  }

  /** A synchronous launch first releases the pending operation ... */
  function Flushed(s: State): State {
    if s.host.pending then
      var s1 := Enqueue(s, Compute, [Release(TIMELINE, s.host.ctr)]);
      s1.(host := s1.host.(pending := false))
    else s
  }

  /** ... and then waits for it, unless the CPU already sees the timeline at its target. */
  function WaitedGpu(s: State): State {
    if Val(s.gpu, TIMELINE) == s.host.ctr then s
    else Enqueue(s, Compute, [Acquire(TIMELINE, s.host.ctr)])
  }

  function Ordered(s: State, sync: bool): State {
    if sync then WaitedGpu(Flushed(s)) else s
  }

  function AllocatedArgs(h: Host, r: LaunchReq): bool {
    r.kernel.constants != [] && h.argsIdx + BlockSize(r.kernel.constants[0]) <= KERNARGS_PAGE_SIZE
  }

  function WithArgs(s: State, r: LaunchReq): State {
    if AllocatedArgs(s.host, r) then s.(host := s.host.(argsIdx := s.host.argsIdx + BlockSize(r.kernel.constants[0])))
    else s
  }

  /** The outcome of the checks that follow the queue switch and the ordering commands. */
  function Verdict(h: Host, r: LaunchReq): Status {
    if r.kernel.constants == [] then InvalidImage
    else
      var size := BlockSize(r.kernel.constants[0]);
      if h.argsIdx + size > KERNARGS_PAGE_SIZE then OutOfResources
      else if CONSTBUF0_BYTES >= size then InvalidImage
      else if CONSTBUF0_BYTES + r.numParams * 8 >= size then InvalidImage
      else if exists p | p in r.kernel.paramSizes :: !KernArgs.SizeOk(p) then InvalidValue
      else if !r.fits then OutOfResources
      else Success
  }

  function LaunchOp(h: Host, r: LaunchReq): Op
    requires r.kernel.constants != []
  {
    Op(Compute, r.sync, h.argsIdx, BlockSize(r.kernel.constants[0]))
  }

  function QmdAddr(h: Host, r: LaunchReq): nat
    requires r.kernel.constants != []
  {
    h.page + h.argsIdx + RoundUp(r.kernel.constants[0], 256)
  }

  /** The state when the argument block is about to be allocated. */
  function LaunchPrefix(s: State, r: LaunchReq): State {
    Ordered(WithLocalMem(Switched(s, Compute), r), r.sync)
  }

  function LaunchStatus(s: State, r: LaunchReq): Status {
    if r.numParams != |r.kernel.paramSizes| then InvalidValue
    else if LocalMemFails(s.host, r) then LocalMemStatus(r)
    else Verdict(s.host, r)
  }

  /** launchFunction from the ordering commands on. */
  function LaunchDecided(s: State, r: LaunchReq): State {
    var s1 := WithArgs(LaunchPrefix(s, r), r);
    if Verdict(s.host, r) != Success then s1
    else Accepted(s1, Compute, Launch(s.host.ctr + 1, QmdAddr(s.host, r)), LaunchOp(s.host, r))
  }

  /** launchFunction. */
  function LaunchNext(s: State, r: LaunchReq): State {
    if r.numParams != |r.kernel.paramSizes| then s
    else if LocalMemFails(s.host, r) then s.(host := LocalMemRefused(SwitchedHost(s.host, Compute), r))
    else LaunchDecided(s, r)
  }

  // ------------------------------------------------------------------ copy

  datatype CopyReq = CopyReq(dst: nat, src: nat, len: nat, sync: bool)

  function CopyStatus(r: CopyReq): Status {
    if r.dst == 0 || r.src == 0 || r.len >= U32 - 1 then InvalidValue else Success
  }

  /** gpuMemcpy. */
  function CopyNext(s: State, r: CopyReq): State {
    if CopyStatus(r) != Success then s
    else Accepted(Switched(s, Dma), Dma, Copy(s.host.ctr + 1, r.src, r.dst, r.len), Op(Dma, r.sync, 0, 0))
  }

  // ---------------------------------------------------------------- events

  /** The kind of the command buffer that recordEvent writes to. */
  function RecordKind(h: Host): Kind {
    if h.mode.Unset? then Compute else h.mode.kind
  }

  /** The release that raises signal sig, enqueued on channel k. */
  function Recorded(s: State, sig: nat, k: Kind): State {
    var s1 := Enqueue(s, k, [Release(sig, 1)]);
    s1.(host := s1.host.(mode := Mode(k)), hist := s1.hist.(recorded := s.hist.recorded[sig := s.host.ctr]))
  }

  /** recordEvent for an event that was never recorded before. */
  function RecordNext(s: State): State {
    if s.host.free == [] then s
    else Recorded(s.(host := s.host.(free := s.host.free[1..])), s.host.free[0], RecordKind(s.host))
  }

  // -------------------------------------------------------------- commence

  function Cleared(h: Host, k: Kind): Host {
    WithBuf(h, k, [])
  }

  /** startExecution with an empty backlog: submit the one buffer that can hold commands. */
  function CommenceSingleNext(s: State): State {
    var s0 := s.(hist := s.hist.(log := []));
    if s.host.mode.Unset? then s0.(host := s.host.(pending := false))
    else
      var k := s.host.mode.kind;
      var cmds := Buf(s.host, k) + Owed(s.host.ctr, s.host.pending);
      var s1 := s0.(host := Cleared(s.host, k).(pending := false));
      if cmds == [] then s1 else Submitted(s1, k, cmds, s.host.ctr)
  }

  function SubmitSplit(s: State, i: nat): State
    requires i < |s.host.backlog|
  {
    var sp := s.host.backlog[i];
    Submitted(s, sp.kind, Full(sp), sp.ctr).(phase := Draining(i))
  }

  /** startExecution with a backlog, up to the first CPU wait. */
  function CommenceBacklogNext(s: State): State
    requires s.host.backlog != []
  {
    var h := Backlogged(Backlogged(s.host, Compute), Dma);
    var s1 := s.(host := h, hist := s.hist.(log := []));
    SubmitSplit(s1, 0)
  }

  /** The rest of one loop iteration after the CPU wait for split i has ended. */
  function DrainNext(s: State): State
    requires s.phase.Draining?
  {
    var i := s.phase.i + 1;
    if i < |s.host.backlog| then SubmitSplit(s, i)
    else s.(host := s.host.(backlog := []), hist := s.hist.(active := Unset), phase := Idle)
  }

  /** awaitExecution, once its CPU wait has ended. */
  function AwaitNext(s: State): State {
    s.(host := s.host.(argsIdx := 0), hist := s.hist.(active := Unset, base := s.host.ctr))
  }

  /** One of the two set-up submissions of initializeQueue. */
  function BindNext(s: State, k: Kind, methods: seq<Method>): State {
    var n := s.host.ctr + 1;
    var s1 := s.(host := s.host.(ctr := n), hist := s.hist.(ops := s.hist.ops + [Op(k, true, 0, 0)]));
    Submitted(s1, k, [Bind(n, methods), Release(TIMELINE, n)], n)
  }

  // ----------------------------------------------------------- transitions

  datatype Step =
    | LaunchStep(launch: LaunchReq)
    | CopyStep(copy: CopyReq)
    | RecordStep
    | CommenceSingleStep
    | CommenceBacklogStep
    | DrainStep
    | AwaitStep
    | BindStep(kind: Kind, methods: seq<Method>)
    | GpuStep(act: GpuAction)

  /** What the code itself requires for a step to happen. */
  predicate Enabled(s: State, st: Step) {
    match st
    case LaunchStep(_) => s.phase.Idle? && s.host.ctr + 1 < U32
    case CopyStep(_) => s.phase.Idle? && s.host.ctr + 1 < U32
    case RecordStep => s.phase.Idle?
    case CommenceSingleStep => s.phase.Idle? && s.host.backlog == []
    case CommenceBacklogStep => s.phase.Idle? && s.host.backlog != []
    case DrainStep =>
      s.phase.Draining? && s.phase.i < |s.host.backlog|
      && Val(s.gpu, TIMELINE) >= s.host.backlog[s.phase.i].ctr
    case AwaitStep => s.phase.Idle? && Val(s.gpu, TIMELINE) >= s.host.ctr
    case BindStep(_, _) =>
      s.phase.Idle? && s.host.mode.Unset? && s.hist.active.Unset? && s.host.ctr + 1 < U32
    case GpuStep(a) => GpuEnabled(s.gpu, a)
  }

  /** Whether work of kind k may be enqueued now. It may not when work of the other kind is in use by a
      channel and nothing of it is left in the queue: what is left would be submitted, and waited
      for, before the new work. */
  predicate MayFollow(host: Host, h: History, k: Kind) {
    h.active != Mode(k.Other()) || Buf(host, k.Other()) != [] || host.backlog != []
  }

  /** The client's side of the contract: to await work of one kind, commenced alone, before enqueuing
      work of the other kind right behind it; and to make no call before initializeQueue has awaited
      its own submissions. */
  predicate Disciplined(s: State, st: Step) {
    match st
    case LaunchStep(_) => MayFollow(s.host, s.hist, Compute)
    case CopyStep(_) => MayFollow(s.host, s.hist, Dma)
    case RecordStep => s.host.mode.Unset? ==> s.hist.active.Unset?
    case _ => true
  }

  function Next(s: State, st: Step): State
    requires Enabled(s, st)
  {
    match st
    case LaunchStep(r) => LaunchNext(s, r)
    case CopyStep(r) => CopyNext(s, r)
    case RecordStep => RecordNext(s)
    case CommenceSingleStep => CommenceSingleNext(s)
    case CommenceBacklogStep => CommenceBacklogNext(s)
    case DrainStep => DrainNext(s)
    case AwaitStep => AwaitNext(s)
    case BindStep(k, ms) => BindNext(s, k, ms)
    case GpuStep(a) => s.(gpu := GpuNext(s.gpu, a))
  }

  function InitialFree(): (r: seq<nat>)
    ensures |r| == MAX_SIGNAL_POOL_SIZE - 1
    ensures forall i | 0 <= i < |r| :: r[i] == i + 1
  {
    seq(MAX_SIGNAL_POOL_SIZE - 1, i requires 0 <= i => i + 1)
  }

  predicate Initial(s: State) {
    && s.host.compute == [] && s.host.dma == [] && s.host.backlog == []
    && s.host.mode == Unset && s.host.ctr == 0 && !s.host.pending
    && s.host.argsIdx == 0 && s.host.slm == 0 && s.host.free == InitialFree()
    && s.host.page % 256 == 0
    && s.gpu == Gpu(Channel([], {}, []), Channel([], {}, []), 0, {}, map[])
    && s.hist == History([], map[], [], [], Unset, 0, 0, false)
    && s.phase == Idle
  }
}
