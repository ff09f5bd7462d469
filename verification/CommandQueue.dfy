/** The imperative NvCommandQueue. Its methods update the fields of the source's class in the
    source's order; a ghost run records the transitions they amount to, interleaved with the
    GPU's, so that everything proved about runs holds of the class. */
module CommandQueue {
  import opened Results
  import opened Bits
  import opened Commands
  import opened Stream
  import opened StreamFlow
  import opened StreamSafety
  import opened StreamSteps
  import opened StreamRuns
  import opened StreamLog
  import opened StreamProgress
  import opened StreamEvents
  import StreamOperands
  import LaunchBlock
  import KernArgs

  /** An event: the signals it was recorded with. */
  class LibreCUEvent {
    var computeSignal: Option<nat>
    var dmaSignal: Option<nat>

    constructor ()
      ensures computeSignal == None && dmaSignal == None
    {
      computeSignal, dmaSignal := None, None;
    }
  }

  lemma EnqueueTwice(s: State, k: Kind, a: Command, b: Command)
    ensures Enqueue(Enqueue(s, k, [a]), k, [b]) == Enqueue(s, k, [a, b])
  {
    assert Buf(s.host, k) + [a] + [b] == Buf(s.host, k) + [a, b];
    TagAppend(k, [a], [b]);
    assert [a] + [b] == [a, b];
    assert s.hist.log + Tag(k, [a]) + Tag(k, [b]) == s.hist.log + Tag(k, [a, b]);
    DangleAppend([a], [b], s.hist.dangling);
  }

  // -------------------------------------------------------------- engine binding

  function Numbered(s: State, k: Kind): State {
    s.(host := s.host.(ctr := s.host.ctr + 1), hist := s.hist.(ops := s.hist.ops + [Op(k, true, 0, 0)]))
  }

  function BindCommands(n: nat, methods: seq<Method>): seq<Command> {
    [Bind(n, methods), Release(TIMELINE, n)]
  }

  lemma BindSubmits(s: State, k: Kind, methods: seq<Method>, pushed: State, s': State)
    requires s.host.compute == [] && s.host.dma == []
    requires pushed == Enqueue(Numbered(s, k), k, BindCommands(s.host.ctr + 1, methods))
    requires var t := Submitted(pushed.(host := Cleared(pushed.host, k)), k, Buf(pushed.host, k), pushed.host.ctr);
             s' == t.(hist := t.hist.(log := s.hist.log, dangling := s.hist.dangling))
    ensures s' == BindNext(s, k, methods)
  {
  }

  // ----------------------------------------------- the split loop of startExecution

  lemma Commencing(s: State, t: State)
    requires Safe(s) && s.phase.Idle? && s.host.backlog != []
    requires t == s.(host := Backlogged(Backlogged(s.host, Compute), Dma), hist := s.hist.(log := []))
    ensures t.host.compute == [] && t.host.dma == [] && t.host.backlog != [] && t.host.backlog == Splits(s)
    ensures t.host.ctr == s.host.ctr == t.host.backlog[|t.host.backlog| - 1].ctr
    ensures forall i | 0 <= i < |t.host.backlog| :: t.host.backlog[i].buf != []
  {
    hide GpuSafe, OrderSafe, EventSafe, SignalsSafe, ArgsSafe, FlowOk, FlowEnd;
    assert s.host.mode.Mode?;
    var k := s.host.mode.kind;
    BacklogAll(s.host, s.hist, k);
    assert Buf(s.host, k.Other()) == [];
    BacklogOne(s.host, k);
    forall i | 0 <= i < |t.host.backlog| ensures t.host.backlog[i].buf != [] {
      assert SegOk(t.host.backlog, i, s.hist.sub, s.hist);
    }
  }

  lemma EntryNonEmpty(queued: State, here: State, i: nat)
    requires i < |here.host.backlog|
    requires i == 0 ==> here == queued && forall j | 0 <= j < |queued.host.backlog| :: queued.host.backlog[j].buf != []
    requires i > 0 ==> Safe(here) && here.phase == Draining(i - 1)
    ensures Full(here.host.backlog[i]) != []
  {
    hide GpuSafe, OrderSafe, EventSafe, SignalsSafe, ArgsSafe, FlowOk, FlowEnd;
    if i > 0 { assert SegOk(here.host.backlog, i, 0, here.hist); }
    assert |Full(here.host.backlog[i])| >= |here.host.backlog[i].buf|;
  }

  lemma FirstSubmit(s: State, t: State, s': State)
    requires s.phase.Idle? && s.host.backlog != [] && t.host.backlog != []
    requires t == s.(host := Backlogged(Backlogged(s.host, Compute), Dma), hist := s.hist.(log := []))
    requires s' == SubmitSplit(t, 0)
    ensures Legal(s, CommenceBacklogStep, s') && Patient(s, CommenceBacklogStep)
    ensures Pledge(s') == s.hist.submitted + FullTags(Splits(s))
  {
    hide FullTags;
    BacklogSubmits(s, s');
  }

  lemma SubmitSplitShape(s: State, i: nat)
    requires i < |s.host.backlog|
    ensures var s' := SubmitSplit(s, i);
            && s'.phase == Draining(i) && s'.host == s.host
            && s'.hist.log == s.hist.log && s'.hist.ops == s.hist.ops && s'.hist.dangling == s.hist.dangling
  {
  }

  lemma SamePledge(s: State, s': State)
    requires s'.host == s.host && s'.phase == s.phase && s'.hist == s.hist
    ensures Pledge(s') == Pledge(s)
  {
  }

  lemma LaterSubmit(s: State, i: nat, s': State)
    requires 0 < i < |s.host.backlog| && s.phase == Draining(i - 1)
    requires Val(s.gpu, TIMELINE) >= s.host.backlog[i - 1].ctr && s' == SubmitSplit(s, i)
    ensures Legal(s, DrainStep, s') && Patient(s, DrainStep)
    ensures Pledge(s') == Pledge(s)
  {
    hide Pledge;
    DrainKeepsPledge(s, DrainStep);
  }

  lemma DrainingAt(s: State, i: nat)
    requires Safe(s) && s.phase == Draining(i)
    ensures i < |s.host.backlog| && s.hist.sub == s.host.backlog[i].ctr
  {
  }

  lemma LastWait(s: State)
    requires Safe(s) && s.host.backlog != [] && s.phase == Draining(|s.host.backlog| - 1)
    requires Val(s.gpu, TIMELINE) >= s.host.backlog[|s.host.backlog| - 1].ctr
    ensures var s' := s.(host := s.host.(backlog := []), hist := s.hist.(active := Unset), phase := Idle);
            Legal(s, DrainStep, s') && Patient(s, DrainStep)
    ensures Pledge(s) == s.hist.submitted
    ensures Val(s.gpu, TIMELINE) == s.hist.sub == s.host.ctr
  {
    hide OrderSafe, EventSafe, SignalsSafe, ArgsSafe, RunningKind, Channels, SegOk;
    assert s.host.backlog[|s.host.backlog|..] == [];
    FullTagsEmpty();
  }

  class NvCommandQueue {
    var computeCommandBuffer: seq<Command>
    var dmaCommandBuffer: seq<Command>
    var commandBufBacklog: seq<Split>
    var currentQueueType: Mode
    var timelineCtr: nat
    var timelineNotifyPending: bool
    var kernArgsWriteIdx: nat
    var currentSlmPerThread: nat
    var freeSignals: seq<nat>
    const kernArgsPageVa: nat

    // the hardware
    var gpu: Gpu

    // what happened so far
    ghost var hist: History
    ghost var phase: Phase
    ghost var run: Run

    ghost function HostView(): Host
      reads this
    {
      Host(computeCommandBuffer, dmaCommandBuffer, commandBufBacklog, currentQueueType, timelineCtr,
           timelineNotifyPending, kernArgsWriteIdx, currentSlmPerThread, freeSignals, kernArgsPageVa)
    }

    ghost function View(): State
      reads this
    {
      State(HostView(), gpu, hist, phase)
    }

    /** The run so far is a disciplined, patient run that ends in the present state. */
    ghost predicate Valid()
      reads this
    {
      IsPatientRun(run) && run.states[|run.states| - 1] == View()
    }

    lemma Known()
      requires Valid()
      ensures Safe(View()) && Live(View())
    {
      hide Safe, Live, Legal, Patient, Initial;
      RunLive(run, |run.states| - 1);
    }

    // ------------------------------------------------------------ the hardware

    /** One step of the GPU, whichever it chooses among those it can take. */
    method Tick() returns (moved: bool)
      requires Valid()
      modifies this`gpu, this`run
      ensures Valid() && old(run.steps) <= run.steps
      ensures moved ==> Measure(gpu) < Measure(old(gpu))
      ensures !moved ==> gpu == old(gpu) && GpuIdle(gpu)
    {
      hide IsPatientRun, Safe, GpuLive, HostLive, HeadEnabled, Legal, Initial;
      ghost var before := View();
      var act := None;
      if {
        case gpu.compute.fifo != [] && HeadEnabled(gpu, Compute, gpu.compute.fifo[0]) =>
          act := Some(Fetch(Compute));
        case gpu.dma.fifo != [] && HeadEnabled(gpu, Dma, gpu.dma.fifo[0]) =>
          act := Some(Fetch(Dma));
        case gpu.compute.running != {} =>
          var op :| op in gpu.compute.running;
          act := Some(Finish(Compute, op));
        case gpu.dma.running != {} =>
          var op :| op in gpu.dma.running;
          act := Some(Finish(Dma, op));
        case (gpu.compute.fifo == [] || !HeadEnabled(gpu, Compute, gpu.compute.fifo[0]))
             && (gpu.dma.fifo == [] || !HeadEnabled(gpu, Dma, gpu.dma.fifo[0]))
             && gpu.compute.running == {} && gpu.dma.running == {} =>
          Known();
          if !GpuIdle(gpu) {
            ghost var a := SomeAction(View());
            NothingEnabled(gpu, a);
          }
      }
      moved := act.Some?;
      if moved {
        ActionShrinks(gpu, act.value);
        gpu := GpuNext(gpu, act.value);
        TickLegal(before, act.value, View());
        Record(before, Step.GpuStep(act.value));
      }
    }

    lemma TickLegal(s: State, a: GpuAction, s': State)
      requires GpuEnabled(s.gpu, a) && s' == s.(gpu := GpuNext(s.gpu, a))
      ensures Legal(s, Step.GpuStep(a), s') && Patient(s, Step.GpuStep(a))
    {
    }

    lemma NothingEnabled(g: Gpu, a: GpuAction)
      requires g.compute.fifo == [] || !HeadEnabled(g, Compute, g.compute.fifo[0])
      requires g.dma.fifo == [] || !HeadEnabled(g, Dma, g.dma.fifo[0])
      requires g.compute.running == {} && g.dma.running == {}
      ensures !GpuEnabled(g, a)
    {
    }

    /** Note that the state has moved by one step of the transition system. */
    ghost method Record(before: State, st: Step)
      requires IsPatientRun(run) && run.states[|run.states| - 1] == before
      requires Legal(before, st, View()) && Patient(before, st)
      modifies this`run
      ensures Valid() && run == Snoc(old(run), st, View())
    {
      hide Legal, Patient, IsPatientRun;
      SnocRun(run, st, View());
      run := Snoc(run, st, View());
    }

    /** Between two calls of the client the GPU takes any number of steps. */
    method GpuRuns(n: nat)
      requires Valid()
      modifies this`gpu, this`run
      ensures Valid() && old(run.steps) <= run.steps
    {
      for i := 0 to n
        invariant Valid() && old(run.steps) <= run.steps
      {
        var _ := Tick();
      }
    }

    // ---------------------------------------------------------- initialisation

    /** Nothing has happened yet; the argument page lies where its allocation put it. */
    ghost predicate Pristine()
      reads this
    {
      Initial(View().(host := HostView().(free := InitialFree()))) && freeSignals == []
    }

    constructor (page: nat)
      requires page % 256 == 0
      ensures Pristine() && kernArgsPageVa == page
    {
      computeCommandBuffer, dmaCommandBuffer, commandBufBacklog := [], [], [];
      currentQueueType := Unset;
      timelineCtr, timelineNotifyPending, kernArgsWriteIdx, currentSlmPerThread := 0, false, 0, 0;
      freeSignals := [];
      kernArgsPageVa := page;
      gpu := Gpu(Channel([], {}, []), Channel([], {}, []), 0, {}, map[]);
      hist := History([], map[], [], [], Unset, 0, 0, false);
      phase := Idle;
    }

    /** All signals are free; the first one becomes the timeline. */
    method FillSignals() returns (timeline: Option<nat>)
      requires freeSignals == []
      modifies this`freeSignals
      ensures timeline == Some(TIMELINE) && freeSignals == InitialFree()
    {
      for i := 0 to MAX_SIGNAL_POOL_SIZE
        invariant |freeSignals| == i && forall j | 0 <= j < i :: freeSignals[j] == j
      {
        freeSignals := freeSignals + [i];
      }
      timeline := ObtainSignal();
    }

    /** The signal pool and the timeline; the run starts here. */
    method CreateSignals()
      requires Pristine()
      modifies this`freeSignals, this`run
      ensures Valid() && phase.Idle? && currentQueueType.Unset? && hist.active.Unset? && timelineCtr == hist.sub == 0
      ensures computeCommandBuffer == [] && dmaCommandBuffer == [] && commandBufBacklog == []
      ensures hist.submitted == [] && !hist.dangling
    {
      var _ := FillSignals();
      run := Run([View()], []);
    }

    /** Bind an engine to its channel: one numbered operation, released and submitted alone. */
    method BindChannel(kind: Kind, methods: seq<Method>)
      requires Valid() && phase.Idle? && currentQueueType.Unset? && hist.active.Unset? && timelineCtr + 1 < U32
      requires computeCommandBuffer == [] && dmaCommandBuffer == []
      modifies this
      ensures Valid() && View() == BindNext(old(View()), kind, methods)
    {
      hide IsPatientRun, Legal, Patient;
      ghost var before := View();
      PushBind(kind, methods);
      ghost var pushed := View();
      SubmitToFifo(kind, timelineCtr);
      hist := hist.(log := before.hist.log, dangling := before.hist.dangling);
      BindSubmits(before, kind, methods, pushed, View());
      BindLegal(before, kind, methods, View());
      Record(before, BindStep(kind, methods));
    }

    /** The set-up methods, numbered like an operation, and the release behind them. */
    method PushBind(kind: Kind, methods: seq<Method>)
      modifies this`computeCommandBuffer, this`dmaCommandBuffer, this`timelineCtr, this`hist
      ensures View() == Enqueue(Numbered(old(View()), kind), kind, BindCommands(old(timelineCtr) + 1, methods))
    {
      ghost var s1 := Numbered(View(), kind);
      Push(Bind(timelineCtr + 1, methods), kind);
      timelineCtr := timelineCtr + 1;
      hist := hist.(ops := hist.ops + [Op(kind, true, 0, 0)]);
      assert View() == Enqueue(s1, kind, [Bind(timelineCtr, methods)]);
      SignalNotify(TIMELINE, timelineCtr, kind);
      EnqueueTwice(s1, kind, Bind(timelineCtr, methods), Release(TIMELINE, timelineCtr));
    }

    lemma BindLegal(s: State, k: Kind, methods: seq<Method>, s': State)
      requires s.phase.Idle? && s.host.mode.Unset? && s.hist.active.Unset? && s.host.ctr + 1 < U32
      requires s' == BindNext(s, k, methods)
      ensures Legal(s, BindStep(k, methods), s') && Patient(s, BindStep(k, methods))
    {
    }

    /** initializeQueue: both channels are bound, each submission is awaited, and the queue is ready
        for its client. */
    method InitializeQueue(compute: seq<Method>, dma: seq<Method>)
      requires Pristine()
      modifies this
      ensures Valid() && phase.Idle? && hist.active.Unset? && !hist.dangling && !Unfetched(View())
      ensures timelineCtr == 2 == Val(gpu, TIMELINE) && hist.sub == 2
      ensures computeCommandBuffer == [] && dmaCommandBuffer == [] && commandBufBacklog == []
      ensures hist.submitted == [Tagged(Compute, Bind(1, compute)), Tagged(Compute, Release(TIMELINE, 1)),
                                 Tagged(Dma, Bind(2, dma)), Tagged(Dma, Release(TIMELINE, 2))]
    {
      hide IsPatientRun, Initial, Measure;
      CreateSignals();
      BindChannel(Compute, compute);
      AwaitExecution();
      BindChannel(Dma, dma);
      AwaitExecution();
      NothingDangles();
    }

    // ----------------------------------------------------- private queue methods

    method Push(c: Command, kind: Kind)
      modifies this`computeCommandBuffer, this`dmaCommandBuffer, this`hist
      ensures View() == Enqueue(old(View()), kind, [c])
    {
      if kind == Compute {
        computeCommandBuffer := computeCommandBuffer + [c];
      } else {
        dmaCommandBuffer := dmaCommandBuffer + [c];
      }
      hist := hist.(log := hist.log + Tag(kind, [c]),
                    dangling := if kind == Compute then Dangle([c], hist.dangling) else hist.dangling);
    }

    method SignalNotify(sig: nat, target: nat, kind: Kind)
      modifies this`computeCommandBuffer, this`dmaCommandBuffer, this`hist
      ensures View() == Enqueue(old(View()), kind, [Release(sig, target)])
    {
      Push(Release(sig, target), kind);
    }

    /** Enqueues an acquire unless the CPU already sees the value. */
    method SignalWaitGpu(target: nat)
      requires target == timelineCtr
      modifies this`computeCommandBuffer, this`dmaCommandBuffer, this`hist
      ensures View() == WaitedGpu(old(View()))
    {
      if Val(gpu, TIMELINE) == target {
        return;
      }
      Push(Acquire(TIMELINE, target), Compute);
    }

    method BacklogCurrentCmdBuffer(kind: Kind)
      modifies this`computeCommandBuffer, this`dmaCommandBuffer, this`commandBufBacklog, this`timelineNotifyPending
      ensures View() == old(View()).(host := Backlogged(old(HostView()), kind))
    {
      match kind {
        case Compute =>
          if computeCommandBuffer == [] {
            return;
          }
          commandBufBacklog := commandBufBacklog + [Split(computeCommandBuffer, Compute, timelineCtr, timelineNotifyPending)];
          computeCommandBuffer := [];
        case Dma =>
          if dmaCommandBuffer == [] {
            return;
          }
          commandBufBacklog := commandBufBacklog + [Split(dmaCommandBuffer, Dma, timelineCtr, timelineNotifyPending)];
          dmaCommandBuffer := [];
      }
      timelineNotifyPending := false;
    }

    /** Hand one buffer to its channel and clear it; `upto` is the number of its last operation. */
    method SubmitToFifo(kind: Kind, ghost upto: nat)
      modifies this`computeCommandBuffer, this`dmaCommandBuffer, this`gpu, this`hist
      ensures var cmds, cleared := Buf(old(HostView()), kind), old(View()).(host := Cleared(old(HostView()), kind));
              View() == if cmds == [] then old(View()) else Submitted(cleared, kind, cmds, upto)
    {
      var commandBuffer := if kind == Compute then computeCommandBuffer else dmaCommandBuffer;
      if commandBuffer == [] {
        return;
      }
      var ch := Ch(gpu, kind);
      gpu := WithCh(gpu, kind, ch.(fifo := ch.fifo + commandBuffer));
      hist := hist.(submitted := hist.submitted + Tag(kind, commandBuffer), active := Mode(kind), sub := upto);
      if kind == Compute {
        computeCommandBuffer := [];
      } else {
        dmaCommandBuffer := [];
      }
    }

    /** Spin until the timeline has reached the target. The wait ends: the GPU is never stuck below
        a number that has been submitted. */
    method SignalWaitCpu(target: nat)
      requires Valid() && target <= hist.sub
      modifies this`gpu, this`run
      ensures Valid() && old(run.steps) <= run.steps
      ensures Val(gpu, TIMELINE) >= target
    {
      hide IsPatientRun, Measure;
      while Val(gpu, TIMELINE) < target
        invariant Valid() && old(run.steps) <= run.steps
        decreases Measure(gpu)
      {
        ghost var was := run.steps;
        var moved := Tick();
        PrefixTrans(old(run.steps), was, run.steps);
        if !moved {
          Known();
          IdleReached(View());
        }
      }
    }

    lemma PrefixTrans(a: seq<Step>, b: seq<Step>, c: seq<Step>)
      requires a <= b <= c
      ensures a <= c
    {
    }

    /** Bump-allocate a block of the kernel-argument page. */
    method AllocKernArgs(size: nat) returns (st: Status, addr: nat)
      modifies this`kernArgsWriteIdx
      ensures st == (if old(kernArgsWriteIdx) + size > KERNARGS_PAGE_SIZE then OutOfResources else Success)
      ensures st == Success ==> addr == kernArgsPageVa + old(kernArgsWriteIdx)
      ensures kernArgsWriteIdx == if st == Success then old(kernArgsWriteIdx) + size else old(kernArgsWriteIdx)
    {
      addr := 0;
      if kernArgsWriteIdx + size > KERNARGS_PAGE_SIZE {
        return OutOfResources, addr;
      }
      addr := kernArgsPageVa + kernArgsWriteIdx;
      kernArgsWriteIdx := kernArgsWriteIdx + size;
      st := Success;
    }

    method EnsureEnoughLocalMem(r: LaunchReq) returns (st: Status)
      modifies this`computeCommandBuffer, this`dmaCommandBuffer, this`hist, this`currentSlmPerThread
      ensures st == if LocalMemFails(old(HostView()), r) then LocalMemStatus(r) else Success
      ensures View() == if st == Success then WithLocalMem(old(View()), r)
                        else old(View()).(host := LocalMemRefused(old(HostView()), r))
    {
      if r.kernel.localMem <= currentSlmPerThread {
        return Success;
      }
      if r.slm.Stale? || r.slm.NotReleased? {
        return LocalMemStatus(r);
      }
      currentSlmPerThread := RoundUp(r.kernel.localMem, 32);
      var bytesPerWarp := CeilDiv(currentSlmPerThread * 32, 0x200) * 0x200;
      var bytesPerTpc := CeilDiv(bytesPerWarp * 48 * 2, 0x8000) * 0x8000;
      if r.slm.NotAllocated? {
        return Unknown;
      }
      Push(Setup(LocalMemSetup(r.slm.va, bytesPerTpc)), Compute);
      st := Success;
    }

    /** The packing loop's only way to fail: a size that is neither 1, 2 nor a multiple of 4. */
    method CheckParams(sizes: seq<nat>) returns (ok: bool)
      ensures ok <==> forall p | p in sizes :: KernArgs.SizeOk(p)
      ensures ok <==> forall p | p in sizes :: p == 1 || p == 2 || p % 4 == 0
    {
      for i := 0 to |sizes|
        invariant forall j | 0 <= j < i :: KernArgs.SizeOk(sizes[j])
      {
        if !(sizes[i] == 8 || sizes[i] == 4 || sizes[i] == 2 || sizes[i] == 1) && sizes[i] % 4 != 0 {
          assert !KernArgs.SizeOk(sizes[i]);
          return false;
        }
      }
      ok := true;
    }

    // -------------------------------------------------------- launches and copies

    /** Number the operation whose command was just pushed, and release it when synchronous. */
    method FinishOperation(ghost s0: State, kind: Kind, ghost c: Command, ghost op: Op, sync: bool)
      requires c.IsWork() && op.sync == sync && View() == Enqueue(s0, kind, [c])
      modifies this`computeCommandBuffer, this`dmaCommandBuffer, this`hist, this`timelineCtr, this`timelineNotifyPending
      ensures View() == Accepted(s0, kind, c, op)
    {
      ghost var n := s0.host.ctr + 1;
      ghost var s1 := s0.(host := s0.host.(ctr := n), hist := s0.hist.(ops := s0.hist.ops + [op]));
      timelineCtr := timelineCtr + 1;
      hist := hist.(ops := hist.ops + [op]);
      assert View() == Enqueue(s1, kind, [c]);
      if sync {
        SignalNotify(TIMELINE, timelineCtr, kind);
        EnqueueTwice(s1, kind, c, Release(TIMELINE, n));
        timelineNotifyPending := false;
      } else {
        timelineNotifyPending := true;
      }
    }

    /** The queue switch and the commands that order a synchronous launch behind earlier work. */
    method BeginLaunch(r: LaunchReq) returns (st: Status)
      modifies this`computeCommandBuffer, this`dmaCommandBuffer, this`commandBufBacklog, this`timelineNotifyPending,
        this`currentQueueType, this`currentSlmPerThread, this`hist
      ensures st == if LocalMemFails(old(HostView()), r) then LocalMemStatus(r) else Success
      ensures View() == if st == Success then LaunchPrefix(old(View()), r)
                        else old(View()).(host := LocalMemRefused(SwitchedHost(old(HostView()), Compute), r))
    {
      ghost var before := View();
      if dmaCommandBuffer == [] {
        currentQueueType := Mode(Compute);
      }
      if currentQueueType == Mode(Dma) {
        BacklogCurrentCmdBuffer(Dma);
        currentQueueType := Mode(Compute);
      }
      assert View() == Switched(before, Compute);
      st := EnsureEnoughLocalMem(r);
      if st != Success {
        return;
      }
      ghost var s2 := View();
      if r.sync && timelineNotifyPending {
        SignalNotify(TIMELINE, timelineCtr, Compute);
        timelineNotifyPending := false;
      }
      assert r.sync ==> View() == Flushed(s2);
      if r.sync {
        SignalWaitGpu(timelineCtr);
      }
    }

    /** launchFunction. */
    method LaunchFunction(r: LaunchReq) returns (st: Status)
      requires Valid() && phase.Idle? && MayFollow(HostView(), hist, Compute) && timelineCtr + 1 < U32
      modifies this
      ensures Valid() && View() == LaunchNext(old(View()), r)
      ensures run == Snoc(old(run), LaunchStep(r), View())
      ensures st == LaunchStatus(old(View()), r)
      ensures st == Success ==>
                && r.kernel.constants != []
                && var n, qmdOffset := old(timelineCtr) + 1, LaunchBlock.QmdOffset(r.kernel.constants[0]);
                   && computeCommandBuffer ==
                      old(computeCommandBuffer) + StreamOperands.Ahead(old(View()), r)
                      + [Launch(n, kernArgsPageVa + old(kernArgsWriteIdx) + qmdOffset)]
                      + (if r.sync then [Release(TIMELINE, n)] else [])
                   && kernArgsWriteIdx == old(kernArgsWriteIdx) + qmdOffset + 2048
                   && timelineCtr == n && timelineNotifyPending == !r.sync
    {
      hide IsPatientRun, LaunchPrefix, LaunchDecided, StreamOperands.Ahead, LaunchBlock.QmdOffset;
      ghost var before := View();
      if LaunchStatus(before, r) == Success { StreamOperands.LaunchEnqueues(before, r); }
      if r.numParams != |r.kernel.paramSizes| {
        Record(before, LaunchStep(r));
        return InvalidValue;
      }
      st := BeginLaunch(r);
      if st != Success {
        Record(before, LaunchStep(r));
        return;
      }
      PrefixFramed(before, r);
      st := DecideLaunch(before, r);
      Record(before, LaunchStep(r));
    }

    /** launchFunction from the ordering commands on. */
    method DecideLaunch(ghost before: State, r: LaunchReq) returns (st: Status)
      requires View() == LaunchPrefix(before, r) && Framed(before, View())
      modifies this`computeCommandBuffer, this`dmaCommandBuffer, this`hist, this`timelineCtr, this`timelineNotifyPending,
        this`kernArgsWriteIdx
      ensures View() == LaunchDecided(before, r) && st == Verdict(before.host, r)
    {
      hide LaunchPrefix, Accepted, Enqueue;
      var argsIdx := kernArgsWriteIdx;
      st := ReserveArgs(r, View());
      if st == Success {
        ghost var s0 := View();
        var qmd := kernArgsPageVa + argsIdx + RoundUp(r.kernel.constants[0], 256);
        Push(Launch(timelineCtr + 1, qmd), Compute);
        FinishOperation(s0, Compute, Launch(before.host.ctr + 1, qmd), LaunchOp(before.host, r), r.sync);
      }
    }

    /** The checks between the ordering commands and the launch itself. */
    method ReserveArgs(r: LaunchReq, ghost s: State) returns (st: Status)
      requires View() == s
      modifies this`kernArgsWriteIdx
      ensures st == Verdict(s.host, r) && View() == WithArgs(s, r)
      ensures st == Success ==> r.kernel.constants != [] && AllocatedArgs(s.host, r)
    {
      if r.kernel.constants == [] {
        return InvalidImage;
      }
      var size := BlockSize(r.kernel.constants[0]);
      var addr;
      st, addr := AllocKernArgs(size);
      if st != Success {
        return;
      }
      if CONSTBUF0_BYTES >= size {
        return InvalidImage;
      }
      if CONSTBUF0_BYTES + r.numParams * 8 >= size {
        return InvalidImage;
      }
      var ok := CheckParams(r.kernel.paramSizes);
      if !ok {
        return InvalidValue;
      }
      if !r.fits {
        return OutOfResources;
      }
    }

    /** The queue switch of a copy. */
    method BeginCopy()
      modifies this`computeCommandBuffer, this`dmaCommandBuffer, this`commandBufBacklog, this`timelineNotifyPending,
        this`currentQueueType
      ensures View() == Switched(old(View()), Dma)
    {
      if computeCommandBuffer == [] {
        currentQueueType := Mode(Dma);
      }
      if currentQueueType == Mode(Compute) {
        BacklogCurrentCmdBuffer(Compute);
        currentQueueType := Mode(Dma);
      }
    }

    lemma CopyIs(s: State, q: CopyReq)
      ensures CopyStatus(q) == Success ==>
                CopyNext(s, q) == Accepted(Switched(s, Dma), Dma, Copy(s.host.ctr + 1, q.src, q.dst, q.len), Op(Dma, q.sync, 0, 0))
    {
    }

    /** gpuMemcpy. The last precondition is what keeps the channels from wedging. */
    method GpuMemcpy(q: CopyReq) returns (st: Status)
      requires Valid() && phase.Idle? && MayFollow(HostView(), hist, Dma) && timelineCtr + 1 < U32
      requires CopyStatus(q) == Success ==> !Unfetched(View())
      modifies this
      ensures Valid() && View() == CopyNext(old(View()), q) && st == CopyStatus(q)
      ensures run == Snoc(old(run), CopyStep(q), View())
      ensures st == if q.dst == 0 || q.src == 0 || q.len >= 0xffff_ffff then InvalidValue else Success
      ensures st == Success ==>
                var n := old(timelineCtr) + 1;
                && dmaCommandBuffer == old(dmaCommandBuffer) + [Copy(n, q.src, q.dst, q.len)]
                                       + (if q.sync then [Release(TIMELINE, n)] else [])
                && timelineCtr == n && timelineNotifyPending == !q.sync
    {
      hide IsPatientRun, Accepted, CopyNext, Switched, Enqueue;
      ghost var before := View();
      StreamOperands.CopyEnqueues(before, q);
      CopyIs(before, q);
      if q.dst == 0 || q.src == 0 || q.len >= U32 - 1 {
        Record(before, CopyStep(q));
        return InvalidValue;
      }
      BeginCopy();
      ghost var s0 := View();
      Push(Copy(timelineCtr + 1, q.src, q.dst, q.len), Dma);
      FinishOperation(s0, Dma, Copy(before.host.ctr + 1, q.src, q.dst, q.len), Op(Dma, q.sync, 0, 0), q.sync);
      Record(before, CopyStep(q));
      st := Success;
    }

    // ------------------------------------------------------------------- events

    method ObtainSignal() returns (sig: Option<nat>)
      modifies this`freeSignals
      ensures old(freeSignals) == [] ==> sig == None && freeSignals == []
      ensures old(freeSignals) != [] ==> sig == Some(old(freeSignals)[0]) && freeSignals == old(freeSignals)[1..]
    {
      if freeSignals == [] {
        return None;
      }
      sig := Some(freeSignals[0]);
      freeSignals := freeSignals[1..];
    }

    /** recordEvent, for an event that was never recorded before. */
    method RecordEvent(event: LibreCUEvent) returns (st: Status)
      requires Valid() && phase.Idle? && (currentQueueType.Unset? ==> hist.active.Unset?)
      requires event.computeSignal == None && event.dmaSignal == None
      modifies this, event
      ensures Valid() && View() == RecordNext(old(View()))
      ensures run == Snoc(old(run), RecordStep, View())
      ensures st == Success <==> old(freeSignals) != []
      ensures st == Success ==>
                var sig, kind := Some(old(freeSignals)[0]), RecordKind(old(HostView()));
                event.computeSignal == (if kind == Compute then sig else None)
                && event.dmaSignal == (if kind == Dma then sig else None)
    {
      hide IsPatientRun, Legal, Patient, Enqueue;
      ghost var before := View();
      var kind := if currentQueueType.Unset? then Compute else currentQueueType.kind;
      var sig := ObtainSignal();
      if sig == None {
        RecordLegal(before, View());
        Record(before, RecordStep);
        return Unknown;
      }
      match kind {
        case Compute => event.computeSignal := sig;
        case Dma => event.dmaSignal := sig;
      }
      EnqueueRecord(sig.value, kind);
      RecordLegal(before, View());
      Record(before, RecordStep);
      st := Success;
    }

    /** The release that raises an event's signal. */
    method EnqueueRecord(sig: nat, kind: Kind)
      modifies this`computeCommandBuffer, this`dmaCommandBuffer, this`currentQueueType, this`hist
      ensures View() == Recorded(old(View()), sig, kind)
    {
      ghost var was := hist;
      SignalNotify(sig, 1, kind);
      currentQueueType := Mode(kind);
      hist := hist.(recorded := was.recorded[sig := timelineCtr]);
    }

    lemma RecordLegal(s: State, s': State)
      requires s.phase.Idle? && (s.host.mode.Unset? ==> s.hist.active.Unset?) && s' == RecordNext(s)
      ensures Legal(s, RecordStep, s') && Patient(s, RecordStep)
    {
    }

    /** Spin until an event's signal is raised. It ends once the record has been commenced. */
    method SignalWaitEvent(sig: nat, ghost kind: Kind)
      requires Valid() && sig != TIMELINE && Tagged(kind, Release(sig, 1)) in hist.submitted
      modifies this`gpu, this`run
      ensures Valid() && Val(gpu, sig) >= 1
    {
      hide Measure, Legal, Patient, Initial;
      while Val(gpu, sig) < 1
        invariant Valid()
        decreases Measure(gpu)
      {
        var moved := Tick();
        if !moved {
          IdleRaised(run, |run.states| - 1, kind, sig);
        }
      }
    }

    /** waitForEvent: on return, everything enqueued before the record has completed. */
    method WaitForEvent(event: LibreCUEvent, ghost kind: Kind) returns (st: Status)
      requires Valid()
      requires var sig := if event.computeSignal.Some? then event.computeSignal else event.dmaSignal;
               sig.Some? ==> sig.value in hist.recorded && Tagged(kind, Release(sig.value, 1)) in hist.submitted
      modifies this`gpu, this`run
      ensures Valid()
      ensures st == Success <==> event.computeSignal.Some? || event.dmaSignal.Some?
      ensures st == Success ==>
                var sig := if event.computeSignal.Some? then event.computeSignal.value else event.dmaSignal.value;
                forall n: nat | 1 <= n <= hist.recorded[sig] :: n in gpu.done
    {
      hide IsPatientRun, GpuSafe, OrderSafe, HostSafe, ArgsSafe, Live;
      if event.computeSignal == None && event.dmaSignal == None {
        return InvalidValue;
      }
      var sig := if event.computeSignal.Some? then event.computeSignal.value else event.dmaSignal.value;
      Known();
      SignalWaitEvent(sig, kind);
      Known();
      st := Success;
    }

    // ----------------------------------------------------------- commence and await

    /** startExecution with an empty backlog. */
    method StartSingle()
      requires Valid() && phase.Idle? && commandBufBacklog == []
      modifies this
      ensures Valid() && View() == CommenceSingleNext(old(View()))
      ensures run == Snoc(old(run), CommenceSingleStep, View())
    {
      hide IsPatientRun, GpuSafe, OrderSafe, EventSafe, SignalsSafe, ArgsSafe, Live, FlowOk, FlowEnd, Legal, Patient;
      ghost var before := View();
      Known();
      hist := hist.(log := []);
      if currentQueueType == Mode(Compute) {
        assert dmaCommandBuffer == [] by { assert HostFlow(before.host, before.hist, Compute); }
        CloseAndSubmit(Compute);
      }
      if currentQueueType == Mode(Dma) {
        assert computeCommandBuffer == [] by { assert HostFlow(before.host, before.hist, Dma); }
        CloseAndSubmit(Dma);
      }
      timelineNotifyPending := false;
      hist := hist.(log := [], dangling := before.hist.dangling);
      SingleLegal(before, View());
      Record(before, CommenceSingleStep);
    }

    lemma SingleLegal(s: State, s': State)
      requires s.phase.Idle? && s.host.backlog == [] && s' == CommenceSingleNext(s)
      ensures Legal(s, CommenceSingleStep, s') && Patient(s, CommenceSingleStep)
    {
    }

    /** Append the release that is still owed, then submit. */
    method CloseAndSubmit(kind: Kind)
      modifies this`computeCommandBuffer, this`dmaCommandBuffer, this`gpu, this`hist
      ensures var s := old(View());
              var cmds := Buf(s.host, kind) + Owed(s.host.ctr, s.host.pending);
              var s' := if cmds == [] then s else Submitted(s.(host := Cleared(s.host, kind)), kind, cmds, s.host.ctr);
              View() == s'.(hist := s'.hist.(log := hist.log, dangling := hist.dangling))
    {
      if timelineNotifyPending {
        SignalNotify(TIMELINE, timelineCtr, kind);
      }
      SubmitToFifo(kind, timelineCtr);
    }

    /** awaitExecution. The client has commenced everything it enqueued; on return everything is
        done and the argument page is free again. */
    method AwaitExecution()
      requires Valid() && phase.Idle? && timelineCtr == hist.sub
      modifies this`gpu, this`run, this`kernArgsWriteIdx, this`hist
      ensures Valid() && phase.Idle? && kernArgsWriteIdx == 0
      ensures Val(gpu, TIMELINE) == timelineCtr
      ensures forall n: nat | 1 <= n <= timelineCtr :: n in gpu.done
      ensures hist == old(hist).(active := Unset, base := timelineCtr)
    {
      hide IsPatientRun, OrderSafe, EventSafe, SignalsSafe, ArgsSafe, HostLive, GpuLive;
      SignalWaitCpu(timelineCtr);
      ghost var before := View();
      Known();
      kernArgsWriteIdx := 0;
      hist := hist.(active := Unset, base := timelineCtr);
      Record(before, AwaitStep);
    }

    /** Load split i into its buffer, append the release it owes, and submit it. */
    method SubmitEntry(i: nat)
      requires i < |commandBufBacklog| && computeCommandBuffer == [] && dmaCommandBuffer == []
      requires Full(commandBufBacklog[i]) != []
      modifies this`computeCommandBuffer, this`dmaCommandBuffer, this`gpu, this`hist, this`phase
      ensures var s' := SubmitSplit(old(View()), i); View() == s'
    {
      var entry := commandBufBacklog[i];
      ghost var s := View();
      match entry.kind {
        case Compute => computeCommandBuffer := entry.buf;
        case Dma => dmaCommandBuffer := entry.buf;
      }
      if entry.owes {
        SignalNotify(TIMELINE, entry.ctr, entry.kind);
      }
      assert Buf(HostView(), entry.kind) == Full(entry);
      SubmitToFifo(entry.kind, entry.ctr);
      hist := hist.(log := s.hist.log, dangling := s.hist.dangling);
      phase := Draining(i);
    }

    /** The splits before i have been submitted and waited for. */
    ghost predicate Between(before: State, queued: State, start: Run, i: nat)
      reads this
    {
      var segs := queued.host.backlog;
      && i <= |segs| && commandBufBacklog == segs
      && computeCommandBuffer == [] && dmaCommandBuffer == []
      && hist.log == [] && hist.ops == before.hist.ops && hist.dangling == before.hist.dangling
      && timelineCtr == before.host.ctr
      && (i == 0 ==> View() == queued && run == start)
      && (i > 0 ==>
            && Valid() && phase == Draining(i - 1) && Val(gpu, TIMELINE) >= segs[i - 1].ctr
            && start.steps < run.steps
            && Pledge(View()) == before.hist.submitted + FullTags(segs))
    }

    /** One turn of the loop over the splits. */
    method SubmitAndWait(ghost before: State, ghost queued: State, ghost start: Run, i: nat)
      requires i < |commandBufBacklog| && Between(before, queued, start, i)
      requires IsPatientRun(start) && start.states[|start.states| - 1] == before
      requires Safe(before) && before.phase.Idle? && before.host.backlog != []
      requires queued == before.(host := Backlogged(Backlogged(before.host, Compute), Dma),
                                 hist := before.hist.(log := []))
      modifies this`computeCommandBuffer, this`dmaCommandBuffer, this`gpu, this`hist, this`phase, this`run
      ensures Between(before, queued, start, i + 1)
    {
      hide IsPatientRun, Safe, Live, SubmitSplit, Backlogged, Pledge, FullTags;
      ghost var here := View();
      if i > 0 { Known(); }
      Commencing(before, queued);
      EntryNonEmpty(queued, here, i);
      SubmitSplitShape(here, i);
      SubmitEntry(i);
      if i == 0 {
        FirstSubmit(before, queued, View());
        Record(before, CommenceBacklogStep);
      } else {
        LaterSubmit(here, i, View());
        Record(here, DrainStep);
      }
      Known();
      DrainingAt(View(), i);
      ghost var now := View();
      SignalWaitCpu(commandBufBacklog[i].ctr);
      SamePledge(now, View());
    }

    /** All turns of the loop, then the clean-up behind it. */
    method Drain(ghost before: State, ghost queued: State, ghost start: Run)
      requires Between(before, queued, start, 0) && IsPatientRun(start) && start.states[|start.states| - 1] == before
      requires Safe(before) && before.phase.Idle? && before.host.backlog != [] && commandBufBacklog != []
      requires queued == before.(host := Backlogged(Backlogged(before.host, Compute), Dma),
                                 hist := before.hist.(log := []))
      modifies this
      ensures Valid() && phase.Idle? && start.steps < run.steps
      ensures hist.submitted == before.hist.submitted + FullTags(queued.host.backlog)
      ensures computeCommandBuffer == [] && dmaCommandBuffer == [] && commandBufBacklog == []
      ensures hist.log == [] && hist.sub == timelineCtr == before.host.ctr && hist.active.Unset?
      ensures hist.ops == before.hist.ops && hist.dangling == before.hist.dangling
      ensures Val(gpu, TIMELINE) == timelineCtr
    {
      hide IsPatientRun, Safe, Live, Pledge, FullTags, Backlogged;
      var i := 0;
      while i < |commandBufBacklog|
        invariant i <= |commandBufBacklog| && Between(before, queued, start, i)
        decreases |queued.host.backlog| - i
      {
        SubmitAndWait(before, queued, start, i);
        i := i + 1;
      }
      ghost var last := View();
      Known();
      LastWait(last);
      commandBufBacklog := [];
      hist := hist.(active := Unset);
      phase := Idle;
      Record(last, DrainStep);
    }

    /** startExecution with a backlog: submit the splits one by one, each after a CPU wait for the
        split before it. */
    method StartBacklog()
      requires Valid() && phase.Idle? && commandBufBacklog != []
      modifies this
      ensures Valid() && phase.Idle? && old(run.steps) < run.steps
      ensures hist.submitted == old(hist.submitted) + FullTags(Splits(old(View())))
      ensures computeCommandBuffer == [] && dmaCommandBuffer == [] && commandBufBacklog == []
      ensures hist.log == [] && hist.sub == timelineCtr == old(timelineCtr) && hist.active.Unset?
      ensures hist.ops == old(hist.ops) && hist.dangling == old(hist.dangling)
      ensures Val(gpu, TIMELINE) == timelineCtr
    {
      hide IsPatientRun, Safe, Live, FullTags;
      ghost var before := View();
      ghost var start := run;
      Known();
      BacklogCurrentCmdBuffer(Compute);
      BacklogCurrentCmdBuffer(Dma);
      hist := hist.(log := []);
      Commencing(before, View());
      Drain(before, View(), start);
    }

    /** startExecution: submits exactly what was enqueued since the last commence, in order, plus
        one owed release per split. */
    method StartExecution()
      requires Valid() && phase.Idle?
      modifies this
      ensures Valid() && phase.Idle? && old(run.steps) < run.steps
      ensures SegTags(Splits(old(View()))) == old(hist.log)
      ensures hist.submitted == old(hist.submitted) + FullTags(Splits(old(View())))
      ensures computeCommandBuffer == [] && dmaCommandBuffer == [] && commandBufBacklog == []
      ensures hist.sub == timelineCtr == old(timelineCtr) && !timelineNotifyPending && hist.log == []
      ensures old(commandBufBacklog) != [] ==> Val(gpu, TIMELINE) == timelineCtr
      ensures hist.ops == old(hist.ops) && hist.dangling == old(hist.dangling)
    {
      hide IsPatientRun, Safe, Live, FullTags, SegTags, Splits;
      ghost var before := View();
      Known();
      LogKnown();
      SplitsTags(before);
      if commandBufBacklog != [] {
        StartBacklog();
        Known();
        NothingPending(View());
      } else {
        StartSingle();
        SingleDone(before, View());
      }
    }

    /** A commence followed by an await, whatever was enqueued and however far the GPU gets in
        between: everything is done, the argument page is free, and no channel is in use any more.
        Launches may follow, and so may copies unless a refused launch has left an acquire behind;
        an await does not wait for that one. */
    method CommenceAndAwait(pause: nat)
      requires Valid() && phase.Idle?
      modifies this
      ensures Valid() && phase.Idle? && hist.active.Unset? && kernArgsWriteIdx == 0
      ensures Val(gpu, TIMELINE) == timelineCtr == old(timelineCtr)
      ensures forall n: nat | 1 <= n <= |old(hist.ops)| :: n in gpu.done
      ensures hist.submitted == old(hist.submitted) + FullTags(Splits(old(View()))) && hist.ops == old(hist.ops)
      ensures hist.dangling == old(hist.dangling) && (!hist.dangling ==> !Unfetched(View()))
    {
      hide IsPatientRun, Safe, Live, FullTags, SegTags, Splits, Unfetched;
      StartExecution();
      GpuRuns(pause);
      AwaitExecution();
      Counted();
      NothingDangles();
    }

    lemma NothingDangles()
      requires Valid()
      ensures !hist.dangling ==> !Unfetched(View())
    {
      hide Safe;
      Known();
    }

    lemma Counted()
      requires Valid()
      ensures |hist.ops| == timelineCtr
    {
      hide Legal, Patient, Initial;
      LogKnown();
      TimelineMeaning(run, |run.states| - 1);
    }

    lemma LogKnown()
      requires Valid()
      ensures LogOk(View()) && |run.states| > 0 && IsRun(run)
    {
      hide Legal, Patient, Initial;
      OneList(run, |run.states| - 1);
    }
  }

  lemma NothingPending(s: State)
    requires Safe(s) && s.phase.Idle? && s.hist.sub == s.host.ctr
    requires s.host.compute == [] && s.host.dma == [] && s.host.backlog == []
    ensures !s.host.pending
  {
    hide GpuSafe, OrderSafe, EventSafe, SignalsSafe, ArgsSafe;
    if s.host.mode.Mode? { assert HostFlow(s.host, s.hist, s.host.mode.kind); }
  }

  lemma SingleDone(s: State, s': State)
    requires Safe(s) && s.phase.Idle? && s.host.backlog == [] && s' == CommenceSingleNext(s)
    ensures s'.hist.submitted == s.hist.submitted + FullTags(Splits(s)) && s'.hist.log == [] && s'.phase.Idle?
    ensures s'.host.compute == [] && s'.host.dma == [] && s'.host.backlog == [] && !s'.host.pending
    ensures s'.hist.sub == s'.host.ctr == s.host.ctr && s'.hist.ops == s.hist.ops && s'.hist.dangling == s.hist.dangling
  {
    hide GpuSafe, OrderSafe, EventSafe, SignalsSafe, ArgsSafe, FlowOk, FlowEnd, FullTags, HostIdle;
    SingleSubmits(s, s');
    match s.host.mode
    case Unset => UnsetEmpty(s.host, s.hist);
    case Mode(k) => SingleFlow(s, k);
  }
}
