/** Runs that really happen: the states about which the other modules say that something can go
    wrong are reached, by patient and disciplined runs, from the initial state. */
module StreamWitness {
  import opened Bits
  import opened Results
  import opened Commands
  import opened Stream
  import opened StreamFlow
  import opened StreamSafety
  import opened StreamSteps
  import opened StreamRuns
  import opened StreamProgress
  import opened StreamDeadlock
  import opened StreamDiscipline
  import opened StreamOvertake

  function End(r: Run): State
    requires r.states != []
  {
    r.states[|r.states| - 1]
  }

  /** One more step. */
  lemma Extend(r: Run, st: Step, s': State) returns (r': Run)
    requires IsPatientRun(r) && Legal(End(r), st, s') && Patient(End(r), st)
    ensures IsPatientRun(r') && End(r') == s'
    ensures r' == Snoc(r, st, s')
  {
    hide Legal, Patient, Initial;
    SnocRun(r, st, s');
    r' := Snoc(r, st, s');
  }

  /** Nothing is enqueued, in flight or dangling. */
  ghost predicate Rested(s: State) {
    && s.phase.Idle? && s.host.mode.Unset? && s.hist.active.Unset? && !s.host.pending && !s.hist.dangling
    && s.host.compute == [] && s.host.dma == [] && s.host.backlog == []
    && s.gpu.compute.fifo == [] && s.gpu.compute.running == {} && s.gpu.dma.fifo == [] && s.gpu.dma.running == {}
    && Val(s.gpu, TIMELINE) == s.host.ctr == s.hist.sub && s.host.argsIdx == 0 && s.host.slm == 0
  }

  function Start(page: nat): State {
    State(Host([], [], [], Unset, 0, false, 0, 0, InitialFree(), page),
          Gpu(Channel([], {}, []), Channel([], {}, []), 0, {}, map[]),
          History([], map[], [], [], Unset, 0, 0, false), Idle)
  }

  lemma StartRun(page: nat) returns (r: Run)
    requires page % 256 == 0
    ensures IsPatientRun(r) && End(r) == Start(page) && Rested(End(r))
  {
    r := Run([Start(page)], []);
  }

  /** Binding one channel and awaiting it. */
  lemma BindAndAwait(r: Run, k: Kind) returns (r': Run)
    requires IsPatientRun(r) && Rested(End(r)) && End(r).host.ctr + 1 < U32
    ensures IsPatientRun(r') && Rested(End(r')) && End(r').host.ctr == End(r).host.ctr + 1
  {
    assert r.states != [];
    hide IsPatientRun, Rested, Next, Enabled, Legal, Patient, BindNext, AwaitNext;
    var s, n := End(r), End(r).host.ctr + 1;
    var s1 := BindNext(s, k, []);
    BindStates(s, k, s1);
    var f, d := Step.GpuStep(Fetch(k)), Step.GpuStep(Finish(k, n));
    var s2 := Next(s1, f);
    var s3 := Next(s2, d);
    var s4 := Next(s3, f);
    r' := Extend(r, BindStep(k, []), s1);
    QueueLegal(s1, f);
    r' := Extend(r', f, s2);
    QueueLegal(s2, d);
    r' := Extend(r', d, s3);
    QueueLegal(s3, f);
    r' := Extend(r', f, s4);
    AwaitIs(s4);
    QueueLegal(s4, AwaitStep);
    r' := Extend(r', AwaitStep, AwaitNext(s4));
  }

  lemma QueueLegal(s: State, st: Step)
    requires Enabled(s, st) && Winding(st)
    ensures Legal(s, st, Next(s, st)) && Patient(s, st)
  {
    hide Next;
  }

  lemma AwaitIs(s: State)
    requires Enabled(s, AwaitStep)
    ensures Next(s, AwaitStep) == AwaitNext(s)
  {
  }

  lemma BindStates(s: State, k: Kind, s1: State)
    requires Rested(s) && s.host.ctr + 1 < U32 && s1 == BindNext(s, k, [])
    ensures Legal(s, BindStep(k, []), s1) && Patient(s, BindStep(k, []))
    ensures var f, n := Step.GpuStep(Fetch(k)), s.host.ctr + 1;
            var d := Step.GpuStep(Finish(k, n));
            && Enabled(s1, f) && Enabled(Next(s1, f), d) && Enabled(Next(Next(s1, f), d), f)
            && var s4 := Next(Next(Next(s1, f), d), f);
               Enabled(s4, AwaitStep) && Rested(AwaitNext(s4)) && AwaitNext(s4).host.ctr == n
  {
    hide Legal, BindNext, Rested, Enabled, Next;
    BindSubmitted(s, k, s1);
    OneOperation(s1, k, Bind(s.host.ctr + 1, []));
    var f, n := Step.GpuStep(Fetch(k)), s.host.ctr + 1;
    var d := Step.GpuStep(Finish(k, n));
    RestedAgain(s1, k, Next(Next(Next(s1, f), d), f), n);
  }

  lemma BindSubmitted(s: State, k: Kind, s1: State)
    requires Rested(s) && s.host.ctr + 1 < U32 && s1 == BindNext(s, k, [])
    ensures Legal(s, BindStep(k, []), s1)
    ensures Ch(s1.gpu, k).fifo == [Bind(s.host.ctr + 1, []), Release(TIMELINE, s.host.ctr + 1)] && Ch(s1.gpu, k).running == {}
    ensures Ready(s1, k, s.host.ctr + 1)
  {
    assert Ch(s1.gpu, k).fifo == [Bind(s.host.ctr + 1, []), Release(TIMELINE, s.host.ctr + 1)];
  }

  /** All of Rested but for channel k, which has still to reach operation n. */
  ghost predicate Ready(s: State, k: Kind, n: nat) {
    && s.phase.Idle? && s.host.mode.Unset? && !s.host.pending && !s.hist.dangling
    && s.host.compute == [] && s.host.dma == [] && s.host.backlog == []
    && Ch(s.gpu, k.Other()).fifo == [] && Ch(s.gpu, k.Other()).running == {}
    && s.host.ctr == s.hist.sub == n && s.host.slm == 0
  }

  lemma RestedAgain(s: State, k: Kind, s': State, n: nat)
    requires Ready(s, k, n) && s' == s.(gpu := s'.gpu)
    requires Ch(s'.gpu, k).fifo == [] && Ch(s'.gpu, k).running == {} && Ch(s'.gpu, k.Other()) == Ch(s.gpu, k.Other())
    requires Val(s'.gpu, TIMELINE) == n
    ensures Enabled(s', AwaitStep) && Rested(AwaitNext(s')) && AwaitNext(s').host.ctr == n
  {
  }

  /** A queue after initializeQueue: both channels bound and awaited. */
  lemma ReadyRun(page: nat) returns (r: Run)
    requires page % 256 == 0
    ensures IsPatientRun(r) && Rested(End(r)) && End(r).host.ctr == 2
  {
    hide IsPatientRun, Rested;
    r := StartRun(page);
    r := BindAndAwait(r, Compute);
    r := BindAndAwait(r, Dma);
  }

  // ------------------------------------------------------- the client's calls

  /** A kernel without parameters, and the same without any constant bank. */
  const KERNEL: Kernel := Kernel([], 0, [352])
  const NO_BANKS: Kernel := Kernel([], 0, [])
  const ASYNC: LaunchReq := LaunchReq(KERNEL, 0, NotAllocated, true, false)
  const REFUSED: LaunchReq := LaunchReq(NO_BANKS, 0, NotAllocated, true, true)
  const COPY: CopyReq := CopyReq(0x1000, 0x2000, 64, true)

  lemma AsyncFits(h: Host)
    requires h.argsIdx <= BlockSize(352)
    ensures Verdict(h, ASYNC) == Success && AllocatedArgs(h, ASYNC)
  {
    assert BlockSize(352) == 2560;
  }

  lemma AsyncPrefix(s: State)
    requires s.host.dma == [] && s.host.slm == 0
    ensures LaunchPrefix(s, ASYNC) == s.(host := s.host.(mode := Mode(Compute)))
  {
  }

  lemma AsyncLaunch(s: State, s1: State)
    requires Rested(s) && s.host.ctr + 2 < U32 && s1 == LaunchNext(s, ASYNC)
    ensures Legal(s, LaunchStep(ASYNC), s1) && s1.phase.Idle? && s1.gpu == s.gpu
    ensures s1.host == s.host.(compute := [Launch(s.host.ctr + 1, QmdAddr(s.host, ASYNC))], mode := Mode(Compute),
                               ctr := s.host.ctr + 1, pending := true, argsIdx := BlockSize(352))
    ensures s1.hist.active.Unset? && s1.hist.sub == s.hist.sub
  {
    var n, qmd := s.host.ctr + 1, QmdAddr(s.host, ASYNC);
    AsyncFits(s.host);
    AsyncPrefix(s);
    hide LaunchPrefix, Verdict, Rested;
    assert s1 == Accepted(WithArgs(LaunchPrefix(s, ASYNC), ASYNC), Compute, Launch(n, qmd), LaunchOp(s.host, ASYNC));
    assert s1.host.compute == [Launch(n, qmd)];
    assert s1.host == s.host.(compute := [Launch(n, qmd)], mode := Mode(Compute), ctr := n, pending := true,
                              argsIdx := BlockSize(352));
  }

  lemma RefusedLaunch(s: State, n: nat, qmd: nat, s1: State)
    requires s.phase.Idle? && s.hist.active.Unset? && s.host.ctr == n && n + 1 < U32 && Val(s.gpu, TIMELINE) != n
    requires s.host.compute == [Launch(n, qmd)] && s.host.dma == [] && s.host.backlog == [] && s.host.pending
    requires s.host.mode == Mode(Compute) && s.host.slm == 0 && s1 == LaunchNext(s, REFUSED)
    ensures Legal(s, LaunchStep(REFUSED), s1) && LaunchStatus(s, REFUSED) == InvalidImage
    ensures s1.host == s.host.(compute := [Launch(n, qmd), Release(TIMELINE, n), Acquire(TIMELINE, n)], pending := false)
    ensures s1.phase.Idle? && s1.gpu == s.gpu && s1.hist.active.Unset?
  {
    assert Switched(s, Compute) == s;
    assert s1.host.compute == [Launch(n, qmd), Release(TIMELINE, n), Acquire(TIMELINE, n)];
  }

  /** An asynchronous launch and a synchronous one refused for want of constants, at a queue that has
      only been initialised: an acquire is left behind. */
  lemma UnfetchedReached(page: nat) returns (r: Run)
    requires page % 256 == 0
    ensures IsPatientRun(r) && Unfetched(End(r)) && End(r).host.ctr == 3
    ensures Enabled(End(r), CopyStep(COPY)) && Disciplined(End(r), CopyStep(COPY)) && CopyStatus(COPY) == Success
  {
    r := ReadyRun(page);
    var s := End(r);
    var s1 := LaunchNext(s, ASYNC);
    AsyncLaunch(s, s1);
    var qmd := QmdAddr(s.host, ASYNC);
    var s2 := LaunchNext(s1, REFUSED);
    RefusedLaunch(s1, 3, qmd, s2);
    hide IsPatientRun, Rested, Legal, LaunchNext;
    r := Extend(r, LaunchStep(ASYNC), s1);
    r := Extend(r, LaunchStep(REFUSED), s2);
    DanglesHere(s2, qmd);
  }

  lemma DanglesHere(s: State, qmd: nat)
    requires s.phase.Idle? && s.host.backlog == []
    requires s.host.compute == [Launch(3, qmd), Release(TIMELINE, 3), Acquire(TIMELINE, 3)]
    ensures Unfetched(s)
  {
    var c := s.host.compute;
    assert c[1..] == [c[1], c[2]] && [c[1], c[2]][1..] == [c[2]] && [c[2]][1..] == [];
    assert Dangle([c[2]], false) && Dangle([c[1], c[2]], false);
  }

  /** And a copy enqueued there, commenced as usual, may leave the COMPUTE channel stuck. */
  lemma WedgeReached(page: nat) returns (r: Run, steps: seq<Step>, s': State)
    requires page % 256 == 0
    ensures IsPatientRun(r) && Unfetched(End(r)) && CopyStatus(COPY) == Success
    ensures Reach(CopyNext(End(r), COPY), steps, s') && AllWinding(steps) && Stranded(s'.gpu)
  {
    r := UnfetchedReached(page);
    hide IsPatientRun, Legal, Unfetched, Safe, Live;
    LastLive(r);
    steps, s' := CopyStrands(End(r), COPY);
  }

  lemma LastLive(r: Run)
    requires IsPatientRun(r)
    ensures r.states != [] && Safe(End(r)) && Live(End(r))
  {
    hide Legal, Patient, Safe, Live;
    RunLive(r, |r.states| - 1);
  }

  // ------------------------------------------- work commenced and not awaited

  /** A commence of work of kind k alone, at a GPU that has not taken any of it yet. */
  lemma CommencedAlone(r: Run, k: Kind, n: nat) returns (r': Run)
    requires IsPatientRun(r) && End(r).phase.Idle? && End(r).host.backlog == [] && End(r).host.mode == Mode(k)
    requires Buf(End(r).host, k) != [] && Buf(End(r).host, k.Other()) == []
    requires End(r).host.ctr == n && Val(End(r).gpu, TIMELINE) < n
    ensures IsPatientRun(r') && Unawaited(End(r'), k) && Val(End(r').gpu, TIMELINE) < n == End(r').host.ctr
  {
    assert r.states != [];
    var s, s' := End(r), CommenceSingleNext(End(r));
    CommenceLegal(s, k, s');
    hide IsPatientRun, Legal, Patient, Safe, Live;
    r' := Extend(r, CommenceSingleStep, s');
    LastLive(r');
  }

  lemma CommenceLegal(s: State, k: Kind, s': State)
    requires s.phase.Idle? && s.host.backlog == [] && s.host.mode == Mode(k) && s' == CommenceSingleNext(s)
    requires Buf(s.host, k) != [] && Buf(s.host, k.Other()) == []
    ensures Legal(s, CommenceSingleStep, s') && Patient(s, CommenceSingleStep)
    ensures s'.phase.Idle? && s'.host.compute == [] && s'.host.dma == [] && s'.host.backlog == []
    ensures s'.host.ctr == s'.hist.sub == s.host.ctr && s'.hist.active == Mode(k)
    ensures s'.gpu.signals == s.gpu.signals
  {
  }

  /** Kernels commenced alone, the timeline still short of them. */
  lemma KernelsUnawaited(page: nat) returns (r: Run)
    requires page % 256 == 0
    ensures IsPatientRun(r) && Unawaited(End(r), Compute) && Val(End(r).gpu, TIMELINE) < End(r).host.ctr
    ensures Enabled(End(r), CopyStep(COPY)) && CopyStatus(COPY) == Success
  {
    r := ReadyRun(page);
    var s := End(r);
    var s1 := LaunchNext(s, ASYNC);
    AsyncLaunch(s, s1);
    hide IsPatientRun, Rested, Legal, LaunchNext, Safe, Live;
    r := Extend(r, LaunchStep(ASYNC), s1);
    r := CommencedAlone(r, Compute, 3);
  }

  lemma CopyEnqueued(s: State, s1: State)
    requires Rested(s) && s.host.ctr + 2 < U32 && s1 == CopyNext(s, COPY)
    ensures Legal(s, CopyStep(COPY), s1) && Patient(s, CopyStep(COPY)) && s1.phase.Idle? && s1.gpu == s.gpu
    ensures s1.host.dma != [] && s1.host.compute == [] && s1.host.backlog == [] && s1.host.mode == Mode(Dma)
    ensures s1.host.ctr == s.host.ctr + 1
  {
  }

  /** A copy commenced alone, the timeline still short of it. */
  lemma CopyUnawaited(page: nat) returns (r: Run)
    requires page % 256 == 0
    ensures IsPatientRun(r) && Unawaited(End(r), Dma) && Val(End(r).gpu, TIMELINE) < End(r).host.ctr
  {
    r := ReadyRun(page);
    var s := End(r);
    var s1 := CopyNext(s, COPY);
    CopyEnqueued(s, s1);
    hide IsPatientRun, Rested, Legal, Patient, CopyNext, Safe, Live;
    r := Extend(r, CopyStep(COPY), s1);
    r := CommencedAlone(r, Dma, 3);
  }

  /** So an unawaited change of kind does break the promise of a real stream. */
  lemma BrokenPromise(page: nat) returns (r: Run)
    requires page % 256 == 0
    ensures IsPatientRun(r) && Unawaited(End(r), Compute) && CopyStatus(COPY) == Success
    ensures !Promise(CopyNext(End(r), COPY))
  {
    r := KernelsUnawaited(page);
    hide Unawaited, Promise, Legal, Patient, Initial;
    CopyPromiseIff(End(r), COPY);
  }

  // ----------------------------------------------------- kernels do overlap

  lemma AsyncAfter(s: State, s1: State)
    requires s.phase.Idle? && s.host.dma == [] && s.host.slm == 0 && s.host.argsIdx <= BlockSize(352)
    requires MayFollow(s.host, s.hist, Compute) && s.host.ctr + 1 < U32 && s1 == LaunchNext(s, ASYNC)
    ensures Legal(s, LaunchStep(ASYNC), s1) && Patient(s, LaunchStep(ASYNC)) && s1.phase.Idle? && s1.gpu == s.gpu
    ensures s1.host.compute == s.host.compute + [Launch(s.host.ctr + 1, QmdAddr(s.host, ASYNC))]
    ensures s1.host.dma == [] && s1.host.backlog == s.host.backlog && s1.hist.active == s.hist.active
    ensures s1.host.ctr == s.host.ctr + 1 && s1.host.pending && s1.host.mode == Mode(Compute)
  {
    AsyncFits(s.host);
    AsyncPrefix(s);
    hide LaunchPrefix, Verdict;
    assert s1 == Accepted(WithArgs(LaunchPrefix(s, ASYNC), ASYNC), Compute,
                          Launch(s.host.ctr + 1, QmdAddr(s.host, ASYNC)), LaunchOp(s.host, ASYNC));
  }

  /** Two asynchronous kernels: the second may start although the first is not done. */
  lemma KernelsOverlap(page: nat) returns (r: Run)
    requires page % 256 == 0
    ensures IsPatientRun(r) && Starts(End(r), Step.GpuStep(Fetch(Compute)), 4) && 3 !in End(r).gpu.done
    ensures Enabled(End(r), Step.GpuStep(Fetch(Compute)))
  {
    r := ReadyRun(page);
    var s := End(r);
    var s1 := LaunchNext(s, ASYNC);
    AsyncLaunch(s, s1);
    var s2 := LaunchNext(s1, ASYNC);
    AsyncAfter(s1, s2);
    hide IsPatientRun, Rested, Legal, LaunchNext, Starts, Enabled;
    var s3, s4 := FirstOfTwo(s2, s2.host.compute[0].qmd, s2.host.compute[1].qmd);
    r := Extend(r, LaunchStep(ASYNC), s1);
    r := Extend(r, LaunchStep(ASYNC), s2);
    r := Extend(r, CommenceSingleStep, s3);
    r := Extend(r, Step.GpuStep(Fetch(Compute)), s4);
    RunningNotDone(r, 3);
  }

  /** Two kernels commenced together, and the first of them started. */
  lemma FirstOfTwo(s: State, a: nat, b: nat) returns (s1: State, s2: State)
    requires s.phase.Idle? && s.host.backlog == [] && s.host.mode == Mode(Compute) && s.host.dma == [] && s.gpu.compute.fifo == []
    requires s.host.compute == [Launch(3, a), Launch(4, b)] && s.host.pending && s.host.ctr == 4
    ensures Legal(s, CommenceSingleStep, s1) && Legal(s1, Step.GpuStep(Fetch(Compute)), s2)
    ensures Starts(s2, Step.GpuStep(Fetch(Compute)), 4) && Enabled(s2, Step.GpuStep(Fetch(Compute))) && 3 in s2.gpu.compute.running
  {
    s1 := CommenceSingleNext(s);
    CommenceLegal(s, Compute, s1);
    assert s1.gpu.compute.fifo == [Launch(3, a), Launch(4, b), Release(TIMELINE, 4)] by { PairSubmitted(s, a, b); }
    hide CommenceSingleNext, Legal, Starts, Enabled, Next;
    s2 := FetchFirst(s1, a, b);
  }

  lemma PairSubmitted(s: State, a: nat, b: nat)
    requires s.host.mode == Mode(Compute) && s.gpu.compute.fifo == [] && s.host.ctr == 4 && s.host.pending
    requires s.host.compute == [Launch(3, a), Launch(4, b)]
    ensures CommenceSingleNext(s).gpu.compute.fifo == [Launch(3, a), Launch(4, b), Release(TIMELINE, 4)]
  {
  }

  lemma FetchFirst(s: State, a: nat, b: nat) returns (s': State)
    requires s.gpu.compute.fifo == [Launch(3, a), Launch(4, b), Release(TIMELINE, 4)]
    ensures Legal(s, Step.GpuStep(Fetch(Compute)), s')
    ensures Starts(s', Step.GpuStep(Fetch(Compute)), 4) && Enabled(s', Step.GpuStep(Fetch(Compute))) && 3 in s'.gpu.compute.running
  {
    var f := Step.GpuStep(Fetch(Compute));
    s' := s.(gpu := GpuNext(s.gpu, Fetch(Compute)));
    assert Legal(s, f, s');
    assert s'.gpu.compute.fifo == [Launch(4, b), Release(TIMELINE, 4)];
  }

  lemma RunningNotDone(r: Run, n: nat)
    requires IsPatientRun(r)
    ensures r.states != [] && (n in End(r).gpu.compute.running ==> n !in End(r).gpu.done)
  {
    hide Legal, Patient, OrderSafe, EventSafe, HostSafe, ArgsSafe, SignalsSafe, Live;
    LastLive(r);
  }

  // ------------------------------------------- copies that need no await

  /** Kernels commenced and not awaited, and another kernel enqueued behind them: a copy may follow
      at once although the timeline is short of the kernels that were commenced. */
  lemma CopyBehindKernels(page: nat) returns (r: Run)
    requires page % 256 == 0
    ensures IsPatientRun(r) && |r.steps| > 0 && r.steps[|r.steps| - 1] == CopyStep(COPY)
    ensures var s := r.states[|r.states| - 2];
            s.hist.active == Mode(Compute) && Val(s.gpu, TIMELINE) < s.host.ctr && CopyStatus(COPY) == Success
  {
    r := ReadyRun(page);
    var s := End(r);
    var s1 := LaunchNext(s, ASYNC);
    AsyncLaunch(s, s1);
    var s2 := CommenceSingleNext(s1);
    CommenceLegal(s1, Compute, s2);
    var q := QmdAddr(s.host, ASYNC);
    OneSubmitted(s1, q);
    var s3 := LaunchNext(s2, ASYNC);
    AsyncAfter(s2, s3);
    var s4 := CopyNext(s3, COPY);
    CopyMayFollow(s3, q, s4);
    hide IsPatientRun, Rested, Legal, Patient, LaunchNext, CommenceSingleNext, CopyNext;
    r := Extend(r, LaunchStep(ASYNC), s1);
    r := Extend(r, CommenceSingleStep, s2);
    r := Extend(r, LaunchStep(ASYNC), s3);
    r := Extend(r, CopyStep(COPY), s4);
  }

  lemma OneSubmitted(s: State, q: nat)
    requires s.host.mode == Mode(Compute) && s.gpu.compute.fifo == [] && s.host.ctr == 3 && s.host.pending
    requires s.host.compute == [Launch(3, q)]
    ensures var t := CommenceSingleNext(s);
            && t.gpu.compute.fifo == [Launch(3, q), Release(TIMELINE, 3)]
            && t.host.slm == s.host.slm && t.host.argsIdx == s.host.argsIdx
  {
  }

  lemma CopyMayFollow(s: State, q: nat, s1: State)
    requires s.phase.Idle? && s.host.ctr == 4 && s.host.dma == [] && s.host.backlog == [] && |s.host.compute| == 1
    requires s.host.compute[0].IsWork() && s.gpu.compute.fifo == [Launch(3, q), Release(TIMELINE, 3)]
    requires s1 == CopyNext(s, COPY)
    ensures Legal(s, CopyStep(COPY), s1) && Patient(s, CopyStep(COPY))
  {
    assert s.host.compute == [s.host.compute[0]];
    DangleShort(s.host.compute[0], Release(TIMELINE, 3), GpuDangle(s.gpu));
  }
}
