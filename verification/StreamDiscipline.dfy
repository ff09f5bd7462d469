/** What the await between work of one kind, commenced alone, and work of the other kind is for:
    exactly when a client may do without it. */
module StreamDiscipline {
  import opened Results
  import opened Commands
  import opened Stream
  import opened StreamFlow
  import opened StreamSafety
  import opened StreamSteps
  import opened StreamRuns
  import opened StreamProgress
  import opened StreamDeadlock

  // ------------------------------------------------------------- the promise

  /** A walk that the code and the hardware allow, whatever the client has promised. */
  predicate Walk(s: State, steps: seq<Step>, s': State)
    decreases |steps|
  {
    if steps == [] then s' == s else Enabled(s, steps[0]) && Walk(Next(s, steps[0]), steps[1..], s')
  }

  lemma {:induction false} WalkAppend(s: State, a: seq<Step>, s1: State, b: seq<Step>, s2: State)
    requires Walk(s, a, s1) && Walk(s1, b, s2)
    ensures Walk(s, a + b, s2)
    decreases |a|
  {
    hide Enabled, Next;
    if a == [] {
      assert a + b == b;
    } else {
      assert (a + b)[1..] == a[1..] + b && (a + b)[0] == a[0];
      WalkAppend(Next(s, a[0]), a[1..], s1, b, s2);
    }
  }

  lemma WalkOne(s: State, st: Step)
    requires Enabled(s, st)
    ensures Walk(s, [st], Next(s, st))
  {
    hide Enabled, Next;
    assert [st][1..] == [] && Walk(Next(s, st), [], Next(s, st));
  }

  /** Operations that must follow others have not started before those are done. */
  ghost predicate StartsInOrder(g: Gpu, h: History) {
    forall j, n | 1 <= j < n <= |h.ops| && MustFollow(h, j, n) && Started(g, n) :: j in g.done
  }

  ghost predicate TimelineMeans(g: Gpu) {
    forall n: nat | 1 <= n <= Val(g, TIMELINE) :: n in g.done
  }

  /** No further step of the queue or the GPU takes the timeline back. */
  ghost predicate NeverBack(s: State) {
    forall st | Winding(st) && Enabled(s, st) :: Val(s.gpu, TIMELINE) <= Val(Next(s, st).gpu, TIMELINE)
  }

  ghost predicate AtEnd(g: Gpu) {
    forall a :: !GpuEnabled(g, a)
  }

  /** With the GPU at its end, the CPU wait of a commence, or of an await after one, is over. */
  ghost predicate WaitsEnd(s: State) {
    AtEnd(s.gpu) ==> forall target: nat | WaitsFor(s, target) :: Val(s.gpu, TIMELINE) >= target
  }

  ghost predicate Sound(s: State) {
    StartsInOrder(s.gpu, s.hist) && TimelineMeans(s.gpu) && NeverBack(s) && WaitsEnd(s)
  }

  /** However the queue winds on from here, the stream keeps what it promises. */
  ghost predicate Promise(s: State) {
    forall steps, s' | Walk(s, steps, s') && AllWinding(steps) :: Sound(s')
  }

  /** Work of kind k has been commenced alone and not awaited. */
  ghost predicate Unawaited(s: State, k: Kind) {
    && Safe(s) && Live(s) && s.phase.Idle? && s.hist.active == Mode(k)
    && s.host.compute == [] && s.host.dma == [] && s.host.backlog == [] && s.host.ctr == s.hist.sub
  }

  // ------------------------------------------------ when the timeline is there

  /** The same state, once the CPU has noticed that no channel is in use. */
  function Freed(s: State): State {
    s.(hist := s.hist.(active := Unset))
  }

  lemma FreedSafe(s: State, k: Kind)
    requires Unawaited(s, k) && Val(s.gpu, TIMELINE) == s.host.ctr
    ensures Safe(Freed(s)) && Live(Freed(s))
  {
    hide GpuSafe, OrderSafe, EventSafe, GpuLive, HostLive, FlowOk, FlowEnd;
    Settles(s.gpu, s.hist);
    SettleLive(s.gpu, s.hist);
    HostLiveActive(s.host, s.hist, Freed(s).hist, 0, GpuDangle(s.gpu));
    NotPending(s.host, s.hist, k);
    EmptyHostIdle(s.host, Freed(s).hist);
  }

  lemma NotPending(host: Host, h: History, k: Kind)
    requires HostIdle(host, h) && h.active == Mode(k) && host.ctr == h.sub
    requires host.compute == [] && host.dma == [] && host.backlog == []
    ensures !host.pending
  {
    if host.mode.Mode? { assert HostFlow(host, h, host.mode.kind); }
  }

  // ---------------------------------------------------- winding on from a launch

  lemma LiveSound(s: State)
    requires Safe(s) && Live(s)
    ensures Sound(s)
  {
    hide HostSafe, SignalsSafe, ArgsSafe, HostLive, Channels, RunningKind;
    CoreMeans(s.gpu, s.hist);
    forall st | Winding(st) && Enabled(s, st) ensures Val(s.gpu, TIMELINE) <= Val(Next(s, st).gpu, TIMELINE) {
      StepTimeline(s, st);
    }
    if AtEnd(s.gpu) {
      if !GpuIdle(s.gpu) { var a := SomeGpuAction(s.gpu, s.hist); }
      IdleReached(s);
      forall target: nat | WaitsFor(s, target) ensures Val(s.gpu, TIMELINE) >= target { WaitReached(s, target); }
    }
  }

  // ------------------------------------------------------ winding on from a copy

  /** What is kept after a copy, even one that will strand an acquire: all that is submitted before the
      copy is live, and nothing comes after it. */
  ghost predicate LastCopy(s: State) {
    && Safe(s) && s.host.mode == Mode(Dma)
    && match s.phase
       case Idle => CopyQueued(s) || Wound(s)
       case Draining(i) =>
         i < |s.host.backlog|
         && if i + 1 < |s.host.backlog| then
              GpuLive(s.gpu, s.hist) && AllButLast(s.host.backlog, i + 1, s.hist.sub, GpuDangle(s.gpu))
            else s.host.backlog[i].kind == Dma
  }

  ghost predicate CopyQueued(s: State) {
    && s.host.dma != [] && s.hist.sub < s.host.ctr && GpuLive(s.gpu, s.hist)
    && forall j | 0 <= j < |s.host.backlog| :: SegLive(s.host.backlog, 0, j, s.hist.sub, GpuDangle(s.gpu))
  }

  ghost predicate Wound(s: State) {
    s.host.compute == [] && s.host.dma == [] && s.host.backlog == [] && s.hist.active != Mode(Compute)
  }

  lemma SegsWeaken(segs: seq<Split>, i: nat, n: nat, sub: nat, d: bool, e: bool)
    requires i <= n <= |segs| && (e ==> d) && forall j | i <= j < n :: SegLive(segs, i, j, sub, d)
    ensures forall j | i <= j < n :: SegLive(segs, i, j, sub, e)
  {
    hide AcqOk;
    forall j | i <= j < n ensures SegLive(segs, i, j, sub, e) {
      assert SegLive(segs, i, j, sub, d);
      DangleFromMonotone(segs, i, j, e, d);
    }
  }

  lemma CopyGpuStep(s: State, a: GpuAction)
    requires LastCopy(s) && GpuEnabled(s.gpu, a) && Safe(s.(gpu := GpuNext(s.gpu, a)))
    ensures LastCopy(s.(gpu := GpuNext(s.gpu, a)))
  {
    hide HostSafe, OrderSafe, EventSafe, SignalsSafe, ArgsSafe, GpuSafe, GpuLive, SegLive;
    var g, g' := s.gpu, GpuNext(s.gpu, a);
    if GpuLive(g, s.hist) {
      GpuActLive(g, s.hist, a);
      DangleShrinks(g, s.hist, a);
      match s.phase
      case Idle =>
        if CopyQueued(s) { SegsWeaken(s.host.backlog, 0, |s.host.backlog|, s.hist.sub, GpuDangle(g), GpuDangle(g')); }
      case Draining(i) =>
        if i + 1 < |s.host.backlog| {
          SegsWeaken(s.host.backlog, i + 1, |s.host.backlog| - 1, s.hist.sub, GpuDangle(g), GpuDangle(g'));
        }
    }
  }

  lemma DangleShrinks(g: Gpu, h: History, a: GpuAction)
    requires GpuSafe(g, h) && GpuLive(g, h) && GpuEnabled(g, a)
    ensures GpuDangle(GpuNext(g, a)) ==> GpuDangle(g)
  {
    if a.Fetch? { FetchLive(g, h, a.kind); } else { assert GpuNext(g, a).compute.fifo == g.compute.fifo; }
  }

  lemma CopySingleStep(s: State)
    requires LastCopy(s) && Enabled(s, CommenceSingleStep) && Safe(CommenceSingleNext(s))
    ensures LastCopy(CommenceSingleNext(s))
  {
    hide GpuSafe, OrderSafe, EventSafe, SignalsSafe, ArgsSafe, GpuLive;
    assert HostFlow(s.host, s.hist, Dma);
    if Wound(s) { NothingOwed(s.host, s.hist, Dma); }
  }

  lemma NothingOwed(host: Host, h: History, k: Kind)
    requires HostIdle(host, h) && host.mode == Mode(k) && Buf(host, k) == [] && host.backlog == []
    ensures !host.pending
  {
    assert HostFlow(host, h, k);
  }

  lemma CopyBacklogStep(s: State)
    requires LastCopy(s) && Enabled(s, CommenceBacklogStep) && Safe(CommenceBacklogNext(s))
    ensures LastCopy(CommenceBacklogNext(s))
  {
    hide OrderSafe, EventSafe, SignalsSafe, ArgsSafe, GpuSafe, GpuLive, AcqOk, Dangle, FlowOk, FlowEnd, SegOk;
    assert HostFlow(s.host, s.hist, Dma);
    var host' := Backlogged(s.host, Dma);
    BacklogOne(s.host, Dma);
    BacklogAll(s.host, s.hist, Dma);
    var t := s.(host := host', hist := s.hist.(log := []));
    GpuExtend(s.gpu, s.hist, t.hist);
    GpuLiveLog(s.gpu, s.hist, t.hist);
    var segs, n, d := host'.backlog, |s.host.backlog|, GpuDangle(s.gpu);
    assert segs == s.host.backlog + [Split(s.host.dma, Dma, s.host.ctr, s.host.pending)];
    forall j | 0 <= j < n ensures SegLive(segs, 0, j, t.hist.sub, d) {
      assert SegLive(s.host.backlog, 0, j, s.hist.sub, d);
      DangleFromSame(s.host.backlog, segs, 0, j, d);
    }
    NextSplit(t, 0);
  }

  lemma CopyDrainStep(s: State)
    requires LastCopy(s) && Enabled(s, DrainStep) && Safe(DrainNext(s))
    ensures LastCopy(DrainNext(s))
  {
    hide OrderSafe, EventSafe, SignalsSafe, ArgsSafe, GpuSafe, GpuLive, AcqOk, Dangle, FlowOk, FlowEnd, SegOk;
    var i, t := s.phase.i + 1, s.(hist := s.hist.(active := Unset));
    if i + 1 < |s.host.backlog| {
      Settles(s.gpu, s.hist);
      SettleLive(s.gpu, s.hist);
      NextSplit(t, i);
    }
  }

  lemma LastCopyStep(s: State, st: Step)
    requires LastCopy(s) && Winding(st) && Enabled(s, st)
    ensures LastCopy(Next(s, st))
  {
    hide GpuSafe, OrderSafe, EventSafe, SignalsSafe, ArgsSafe, HostSafe, GpuLive, SegLive, AllButLast;
    assert Disciplined(s, st);
    StepKeeps(s, st);
    match st {
    case GpuStep(a) => CopyGpuStep(s, a);
    case CommenceSingleStep => CopySingleStep(s);
    case CommenceBacklogStep => CopyBacklogStep(s);
    case DrainStep => CopyDrainStep(s);
    case AwaitStep =>
      if CopyQueued(s) { ValueAtMost(s.gpu, s.hist); }
    case _ =>
    }
  }

  lemma ValueAtMost(g: Gpu, h: History)
    requires GpuSafe(g, h)
    ensures Val(g, TIMELINE) <= h.sub <= |h.ops|
  {
  }

  lemma LastCopySound(s: State)
    requires LastCopy(s)
    ensures Sound(s)
  {
    hide NeverBack, StartsInOrder, TimelineMeans, WaitsEnd, GpuSafe, OrderSafe, EventSafe, SignalsSafe, ArgsSafe, HostSafe,
      GpuLive, AllButLast, CopyQueued, Wound;
    CoreMeans(s.gpu, s.hist);
    NeverBackSafe(s);
    LastCopyWaits(s);
  }

  lemma LastCopyWaits(s: State)
    requires LastCopy(s)
    ensures WaitsEnd(s)
  {
    hide OrderSafe, EventSafe, SignalsSafe, ArgsSafe, GpuSafe, GpuLive, SegLive, AllButLast, HostIdle;
    if AtEnd(s.gpu) {
      forall target: nat | WaitsFor(s, target) ensures Val(s.gpu, TIMELINE) >= target {
        if s.phase.Draining? && s.phase.i + 1 < |s.host.backlog| {
          if !GpuIdle(s.gpu) { var a := SomeGpuAction(s.gpu, s.hist); }
          IdleReached(s);
        } else {
          DmaReached(s.gpu, s.hist);
        }
      }
    }
  }

  lemma NeverBackSafe(s: State)
    requires Safe(s)
    ensures NeverBack(s)
  {
    hide Safe, Next, Enabled, Winding;
    forall st | Winding(st) && Enabled(s, st) ensures Val(s.gpu, TIMELINE) <= Val(Next(s, st).gpu, TIMELINE) {
      StepTimeline(s, st);
    }
  }

  lemma CoreMeans(g: Gpu, h: History)
    requires Core(g, h)
    ensures StartsInOrder(g, h) && TimelineMeans(g)
  {
    hide Channels, RunningKind, EventSafe;
  }

  /** A GPU at its end, with nothing in use but the DMA channel, has reached the last number. */
  lemma DmaReached(g: Gpu, h: History)
    requires GpuSafe(g, h) && h.active != Mode(Compute) && AtEnd(g)
    ensures Val(g, TIMELINE) == h.sub
  {
    hide Counts, RunningKind;
    if h.active == Mode(Dma) {
      assert forall op | op in g.dma.running :: GpuEnabled(g, Finish(Dma, op));
      assert g.dma.running == {};
      if g.dma.fifo != [] { HeadFits(g, h, Dma); }
      assert g.dma.fifo != [] ==> GpuEnabled(g, Fetch(Dma));
      assert Leads(g, h, Dma);
    }
  }

  /** Winding steps do not read which channel is in use. */
  ghost predicate Alike(s: State, t: State) {
    t == s.(hist := s.hist.(active := t.hist.active))
  }

  lemma AlikeStep(s: State, t: State, st: Step)
    requires Alike(s, t) && Winding(st) && Enabled(s, st)
    ensures Enabled(t, st) && Alike(Next(s, st), Next(t, st))
  {
  }

  lemma AlikeSound(s: State, t: State)
    requires Alike(s, t) && Sound(t)
    ensures Sound(s)
  {
    hide Enabled, Next, Winding;
    forall st | Winding(st) && Enabled(s, st) ensures Val(s.gpu, TIMELINE) <= Val(Next(s, st).gpu, TIMELINE) {
      AlikeStep(s, t, st);
    }
    assert forall j, n | 1 <= j < n <= |s.hist.ops| :: MustFollow(s.hist, j, n) <==> MustFollow(t.hist, j, n);
    assert forall target: nat :: WaitsFor(s, target) <==> WaitsFor(t, target);
  }

  /** What is kept after one more operation of kind k. */
  ghost predicate Kept(s: State, k: Kind) {
    if k == Compute then Safe(s) && Live(s) else LastCopy(s)
  }

  lemma KeptStep(s: State, k: Kind, st: Step)
    requires Kept(s, k) && Winding(st) && Enabled(s, st)
    ensures Kept(Next(s, st), k)
  {
    hide Safe, Live, LastCopy;
    if k == Compute {
      assert Disciplined(s, st) && Patient(s, st);
      StepKeeps(s, st);
      StepLive(s, st, Next(s, st));
    } else {
      LastCopyStep(s, st);
    }
  }

  lemma KeptSound(s: State, k: Kind)
    requires Kept(s, k)
    ensures Sound(s)
  {
    hide Safe, Live, LastCopy, Sound;
    if k == Compute { LiveSound(s); } else { LastCopySound(s); }
  }

  lemma {:induction false} KeptWalk(s: State, t: State, k: Kind, steps: seq<Step>, s': State)
    requires Alike(s, t) && Kept(t, k) && Walk(s, steps, s') && AllWinding(steps)
    ensures Sound(s')
    decreases |steps|
  {
    hide Kept, Alike, Sound, Enabled, Next;
    if steps == [] {
      KeptSound(t, k);
      AlikeSound(s, t);
    } else {
      assert Winding(steps[0]) && AllWinding(steps[1..]);
      AlikeStep(s, t, steps[0]);
      KeptStep(t, k, steps[0]);
      KeptWalk(Next(s, steps[0]), Next(t, steps[0]), k, steps[1..], s');
    }
  }

  lemma KeptPromise(s: State, t: State, k: Kind)
    requires Alike(s, t) && Kept(t, k)
    ensures Promise(s)
  {
    hide Alike, Kept, Sound;
    forall steps, s' | Walk(s, steps, s') && AllWinding(steps) ensures Sound(s') {
      KeptWalk(s, t, k, steps, s');
    }
  }

  /** A copy that may follow. */
  lemma CopyKept(s: State, q: CopyReq)
    requires Safe(s) && Live(s) && Enabled(s, CopyStep(q)) && MayFollow(s.host, s.hist, Dma) && CopyStatus(q) == Success
    ensures LastCopy(CopyNext(s, q))
  {
    hide GpuSafe, OrderSafe, EventSafe, SignalsSafe, ArgsSafe, GpuLive, AcqOk, Dangle, FlowOk, FlowEnd, SegOk;
    StepKeeps(s, CopyStep(q));
    ValueAtMost(s.gpu, s.hist);
    var s', d := CopyNext(s, q), GpuDangle(s.gpu);
    CopyFrame(s, q, s');
    if s.host.mode == Mode(Compute) { BackloggedLive(s.host, s.hist, Compute, d); }
    CopySegs(s, q, d);
    GpuLiveLog(s.gpu, s.hist, s'.hist);
  }

  lemma CopySegs(s: State, q: CopyReq, d: bool)
    requires HostIdle(s.host, s.hist) && HostLive(s.host, s.hist, 0, d) && CopyStatus(q) == Success
    requires s.host.mode == Mode(Compute) ==> HostLive(Backlogged(s.host, Compute), s.hist, 0, d)
    ensures var s' := CopyNext(s, q);
            && s'.host.dma != [] && s'.host.mode == Mode(Dma)
            && forall j | 0 <= j < |s'.host.backlog| :: SegLive(s'.host.backlog, 0, j, s.hist.sub, d)
  {
    hide AcqOk, Dangle, FlowOk, FlowEnd, SegOk, SegLive;
    if s.host.mode.Mode? { assert HostFlow(s.host, s.hist, s.host.mode.kind); }
    assert CopyNext(s, q).host.backlog == (if s.host.compute == [] then s.host.backlog else Backlogged(s.host, Compute).backlog);
  }

  lemma CopySound(s: State, q: CopyReq)
    requires Unawaited(s, Compute) && Enabled(s, CopyStep(q)) && CopyStatus(q) == Success && Val(s.gpu, TIMELINE) == s.host.ctr
    ensures Promise(CopyNext(s, q))
  {
    hide Safe, Live, LastCopy, Promise;
    FreedSafe(s, Compute);
    CopyKept(Freed(s), q);
    CopyAlike(s, q);
    KeptPromise(CopyNext(s, q), CopyNext(Freed(s), q), Dma);
  }

  lemma CopyAlike(s: State, q: CopyReq)
    ensures Alike(CopyNext(s, q), CopyNext(Freed(s), q))
  {
  }

  lemma LaunchSound(s: State, r: LaunchReq)
    requires Unawaited(s, Dma) && Enabled(s, LaunchStep(r)) && Val(s.gpu, TIMELINE) == s.host.ctr
    ensures Promise(LaunchNext(s, r))
  {
    hide Safe, Live, LaunchNext, Alike, Promise;
    FreedSafe(s, Dma);
    LaunchKept(Freed(s), r);
    LaunchAlike(s, r);
    KeptPromise(LaunchNext(s, r), LaunchNext(Freed(s), r), Compute);
  }

  /** A launch that may follow. */
  lemma LaunchKept(s: State, r: LaunchReq)
    requires Safe(s) && Live(s) && Enabled(s, LaunchStep(r)) && MayFollow(s.host, s.hist, Compute)
    ensures Safe(LaunchNext(s, r)) && Live(LaunchNext(s, r))
  {
    hide Safe, Live, LaunchNext;
    StepKeeps(s, LaunchStep(r));
    StepLive(s, LaunchStep(r), LaunchNext(s, r));
  }

  lemma LaunchAlike(s: State, r: LaunchReq)
    ensures Alike(LaunchNext(s, r), LaunchNext(Freed(s), r))
  {
    hide Verdict, LaunchPrefix, Accepted;
    var p := LaunchPrefix(s, r);
    PrefixAlike(s, r);
    AcceptAlike(WithArgs(p, r), Launch(s.host.ctr + 1, if r.kernel.constants == [] then 0 else QmdAddr(s.host, r)),
                if r.kernel.constants == [] then Op(Compute, r.sync, 0, 0) else LaunchOp(s.host, r));
    assert r.kernel.constants == [] ==> Verdict(s.host, r) == InvalidImage by { NoConstants(s.host, r); }
  }

  lemma NoConstants(h: Host, r: LaunchReq)
    ensures r.kernel.constants == [] ==> Verdict(h, r) == InvalidImage
  {
  }

  lemma PrefixAlike(s: State, r: LaunchReq)
    ensures LaunchPrefix(Freed(s), r) == Freed(LaunchPrefix(s, r))
  {
    var s1 := Switched(s, Compute);
    assert Switched(Freed(s), Compute) == Freed(s1);
    var s2 := WithLocalMem(s1, r);
    assert WithLocalMem(Freed(s1), r) == Freed(s2);
    assert Flushed(Freed(s2)) == Freed(Flushed(s2));
  }

  lemma AcceptAlike(s: State, c: Command, op: Op)
    requires c.IsWork()
    ensures Accepted(Freed(s), Compute, c, op) == Freed(Accepted(s, Compute, c, op))
  {
  }
}
