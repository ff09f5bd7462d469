/** A refused synchronous launch can leave an acquire behind with no kernel after it. This module
    says exactly when a copy that follows may strand it, and the COMPUTE channel with it. */
module StreamDeadlock {
  import opened Results
  import opened Commands
  import opened Stream
  import opened StreamFlow
  import opened StreamSafety
  import opened StreamSteps
  import opened StreamRuns
  import opened StreamProgress

  /** An acquire whose value the timeline has already passed. */
  predicate StrandedAt(g: Gpu, i: nat) {
    && i < |g.compute.fifo|
    && g.compute.fifo[i].Acquire? && g.compute.fifo[i].sig == TIMELINE
    && g.compute.fifo[i].value < Val(g, TIMELINE)
  }

  ghost predicate Stranded(g: Gpu) {
    exists i: nat :: StrandedAt(g, i)
  }

  lemma StrandedFetch(g: Gpu, a: GpuAction)
    requires Stranded(g) && GpuEnabled(g, a) && Val(g, TIMELINE) <= Val(GpuNext(g, a), TIMELINE)
    ensures Stranded(GpuNext(g, a))
  {
    var i: nat :| StrandedAt(g, i);
    if a == Fetch(Compute) {
      assert i > 0;
      assert StrandedAt(GpuNext(g, a), i - 1);
    } else {
      assert StrandedAt(GpuNext(g, a), i);
    }
  }

  lemma StrandedSubmit(s: State, k: Kind, cmds: seq<Command>, upto: nat)
    requires Stranded(s.gpu)
    ensures Stranded(Submitted(s, k, cmds, upto).gpu)
  {
    var i: nat :| StrandedAt(s.gpu, i);
    assert StrandedAt(Submitted(s, k, cmds, upto).gpu, i);
  }

  /** A stranded acquire is never executed: neither it nor anything behind it leaves the channel,
      whatever the client, the CPU and the GPU do later. */
  lemma StrandedStays(s: State, st: Step, s': State)
    requires Safe(s) && Legal(s, st, s') && Stranded(s.gpu)
    ensures Stranded(s'.gpu) && !GpuIdle(s'.gpu)
  {
    hide Safe, LaunchNext, CopyNext, RecordNext, Stranded, StrandedAt;
    StepTimeline(s, st);
    match st {
    case LaunchStep(r) => LaunchFrame(s, r, s');
    case CopyStep(r) => CopyFrame(s, r, s');
    case RecordStep => RecordFrame(s);
    case CommenceSingleStep =>
      if s.host.mode.Mode? {
        var k := s.host.mode.kind;
        StrandedSubmit(s, k, Buf(s.host, k) + Owed(s.host.ctr, s.host.pending), s.host.ctr);
      }
    case CommenceBacklogStep =>
      var sp := Backlogged(Backlogged(s.host, Compute), Dma).backlog[0];
      StrandedSubmit(s, sp.kind, Full(sp), sp.ctr);
    case DrainStep =>
      if s.phase.i + 1 < |s.host.backlog| {
        var sp := s.host.backlog[s.phase.i + 1];
        StrandedSubmit(s, sp.kind, Full(sp), sp.ctr);
      }
    case AwaitStep =>
    case BindStep(k, ms) =>
      var n := s.host.ctr + 1;
      var s1 := s.(host := s.host.(ctr := n), hist := s.hist.(ops := s.hist.ops + [Op(k, true, 0, 0)]));
      StrandedSubmit(s1, k, [Bind(n, ms), Release(TIMELINE, n)], n);
    case GpuStep(a) => StrandedFetch(s.gpu, a);
    }
    StrandedNotIdle(s'.gpu);
  }

  lemma StrandedNotIdle(g: Gpu)
    requires Stranded(g)
    ensures !GpuIdle(g)
  {
    var i: nat :| StrandedAt(g, i);
  }

  /** The liveness invariant excludes stranded acquires. */
  lemma {:induction false} AcqNotBehind(cmds: seq<Command>, m: Mark, k: Kind, h: History, i: nat)
    requires AcqOk(cmds, m) && FlowOk(cmds, m, k, h) && m.rel <= m.last <= |h.ops|
    requires i < |cmds| && cmds[i].Acquire?
    ensures cmds[i].value >= m.rel
  {
    if i == 0 {
    } else {
      var m' := Advance(cmds[0], m);
      AcqNotBehind(cmds[1..], m', k, h, i - 1);
    }
  }

  lemma LiveNotStranded(s: State)
    requires Safe(s) && Live(s)
    ensures !Stranded(s.gpu)
  {
    hide OrderSafe, EventSafe, SignalsSafe, ArgsSafe, HostSafe, HostLive;
    var g, h := s.gpu, s.hist;
    if i: nat :| StrandedAt(g, i) {
      assert g.compute.fifo[i] in g.compute.fifo;
      if h.active != Mode(Dma) {
        FreeUnlessOther(h, Compute);
        LeadsOrQuietFlow(g, h, Compute);
        AcqNotBehind(g.compute.fifo, Mark(g.last, Val(g, TIMELINE)), Compute, h, i);
      }
    }
  }

  // --------------------------------------------------------------- reachability

  ghost predicate Reach(s: State, steps: seq<Step>, s': State)
    decreases |steps|
  {
    if steps == [] then s' == s
    else
      && Enabled(s, steps[0]) && Disciplined(s, steps[0])
      && Reach(Next(s, steps[0]), steps[1..], s')
  }

  lemma {:induction false} ReachAppend(s: State, a: seq<Step>, s1: State, b: seq<Step>, s2: State)
    requires Reach(s, a, s1) && Reach(s1, b, s2)
    ensures Reach(s, a + b, s2)
    decreases |a|
  {
    hide Enabled, Disciplined, Next;
    if a == [] {
      assert a + b == b;
    } else {
      assert (a + b)[1..] == a[1..] + b && (a + b)[0] == a[0];
      ReachAppend(Next(s, a[0]), a[1..], s1, b, s2);
    }
  }

  lemma ReachStep(s: State, st: Step, s1: State, b: seq<Step>, s2: State)
    requires Legal(s, st, s1) && Reach(s1, b, s2)
    ensures Reach(s, [st] + b, s2)
  {
    assert ([st] + b)[1..] == b;
  }

  /** Steps by which the queue works off what it has, without further client requests. */
  predicate Winding(st: Step) {
    st.CommenceSingleStep? || st.CommenceBacklogStep? || st.DrainStep? || st.AwaitStep? || st.GpuStep?
  }

  predicate AllWinding(steps: seq<Step>) {
    forall i | 0 <= i < |steps| :: Winding(steps[i])
  }

  // ----------------------------------------------- without an unfetched acquire

  lemma {:induction false} WindingNotStranded(s: State, steps: seq<Step>, s': State)
    requires Safe(s) && Live(s) && Reach(s, steps, s') && AllWinding(steps)
    ensures !Stranded(s'.gpu)
    decreases |steps|
  {
    hide Next, Safe, Live, Enabled, Disciplined;
    if steps == [] {
      LiveNotStranded(s);
    } else {
      assert Winding(steps[0]);
      StepKeeps(s, steps[0]);
      StepLive(s, steps[0], Next(s, steps[0]));
      assert AllWinding(steps[1..]);
      WindingNotStranded(Next(s, steps[0]), steps[1..], s');
    }
  }

  /** With no acquire unfetched the copy is harmless: however the queue winds on, nothing strands. */
  lemma CopyHarmless(s: State, q: CopyReq, steps: seq<Step>, s': State)
    requires Safe(s) && Live(s) && Enabled(s, CopyStep(q)) && Disciplined(s, CopyStep(q)) && !Unfetched(s)
    requires Reach(CopyNext(s, q), steps, s') && AllWinding(steps)
    ensures !Stranded(s'.gpu)
  {
    hide Safe, Live, Reach;
    StepKeeps(s, CopyStep(q));
    StepLive(s, CopyStep(q), CopyNext(s, q));
    WindingNotStranded(CopyNext(s, q), steps, s');
  }

  // -------------------------------------------------- with an unfetched acquire

  /** As long as work follows in a list, whether it leaves an acquire dangling does not depend on
      what came before it. */
  lemma {:induction false} DangleForgets(cmds: seq<Command>, m: Mark, k: Kind, h: History, d: bool, e: bool)
    requires FlowOk(cmds, m, k, h) && FlowEnd(cmds, m).last > m.last
    ensures Dangle(cmds, d) == Dangle(cmds, e)
  {
    if cmds[0].IsWork() {
    } else {
      DangleForgets(cmds[1..], Advance(cmds[0], m), k, h, cmds[0].Acquire? || d, cmds[0].Acquire? || e);
      assert Dangle(cmds, d) == Dangle(cmds[1..], cmds[0].Acquire? || d);
      assert Dangle(cmds, e) == Dangle(cmds[1..], cmds[0].Acquire? || e);
    }
  }

  lemma FetchKeepsDangle(g: Gpu, h: History, a: GpuAction)
    requires GpuSafe(g, h) && GpuLive(g, h) && GpuEnabled(g, a) && Val(g, TIMELINE) < h.sub
    ensures GpuDangle(GpuNext(g, a)) == GpuDangle(g)
  {
    hide Counts, RunningKind;
    if a == Fetch(Compute) {
      var c := g.compute.fifo[0];
      if h.active == Mode(Compute) {
        assert FlowOk(g.compute.fifo, Mark(g.last, Val(g, TIMELINE)), Compute, h);
        if c.Acquire? {
          DangleForgets(g.compute.fifo[1..], Mark(g.last, Val(g, TIMELINE)), Compute, h, true, false);
        }
      } else {
        assert h.active == Mode(Dma);
        NoAcqNoDangle(g.compute.fifo);
        assert forall x | x in g.compute.fifo[1..] :: x in g.compute.fifo;
        NoAcqNoDangle(g.compute.fifo[1..]);
      }
    } else {
      assert GpuNext(g, a).compute.fifo == g.compute.fifo;
    }
  }

  lemma {:induction false} NoAcqNoDangle(cmds: seq<Command>)
    requires NoAcq(cmds)
    ensures !Dangle(cmds, false)
  {
    if cmds == [] {
    } else {
      assert cmds[0] in cmds && forall x | x in cmds[1..] :: x in cmds;
      NoAcqNoDangle(cmds[1..]);
    }
  }

  /** A GPU schedule that just reaches the last submitted number, leaving alone what dangles. */
  lemma {:induction false} RunUntilReached(s: State) returns (steps: seq<Step>, s': State)
    requires Safe(s) && GpuLive(s.gpu, s.hist)
    ensures Reach(s, steps, s') && AllWinding(steps)
    ensures s' == s.(gpu := s'.gpu) && Safe(s') && GpuLive(s'.gpu, s'.hist)
    ensures Val(s'.gpu, TIMELINE) == s.hist.sub && GpuDangle(s'.gpu) == GpuDangle(s.gpu)
    decreases Measure(s.gpu)
  {
    hide OrderSafe, EventSafe, SignalsSafe, ArgsSafe, HostSafe, GpuLive, GpuNext, GpuEnabled, Measure, Dangle, RunningKind, Channels;
    if Val(s.gpu, TIMELINE) == s.hist.sub {
      steps, s' := [], s;
    } else {
      if GpuIdle(s.gpu) { IdleReached(s); }
      var a := SomeAction(s);
      var s1 := s.(gpu := GpuNext(s.gpu, a));
      GpuStepKeeps(s, a);
      GpuActLive(s.gpu, s.hist, a);
      ActionShrinks(s.gpu, a);
      FetchKeepsDangle(s.gpu, s.hist, a);
      var rest;
      rest, s' := RunUntilReached(s1);
      ReachStep(s, GpuStep(a), s1, rest, s');
      steps := [GpuStep(a)] + rest;
    }
  }

  lemma GpuActLive(g: Gpu, h: History, a: GpuAction)
    requires GpuSafe(g, h) && GpuLive(g, h) && GpuEnabled(g, a)
    ensures GpuLive(GpuNext(g, a), h)
  {
    if a.Fetch? {
      FetchLive(g, h, a.kind);
    } else {
      assert GpuNext(g, a).compute.fifo == g.compute.fifo && GpuNext(g, a).signals == g.signals;
    }
  }

  /** A GPU schedule that runs only the DMA channel, up to its last release. */
  lemma {:induction false} RunDma(s: State) returns (steps: seq<Step>, s': State)
    requires Safe(s) && s.hist.active == Mode(Dma)
    ensures Reach(s, steps, s') && AllWinding(steps)
    ensures s'.gpu.compute == s.gpu.compute && Val(s'.gpu, TIMELINE) == s.hist.sub
    decreases Measure(s.gpu)
  {
    hide OrderSafe, EventSafe, SignalsSafe, ArgsSafe, HostSafe, Measure, RunningKind;
    var g := s.gpu;
    if Val(g, TIMELINE) == s.hist.sub {
      steps, s' := [], s;
    } else {
      var a;
      if op :| op in g.dma.running {
        a := Finish(Dma, op);
      } else {
        a := Fetch(Dma);
        assert Leads(g, s.hist, Dma);
        assert g.dma.fifo != [];
        HeadFits(g, s.hist, Dma);
      }
      var s1 := s.(gpu := GpuNext(g, a));
      GpuStepKeeps(s, a);
      ActionShrinks(g, a);
      var rest;
      rest, s' := RunDma(s1);
      ReachStep(s, GpuStep(a), s1, rest, s');
      steps := [GpuStep(a)] + rest;
    }
  }

  /** On a quiet channel a dangling acquire waits for exactly the number that was reached. */
  lemma {:induction false} DanglingAcquire(cmds: seq<Command>, m: Mark, d: bool) returns (i: nat)
    requires AcqOk(cmds, m) && Dangle(cmds, d) && !d && m.rel == m.last
    requires forall c | c in cmds :: !c.IsWork() && !(c.Release? && c.sig == TIMELINE)
    ensures i < |cmds| && cmds[i].Acquire? && cmds[i].value == m.rel
  {
    assert cmds[0] in cmds && forall c | c in cmds[1..] :: c in cmds;
    if cmds[0].Acquire? {
      i := 0;
    } else {
      var j := DanglingAcquire(cmds[1..], m, d);
      i := j + 1;
    }
  }

  /** The DMA list with the copy goes out last, over an acquire that the GPU has not fetched. */
  lemma StrandByDma(s: State, cmds: seq<Command>, s1: State) returns (steps: seq<Step>, s': State)
    requires Safe(s) && GpuLive(s.gpu, s.hist) && GpuDangle(s.gpu) && Val(s.gpu, TIMELINE) == s.hist.sub
    requires Safe(s1) && s1.hist.active == Mode(Dma) && s1.hist.sub > s.hist.sub
    requires s1.gpu.compute == s.gpu.compute
    ensures Reach(s1, steps, s') && AllWinding(steps) && Stranded(s'.gpu)
  {
    hide OrderSafe, EventSafe, SignalsSafe, ArgsSafe, HostSafe, Reach, RunningKind;
    Settles(s.gpu, s.hist);
    SettleLive(s.gpu, s.hist);
    var h := s.hist.(active := Unset);
    assert Quiet(s.gpu, h, Compute);
    QuietPlain(s.gpu, h);
    var i := DanglingAcquire(s.gpu.compute.fifo, Mark(s.gpu.last, Val(s.gpu, TIMELINE)), false);
    assert InertCmd(s.gpu.compute.fifo[i], Val(s.gpu, TIMELINE), Compute, h);
    steps, s' := RunDma(s1);
    assert StrandedAt(s'.gpu, i);
  }

  lemma QuietPlain(g: Gpu, h: History)
    requires Quiet(g, h, Compute)
    ensures forall c | c in g.compute.fifo :: !c.IsWork() && !(c.Release? && c.sig == TIMELINE)
  {
    forall c | c in g.compute.fifo ensures !c.IsWork() && !(c.Release? && c.sig == TIMELINE) {
      var i :| 0 <= i < |g.compute.fifo| && g.compute.fifo[i] == c;
      assert InertCmd(g.compute.fifo[i], Val(g, TIMELINE), Compute, h);
    }
  }

  /** All splits but the last, which is the copy's, can go out as usual. */
  ghost predicate AllButLast(segs: seq<Split>, i: nat, sub: nat, d: bool) {
    && i < |segs| && segs[|segs| - 1].kind == Dma
    && (forall j | i <= j < |segs| - 1 :: SegLive(segs, i, j, sub, d))
  }

  /** And when the last one goes out, an acquire is left that it will strand. */
  ghost predicate ButLast(s: State, i: nat, d: bool) {
    var segs := s.host.backlog;
    && AllButLast(segs, i, s.hist.sub, d)
    && DangleFrom(segs, i, |segs| - 1, d)
    && SegStart(segs, |segs| - 1, s.hist.sub) < segs[|segs| - 1].ctr
  }

  /** One split goes out, from a GPU that is free for it and has reached the number before it. */
  lemma NextSplit(s: State, i: nat)
    requires GpuSafe(s.gpu, s.hist) && GpuLive(s.gpu, s.hist)
    requires i + 1 < |s.host.backlog| && Free(s.hist, s.host.backlog[i].kind) && SegStart(s.host.backlog, i, s.hist.sub) == s.hist.sub
    requires AllButLast(s.host.backlog, i, s.hist.sub, GpuDangle(s.gpu))
    ensures var s' := SubmitSplit(s, i);
            && GpuLive(s'.gpu, s'.hist)
            && AllButLast(s'.host.backlog, i + 1, s'.hist.sub, GpuDangle(s'.gpu))
            && (ButLast(s, i, GpuDangle(s.gpu)) ==> ButLast(s', i + 1, GpuDangle(s'.gpu)))
  {
    hide GpuSafe, AcqOk, Dangle, FlowOk, FlowEnd;
    var segs, sp, s', d := s.host.backlog, s.host.backlog[i], SubmitSplit(s, i), GpuDangle(s.gpu);
    var n, next := |segs| - 1, i + 1;
    assert SegLive(segs, i, i, s.hist.sub, d);
    SubmitLive(s, sp.kind, Full(sp), sp.ctr);
    forall j | next <= j < n ensures SegLive(segs, next, j, s'.hist.sub, DangleSplit(sp, d)) {
      assert SegLive(segs, i, j, s.hist.sub, d);
      DangleFromShift(segs, i, j, d);
    }
    DangleFromShift(segs, i, n, d);
  }

  lemma {:induction false} WindToStranded(s: State) returns (steps: seq<Step>, s': State)
    requires Safe(s) && GpuLive(s.gpu, s.hist) && s.phase.Draining?
    requires s.phase.i + 1 < |s.host.backlog| && ButLast(s, s.phase.i + 1, GpuDangle(s.gpu))
    ensures Reach(s, steps, s') && AllWinding(steps) && Stranded(s'.gpu)
    decreases |s.host.backlog| - s.phase.i
  {
    hide GpuSafe, OrderSafe, EventSafe, SignalsSafe, ArgsSafe, GpuLive, Reach, AcqOk, Dangle, FlowOk, FlowEnd, SegOk;
    var segs, i := s.host.backlog, s.phase.i + 1;
    var toHere, s1 := RunUntilReached(s);
    assert HostDraining(s.host, s.hist, s.phase.i);
    var s2 := DrainNext(s1);
    DrainKeeps(s1);
    Settles(s1.gpu, s1.hist);
    SettleLive(s1.gpu, s1.hist);
    var quiet := s1.(hist := s1.hist.(active := Unset));
    assert s2 == SubmitSplit(quiet, i);
    var rest;
    if i + 1 == |segs| {
      assert GpuDangle(s1.gpu);
      rest, s' := StrandByDma(s1, Full(segs[i]), s2);
    } else {
      ButLastActive(s, quiet, i, GpuDangle(s.gpu));
      NextSplit(quiet, i);
      rest, s' := WindToStranded(s2);
    }
    ReachStep(s1, DrainStep, s2, rest, s');
    ReachAppend(s, toHere, s1, [DrainStep] + rest, s');
    steps := toHere + ([DrainStep] + rest);
  }

  lemma ButLastActive(s: State, s': State, i: nat, d: bool)
    requires ButLast(s, i, d) && s'.host.backlog == s.host.backlog && s'.hist.sub == s.hist.sub
    ensures ButLast(s', i, d)
  {
    hide AcqOk, Dangle;
    var segs := s.host.backlog;
    forall j | i <= j < |segs| - 1 ensures SegLive(segs, i, j, s'.hist.sub, d) {
      assert SegLive(segs, i, j, s.hist.sub, d);
    }
  }

  /** The queue right after the copy was accepted over a dangling acquire. */
  lemma CopyShape(s: State, q: CopyReq)
    requires Safe(s) && Live(s) && Enabled(s, CopyStep(q)) && Disciplined(s, CopyStep(q))
    requires CopyStatus(q) == Success && Unfetched(s)
    ensures var s1 := CopyNext(s, q);
            && s.host.mode == Mode(Compute) && s.hist.dangling
            && (if s1.host.backlog == [] then s.hist.active.Unset? else Free(s.hist, s1.host.backlog[0].kind))
            && s1.host.backlog == Backlogged(s.host, Compute).backlog
            && s1.host.compute == [] && s1.host.dma != [] && s1.host.mode == Mode(Dma)
            && s1.host.ctr == s.host.ctr + 1
            && s1.gpu == s.gpu && s1.phase == s.phase
            && s1.hist.active == s.hist.active && s1.hist.sub == s.hist.sub
  {
    hide OrderSafe, EventSafe, SignalsSafe, ArgsSafe, GpuSafe, Dangle, AcqOk, FlowOk, FlowEnd, SegOk;
    assert s.hist.dangling && s.host.mode == Mode(Compute);
    assert HostFlow(s.host, s.hist, Compute);
    assert s.hist.active.Mode? ==> s.hist.active == Mode(FirstKind(s.host, Compute));
    CopyFrame(s, q, CopyNext(s, q));
  }

  lemma CopyBacklog(s: State)
    requires Safe(s) && Live(s) && Unfetched(s) && s.host.mode == Mode(Compute)
    ensures var B, d := Backlogged(s.host, Compute).backlog, GpuDangle(s.gpu);
            && HostLive(Backlogged(s.host, Compute), s.hist, 0, d)
            && DangleFrom(B, 0, |B|, d)
            && SegStart(B, |B|, s.hist.sub) <= s.host.ctr
  {
    hide OrderSafe, EventSafe, SignalsSafe, ArgsSafe, GpuSafe, FlowOk, FlowEnd, SegOk;
    var d, n := GpuDangle(s.gpu), |s.host.backlog|;
    assert HostFlow(s.host, s.hist, Compute);
    BackloggedLive(s.host, s.hist, Compute, d);
    var B := Backlogged(s.host, Compute).backlog;
    if s.host.compute != [] {
      var sp := Split(s.host.compute, Compute, s.host.ctr, s.host.pending);
      assert B == s.host.backlog + [sp];
      DangleFromSame(s.host.backlog, B, 0, n, d);
      DangleOwed(s.host.compute, s.host.ctr, s.host.pending, DangleFrom(s.host.backlog, 0, n, d));
      assert DangleFrom(B, 0, n + 1, d) == DangleSplit(sp, DangleFrom(B, 0, n, d));
    }
  }

  lemma CommencedButLast(s: State, s1: State, t: State)
    requires Safe(s) && Live(s) && Unfetched(s) && s.host.mode == Mode(Compute)
    requires s1.host.backlog == Backlogged(s.host, Compute).backlog && s1.host.compute == [] && s1.host.dma != []
    requires s1.host.ctr == s.host.ctr + 1
    requires t.host == Backlogged(Backlogged(s1.host, Compute), Dma) && t.hist.sub == s.hist.sub
    ensures ButLast(t, 0, GpuDangle(s.gpu)) && AllButLast(t.host.backlog, 0, t.hist.sub, GpuDangle(s.gpu))
    ensures |t.host.backlog| == |s1.host.backlog| + 1
  {
    hide Safe, Live, AcqOk, Dangle, HostIdle;
    CopyBacklog(s);
    var B, d := s1.host.backlog, GpuDangle(s.gpu);
    var segs := t.host.backlog;
    assert segs == B + [Split(s1.host.dma, Dma, s1.host.ctr, s1.host.pending)];
    var n := |B|;
    forall j | 0 <= j < n ensures SegLive(segs, 0, j, t.hist.sub, d) {
      assert SegLive(B, 0, j, s.hist.sub, d);
      DangleFromSame(B, segs, 0, j, d);
    }
    DangleFromSame(B, segs, 0, n, d);
  }

  /** With an acquire unfetched, some GPU timing strands it: the copy is commenced as usual, and the
      GPU happens to reach the copy's release before it looks at the acquire. */
  lemma CopyStrands(s: State, q: CopyReq) returns (steps: seq<Step>, s': State)
    requires Safe(s) && Live(s) && Enabled(s, CopyStep(q)) && Disciplined(s, CopyStep(q))
    requires CopyStatus(q) == Success && Unfetched(s)
    ensures Reach(CopyNext(s, q), steps, s') && AllWinding(steps) && Stranded(s'.gpu)
  {
    hide OrderSafe, EventSafe, SignalsSafe, ArgsSafe, GpuSafe, HostSafe, GpuLive, HostLive, Dangle, Reach, ButLast;
    var s1 := CopyNext(s, q);
    CopyShape(s, q);
    StepKeeps(s, CopyStep(q));
    var rest;
    if s1.host.backlog == [] {
      EmptyUnfetched(s);
      var s2 := CommenceSingleNext(s1);
      StepKeeps(s1, CommenceSingleStep);
      rest, s' := StrandByDma(s, [], s2);
      ReachStep(s1, CommenceSingleStep, s2, rest, s');
      steps := [CommenceSingleStep] + rest;
    } else {
      var s2 := CommenceBacklogNext(s1);
      StepKeeps(s1, CommenceBacklogStep);
      var t := s1.(host := Backlogged(Backlogged(s1.host, Compute), Dma), hist := s1.hist.(log := []));
      CommencedButLast(s, s1, t);
      assert t.host.backlog[0] == s1.host.backlog[0];
      GpuExtend(s1.gpu, s1.hist, t.hist);
      GpuLiveLog(s.gpu, s.hist, t.hist);
      NextSplit(t, 0);
      rest, s' := WindToStranded(s2);
      ReachStep(s1, CommenceBacklogStep, s2, rest, s');
      steps := [CommenceBacklogStep] + rest;
    }
  }

  lemma GpuLiveLog(g: Gpu, h: History, h': History)
    requires GpuLive(g, h) && h'.active == h.active
    ensures GpuLive(g, h')
  {
  }

  lemma EmptyUnfetched(s: State)
    requires Safe(s) && Live(s) && Unfetched(s) && s.hist.active.Unset?
    requires Backlogged(s.host, Compute).backlog == []
    ensures GpuDangle(s.gpu) && Val(s.gpu, TIMELINE) == s.hist.sub && s.hist.sub <= s.host.ctr
  {
    hide OrderSafe, EventSafe, SignalsSafe, ArgsSafe, Quiet;
    assert s.host.backlog == [] && s.host.compute == [];
  }

  /** Exactly when a copy can wedge the COMPUTE channel: an accepted, disciplined copy can be
      followed by a schedule that strands an acquire if and only if, at the call, an acquire with
      no launch behind it has not been fetched. */
  lemma CopyStrandsIff(s: State, q: CopyReq)
    requires Safe(s) && Live(s) && Enabled(s, CopyStep(q)) && Disciplined(s, CopyStep(q))
    requires CopyStatus(q) == Success
    ensures (exists steps, s' :: Reach(CopyNext(s, q), steps, s') && AllWinding(steps) && Stranded(s'.gpu))
            <==> Unfetched(s)
  {
    hide Safe, Live, Reach, Stranded, CopyNext, AllWinding;
    if Unfetched(s) {
      var steps, s' := CopyStrands(s, q);
    } else {
      forall steps, s' | Reach(CopyNext(s, q), steps, s') && AllWinding(steps) ensures !Stranded(s'.gpu) {
        CopyHarmless(s, q, steps, s');
      }
    }
  }

  // ------------------------------------------------------- where one comes from

  /** A launch that is refused after its ordering commands were enqueued. */
  predicate RefusedLate(s: State, r: LaunchReq) {
    r.numParams == |r.kernel.paramSizes| && !LocalMemFails(s.host, r) && Verdict(s.host, r) != Success
  }

  /** An accepted launch leaves nothing dangling. Any other leaves what was there, and adds an acquire
      exactly when it is synchronous, refused late, and the CPU does not see its target yet. */
  lemma LaunchDangles(s: State, r: LaunchReq, s': State)
    requires s.phase.Idle? && s' == LaunchNext(s, r)
    ensures s'.hist.dangling <==>
              LaunchStatus(s, r) != Success
              && (s.hist.dangling || (r.sync && RefusedLate(s, r) && Val(s.gpu, TIMELINE) != s.host.ctr))
  {
    hide LaunchPrefix;
    if r.numParams == |r.kernel.paramSizes| && !LocalMemFails(s.host, r) {
      PrefixDangles(s, r);
      if Verdict(s.host, r) == Success {
        AcceptDangles(WithArgs(LaunchPrefix(s, r), r), Launch(s.host.ctr + 1, QmdAddr(s.host, r)), LaunchOp(s.host, r));
      }
    }
  }

  lemma PrefixDangles(s: State, r: LaunchReq)
    ensures LaunchPrefix(s, r).hist.dangling <==> s.hist.dangling || (r.sync && Val(s.gpu, TIMELINE) != s.host.ctr)
    ensures WithArgs(LaunchPrefix(s, r), r).hist == LaunchPrefix(s, r).hist
  {
    var s1 := Switched(s, Compute);
    assert s1.hist == s.hist && s1.host.ctr == s.host.ctr;
    var rel := Release(TIMELINE, s.host.ctr);
    DangleShort(LocalMemCommand(r), rel, s.hist.dangling);
    var s2 := WithLocalMem(s1, r);
    assert s2.hist.dangling == s.hist.dangling && s2.host.ctr == s.host.ctr && s2.gpu == s.gpu;
    DangleShort(rel, rel, s.hist.dangling);
    assert Flushed(s2).hist.dangling == s.hist.dangling && Flushed(s2).host.ctr == s.host.ctr && Flushed(s2).gpu == s.gpu;
    DangleShort(Acquire(TIMELINE, s.host.ctr), rel, s.hist.dangling);
  }

  lemma DangleShort(c: Command, rel: Command, d: bool)
    requires !rel.Acquire? && !rel.IsWork()
    ensures Dangle([c], d) == (c.Acquire? || (!c.IsWork() && d))
    ensures Dangle([c, rel], d) == (c.Acquire? || (!c.IsWork() && d))
  {
    assert [c][1..] == [] && [c, rel][1..] == [rel] && [rel][1..] == [];
    var e := c.Acquire? || (!c.IsWork() && d);
    assert Dangle([rel], e) == Dangle([], e) == e;
  }

  lemma AcceptDangles(s: State, c: Command, op: Op)
    requires c.IsWork()
    ensures !Accepted(s, Compute, c, op).hist.dangling
  {
    DangleShort(c, Release(TIMELINE, s.host.ctr + 1), s.hist.dangling);
  }

  /** No other step leaves an acquire. */
  lemma OtherDangles(s: State, st: Step, s': State)
    requires Enabled(s, st) && s' == Next(s, st) && !st.LaunchStep?
    ensures s'.hist.dangling == s.hist.dangling
  {
    if st.RecordStep? && s.host.free != [] {
      DangleShort(Release(s.host.free[0], 1), Release(s.host.free[0], 1), s.hist.dangling);
    }
  }

  predicate AcceptsLaunch(s: State, st: Step) {
    st.LaunchStep? && LaunchStatus(s, st.launch) == Success
  }

  /** In every run: when an acquire dangles, some synchronous launch was refused late, and no launch
      has been accepted since. */
  lemma {:induction false} DanglingHistory(r: Run, i: nat) returns (j: nat)
    requires IsRun(r) && i < |r.states| && r.states[i].hist.dangling
    ensures j < i && r.steps[j].LaunchStep? && r.steps[j].launch.sync
    ensures RefusedLate(r.states[j], r.steps[j].launch)
    ensures forall m | j <= m < i :: !AcceptsLaunch(r.states[m], r.steps[m])
  {
    hide Enabled, Disciplined, Next, RefusedLate, LaunchStatus, LaunchNext;
    if i == 0 {
      assert false;
    } else {
      var s, st, s' := r.states[i - 1], r.steps[i - 1], r.states[i];
      assert Legal(s, st, s');
      if st.LaunchStep? {
        LegalLaunch(s, st, s');
        LaunchDangles(s, st.launch, s');
      } else {
        OtherDangles(s, st, s');
      }
      if s.hist.dangling {
        j := DanglingHistory(r, i - 1);
      } else {
        j := i - 1;
      }
    }
  }

  lemma LegalLaunch(s: State, st: Step, s': State)
    requires Legal(s, st, s') && st.LaunchStep?
    ensures s.phase.Idle? && s' == LaunchNext(s, st.launch)
  {
  }

  /** So a copy is safe whenever no synchronous launch was refused late since the last accepted one. */
  lemma UnfetchedHistory(r: Run, i: nat) returns (j: nat)
    requires IsPatientRun(r) && i < |r.states| && Unfetched(r.states[i])
    ensures j < i && r.steps[j].LaunchStep? && r.steps[j].launch.sync
    ensures RefusedLate(r.states[j], r.steps[j].launch)
    ensures forall m | j <= m < i :: !AcceptsLaunch(r.states[m], r.steps[m])
  {
    hide Safe, Legal, RefusedLate, AcceptsLaunch;
    RunLive(r, i);
    j := DanglingHistory(r, i);
  }
}
