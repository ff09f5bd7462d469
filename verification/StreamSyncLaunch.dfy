/** A synchronous launch needs no await before it: the acquire it enqueues holds it back until the
    copies before it are done. Both channels are in use meanwhile, so this follows the GPU alone. */
module StreamSyncLaunch {
  import opened Results
  import opened Commands
  import opened Stream
  import opened StreamFlow
  import opened StreamSafety
  import opened StreamSteps
  import opened StreamRuns
  import opened StreamProgress
  import opened StreamDeadlock
  import opened StreamDiscipline
  import opened StreamOvertake

  /** The launch behind its acquire; c is the number of the last copy. */
  function OrderedLaunch(c: nat, qmd: nat): seq<Command> {
    [Acquire(TIMELINE, c), Launch(c + 1, qmd), Release(TIMELINE, c + 1)]
  }

  predicate Setups(cmds: seq<Command>) {
    forall x | x in cmds :: x.Setup?
  }

  /** The state in which the launch has been enqueued. */
  ghost predicate Setting(x: State, c: nat, qmd: nat, pre: seq<Command>) {
    && x.phase.Idle? && x.host.dma == [] && x.host.backlog == [] && !x.host.pending
    && x.host.mode == Mode(Compute) && x.host.ctr == c + 1
    && x.host.compute == pre + OrderedLaunch(c, qmd) && Setups(pre)
    && x.hist.active == Mode(Dma) && x.hist.sub == c && |x.hist.ops| == c + 1 && x.hist.ops[c].kind == Compute
    && Core(x.gpu, x.hist) && NoAcq(x.gpu.compute.fifo)
  }

  /** The GPU as it would be without the last commands of its COMPUTE channel. */
  function Without(g: Gpu, tail: seq<Command>): Gpu
    requires |tail| <= |g.compute.fifo|
  {
    g.(compute := g.compute.(fifo := g.compute.fifo[..|g.compute.fifo| - |tail|]))
  }

  ghost predicate Behind(g: Gpu, h: History, tail: seq<Command>) {
    && |tail| <= |g.compute.fifo| && g.compute.fifo[|g.compute.fifo| - |tail|..] == tail
    && Core(Without(g, tail), h) && NoAcq(Without(g, tail).compute.fifo)
  }

  /** The history once the launch is what the channel leads to. */
  function Going(h: History): History {
    h.(active := Mode(Compute), sub := |h.ops|)
  }

  datatype Stage = Enqueued | Waiting(pre: seq<Command>) | Past

  ghost predicate Emptied(t: State, x: State) {
    && t.phase.Idle? && t.host.compute == [] && t.host.dma == [] && t.host.backlog == [] && !t.host.pending
    && t.host.ctr == x.host.ctr == t.hist.sub && t.hist.ops == x.hist.ops
  }

  /** Where the launch is: in its buffer, in the channel before its acquire has been fetched, or past it. */
  ghost predicate At(x: State, c: nat, qmd: nat, t: State, stage: Stage) {
    match stage
    case Enqueued =>
      t.host == x.host && t.phase.Idle? && t.hist.sub == c && t.hist.ops == x.hist.ops
      && Core(t.gpu, x.hist) && NoAcq(t.gpu.compute.fifo)
    case Waiting(pre) => Emptied(t, x) && Setups(pre) && Behind(t.gpu, x.hist, pre + OrderedLaunch(c, qmd))
    case Past => Emptied(t, x) && Core(t.gpu, Going(x.hist)) && GpuLive(t.gpu, Going(x.hist))
  }

  // ------------------------------------------------------------ the GPU's steps

  lemma CoreIgnores(g: Gpu, g': Gpu, h: History)
    requires Core(g, h) && g' == g.(compute := g.compute.(fetched := g'.compute.fetched))
    ensures Core(g', h)
  {
    assert Ch(g', Dma) == Ch(g, Dma);
    assert forall n: nat :: Started(g', n) <==> Started(g, n);
  }

  lemma NoAcqStep(g: Gpu, a: GpuAction)
    requires GpuEnabled(g, a) && NoAcq(g.compute.fifo)
    ensures NoAcq(GpuNext(g, a).compute.fifo)
  {
  }

  /** Anything but the tail's own commands happens as if the tail were not there. */
  lemma WithoutStep(g: Gpu, tail: seq<Command>, a: GpuAction)
    requires GpuEnabled(g, a) && |tail| <= |g.compute.fifo| && g.compute.fifo[|g.compute.fifo| - |tail|..] == tail
    requires a == Fetch(Compute) ==> |tail| < |g.compute.fifo|
    ensures GpuEnabled(Without(g, tail), a)
    ensures var g' := GpuNext(g, a);
            && |tail| <= |g'.compute.fifo| && g'.compute.fifo[|g'.compute.fifo| - |tail|..] == tail
            && Without(g', tail) == GpuNext(Without(g, tail), a)
  {
    if a == Fetch(Compute) {
      var fifo, n := g.compute.fifo, |g.compute.fifo| - |tail|;
      assert fifo[1..][n - 1..] == tail && fifo[1..][..n - 1] == fifo[..n][1..];
    } else {
      assert GpuNext(g, a).compute.fifo == g.compute.fifo;
    }
  }

  lemma WaitingStep(x: State, c: nat, qmd: nat, pre0: seq<Command>, g: Gpu, pre: seq<Command>, a: GpuAction) returns (stage: Stage)
    requires Setting(x, c, qmd, pre0) && Setups(pre) && Behind(g, x.hist, pre + OrderedLaunch(c, qmd)) && GpuEnabled(g, a)
    ensures var g' := GpuNext(g, a);
            && Val(g, TIMELINE) <= Val(g', TIMELINE)
            && match stage
               case Enqueued => false
               case Waiting(p) => Setups(p) && Behind(g', x.hist, p + OrderedLaunch(c, qmd))
               case Past => Core(g', Going(x.hist)) && GpuLive(g', Going(x.hist))
  {
    hide Core, OrderedLaunch, Setting, GpuNext;
    var tail := pre + OrderedLaunch(c, qmd);
    if a == Fetch(Compute) && |tail| == |g.compute.fifo| {
      assert g.compute.fifo == tail;
      if pre == [] {
        assert tail == OrderedLaunch(c, qmd);
        AcquireFetched(x, c, qmd, pre0, g);
        stage := Past;
      } else {
        assert tail[0] == pre[0] && pre[0] in pre;
        SetupFetched(x.hist, g, pre, OrderedLaunch(c, qmd));
        stage := Waiting(pre[1..]);
      }
    } else {
      BehindStep(g, x.hist, tail, a);
      stage := Waiting(pre);
    }
  }

  /** A step that leaves the tail alone. */
  lemma BehindStep(g: Gpu, h: History, tail: seq<Command>, a: GpuAction)
    requires Behind(g, h, tail) && GpuEnabled(g, a) && (a == Fetch(Compute) ==> |tail| < |g.compute.fifo|)
    ensures Behind(GpuNext(g, a), h, tail) && Val(g, TIMELINE) <= Val(GpuNext(g, a), TIMELINE)
  {
    hide Core;
    WithoutStep(g, tail, a);
    GpuNextKeeps(Without(g, tail), h, a);
    NoAcqStep(Without(g, tail), a);
  }

  lemma SetupFetched(h: History, g: Gpu, pre: seq<Command>, rest: seq<Command>)
    requires pre != [] && Setups(pre) && Behind(g, h, pre + rest) && g.compute.fifo == pre + rest && pre[0].Setup?
    requires GpuEnabled(g, Fetch(Compute))
    ensures Setups(pre[1..]) && Behind(GpuNext(g, Fetch(Compute)), h, pre[1..] + rest)
    ensures Val(g, TIMELINE) == Val(GpuNext(g, Fetch(Compute)), TIMELINE)
  {
    hide Core;
    var g' := GpuNext(g, Fetch(Compute));
    assert (pre + rest)[0] == pre[0] && (pre + rest)[1..] == pre[1..] + rest;
    CoreIgnores(Without(g, pre + rest), Without(g', pre[1..] + rest), h);
    assert forall y | y in pre[1..] :: y in pre;
  }

  /** The acquire is fetched when the copies' number is reached; from then on only COMPUTE is in use. */
  lemma AcquireFetched(x: State, c: nat, qmd: nat, pre0: seq<Command>, g: Gpu)
    requires Setting(x, c, qmd, pre0) && Behind(g, x.hist, OrderedLaunch(c, qmd)) && g.compute.fifo == OrderedLaunch(c, qmd)
    requires GpuEnabled(g, Fetch(Compute))
    ensures var g' := GpuNext(g, Fetch(Compute));
            && Core(g', Going(x.hist)) && GpuLive(g', Going(x.hist)) && Val(g, TIMELINE) == Val(g', TIMELINE)
  {
    var v, g' := Without(g, OrderedLaunch(c, qmd)), GpuNext(g, Fetch(Compute));
    var cmds := [Launch(c + 1, qmd), Release(TIMELINE, c + 1)];
    assert g'.compute.fifo == cmds && v.compute.fifo == [];
    hide GpuSafe, OrderSafe, EventSafe, FlowOk, FlowEnd;
    Settles(v, x.hist);
    var s := State(x.host, v, x.hist.(active := Unset), Idle);
    FlowPair(cmds[0], cmds[1], Mark(c, c), Compute, s.hist);
    SubmitKeeps(s, Compute, cmds, c + 1);
    var s' := Submitted(s, Compute, cmds, c + 1);
    assert s'.gpu.compute.fifo == cmds;
    GpuExtend(s'.gpu, s'.hist, Going(x.hist));
    CoreIgnores(s'.gpu, g', Going(x.hist));
    NoAcqOk(cmds, Mark(g'.last, Val(g', TIMELINE)));
  }

  // ------------------------------------------------------------- all the steps

  lemma StageStep(x: State, c: nat, qmd: nat, pre: seq<Command>, t: State, stage: Stage, st: Step) returns (stage': Stage)
    requires Setting(x, c, qmd, pre) && At(x, c, qmd, t, stage) && Winding(st) && Enabled(t, st)
    ensures At(x, c, qmd, Next(t, st), stage') && Val(t.gpu, TIMELINE) <= Val(Next(t, st).gpu, TIMELINE)
  {
    hide Core, Behind, GpuLive, OrderedLaunch;
    match st {
    case GpuStep(a) =>
      match stage {
      case Enqueued =>
        GpuNextKeeps(t.gpu, x.hist, a);
        NoAcqStep(t.gpu, a);
        stage' := Enqueued;
      case Waiting(p) => stage' := WaitingStep(x, c, qmd, pre, t.gpu, p, a);
      case Past =>
        GpuNextKeeps(t.gpu, Going(x.hist), a);
        PastStep(t.gpu, Going(x.hist), a);
        stage' := Past;
      }
    case CommenceSingleStep =>
      if stage == Enqueued {
        EnqueuedCommence(x, c, qmd, pre, t);
        stage' := Waiting(pre);
      } else {
        EmptiedCommence(t, x);
        stage' := stage;
      }
    case AwaitStep =>
      if stage == Enqueued { ValueBelow(t.gpu, x.hist, c); }
      stage' := stage;
    case _ => stage' := stage;
    }
  }

  lemma PastStep(g: Gpu, h: History, a: GpuAction)
    requires Core(g, h) && GpuLive(g, h) && GpuEnabled(g, a)
    ensures GpuLive(GpuNext(g, a), h)
  {
    hide OrderSafe, EventSafe, GpuSafe, GpuLive;
    GpuActLive(g, h, a);
  }

  lemma ValueBelow(g: Gpu, h: History, c: nat)
    requires Core(g, h) && h.sub == c
    ensures Val(g, TIMELINE) <= c
  {
  }

  lemma EmptiedCommence(t: State, x: State)
    requires Emptied(t, x)
    ensures Emptied(CommenceSingleNext(t), x) && CommenceSingleNext(t).gpu == t.gpu
  {
  }

  lemma EnqueuedCommence(x: State, c: nat, qmd: nat, pre: seq<Command>, t: State)
    requires Setting(x, c, qmd, pre) && At(x, c, qmd, t, Enqueued)
    ensures At(x, c, qmd, CommenceSingleNext(t), Waiting(pre)) && CommenceSingleNext(t).gpu.signals == t.gpu.signals
  {
    hide Core, OrderedLaunch;
    var b, t' := pre + OrderedLaunch(c, qmd), CommenceSingleNext(t);
    assert |OrderedLaunch(c, qmd)| == 3 by { LaunchLength(c, qmd); }
    assert b + [] == b && b != [];
    assert t'.gpu.compute.fifo == t.gpu.compute.fifo + b;
    assert Without(t'.gpu, b) == t.gpu;
  }

  lemma LaunchLength(c: nat, qmd: nat)
    ensures |OrderedLaunch(c, qmd)| == 3
  {
  }

  // ---------------------------------------------------------------- soundness

  lemma StageSound(x: State, c: nat, qmd: nat, pre: seq<Command>, t: State, stage: Stage)
    requires Setting(x, c, qmd, pre) && At(x, c, qmd, t, stage)
    ensures Sound(t)
  {
    hide Setting, At, Next, Enabled, Winding, StartsInOrder, TimelineMeans, WaitsEnd;
    StageMeans(x, c, qmd, t, stage);
    forall st | Winding(st) && Enabled(t, st) ensures Val(t.gpu, TIMELINE) <= Val(Next(t, st).gpu, TIMELINE) {
      var stage' := StageStep(x, c, qmd, pre, t, stage, st);
    }
    StageEnds(x, c, qmd, pre, t, stage);
  }

  lemma StageMeans(x: State, c: nat, qmd: nat, t: State, stage: Stage)
    requires At(x, c, qmd, t, stage)
    ensures StartsInOrder(t.gpu, t.hist) && TimelineMeans(t.gpu)
  {
    hide Core, GpuLive, OrderedLaunch;
    match stage
    case Enqueued => CoreMeans(t.gpu, x.hist);
    case Waiting(p) =>
      var v := Without(t.gpu, p + OrderedLaunch(c, qmd));
      CoreMeans(v, x.hist);
      assert forall n: nat :: Started(v, n) <==> Started(t.gpu, n);
    case Past => CoreMeans(t.gpu, Going(x.hist));
  }

  lemma StageEnds(x: State, c: nat, qmd: nat, pre: seq<Command>, t: State, stage: Stage)
    requires Setting(x, c, qmd, pre) && At(x, c, qmd, t, stage)
    ensures WaitsEnd(t)
  {
    if AtEnd(t.gpu) {
      match stage
      case Enqueued =>
      case Waiting(p) =>
        var a := WaitingMoves(x, c, qmd, pre, t.gpu, p);
      case Past =>
        hide OrderSafe, EventSafe;
        if !GpuIdle(t.gpu) { var a := SomeGpuAction(t.gpu, Going(x.hist)); }
    }
  }

  /** While the acquire waits, the GPU can step: the copies lead to the number it waits for. */
  lemma WaitingMoves(x: State, c: nat, qmd: nat, pre0: seq<Command>, g: Gpu, pre: seq<Command>) returns (a: GpuAction)
    requires Setting(x, c, qmd, pre0) && Setups(pre) && Behind(g, x.hist, pre + OrderedLaunch(c, qmd))
    ensures GpuEnabled(g, a)
  {
    hide OrderSafe, EventSafe, Counts, RunningKind;
    var tail := pre + OrderedLaunch(c, qmd);
    var v, h := Without(g, tail), x.hist;
    if op :| op in g.dma.running {
      a := Finish(Dma, op);
    } else if g.dma.fifo != [] {
      HeadFits(v, h, Dma);
      a := Fetch(Dma);
    } else {
      assert Leads(v, h, Dma) && Quiet(v, h, Compute);
      assert Val(g, TIMELINE) == c;
      a := Fetch(Compute);
      var c0 := g.compute.fifo[0];
      if |tail| < |g.compute.fifo| {
        assert c0 == v.compute.fifo[0] && c0 in v.compute.fifo;
        QuietHead(v, h, Compute);
      } else {
        assert g.compute.fifo == tail;
        assert pre != [] ==> c0 == pre[0] && pre[0] in pre;
        assert pre == [] ==> c0 == Acquire(TIMELINE, c);
      }
    }
  }

  lemma {:induction false} StageWalk(x: State, c: nat, qmd: nat, pre: seq<Command>, t: State, stage: Stage, steps: seq<Step>, t': State)
    requires Setting(x, c, qmd, pre) && At(x, c, qmd, t, stage) && Walk(t, steps, t') && AllWinding(steps)
    ensures Sound(t')
    decreases |steps|
  {
    hide Setting, At, Sound, Enabled, Next, Winding;
    if steps == [] {
      StageSound(x, c, qmd, pre, t, stage);
    } else {
      assert Winding(steps[0]) && AllWinding(steps[1..]);
      var stage' := StageStep(x, c, qmd, pre, t, stage, steps[0]);
      StageWalk(x, c, qmd, pre, Next(t, steps[0]), stage', steps[1..], t');
    }
  }

  /** The launch as it was enqueued. */
  lemma LaunchSetting(s: State, r: LaunchReq, x: State)
    requires Unawaited(s, Dma) && LaunchStatus(s, r) == Success && r.sync && Val(s.gpu, TIMELINE) < s.host.ctr
    requires x == LaunchNext(s, r)
    ensures r.kernel.constants != []
    ensures Setting(x, s.host.ctr, QmdAddr(s.host, r), LocalMemPart(s.host, r))
    ensures At(x, s.host.ctr, QmdAddr(s.host, r), x, Enqueued)
  {
    hide GpuSafe, OrderSafe, EventSafe, SignalsSafe, ArgsSafe, LaunchNext, LaunchStatus, FlowOk, FlowEnd, HostLive;
    NotPending(s.host, s.hist, Dma);
    LaunchShape(s, r, x);
    var c, q, pre := s.host.ctr, QmdAddr(s.host, r), LocalMemPart(s.host, r);
    assert x.host.compute == pre + OrderedLaunch(c, q) by {
      assert pre + [Acquire(TIMELINE, c)] + [Launch(c + 1, q)] + [Release(TIMELINE, c + 1)] == pre + OrderedLaunch(c, q);
    }
    GpuExtend(s.gpu, s.hist, x.hist);
  }

  /** A synchronous launch after copies that were commenced alone keeps the promise, whatever the GPU does. */
  lemma SyncLaunchSound(s: State, r: LaunchReq)
    requires Unawaited(s, Dma) && Enabled(s, LaunchStep(r)) && LaunchStatus(s, r) == Success && r.sync
    requires Val(s.gpu, TIMELINE) < s.host.ctr
    ensures Promise(LaunchNext(s, r))
  {
    hide Unawaited, Walk, Sound, LaunchNext, LaunchStatus, AllWinding, Setting, At;
    var x := LaunchNext(s, r);
    LaunchSetting(s, r, x);
    forall steps, t' | Walk(x, steps, t') && AllWinding(steps) ensures Sound(t') {
      StageWalk(x, s.host.ctr, QmdAddr(s.host, r), LocalMemPart(s.host, r), x, Enqueued, steps, t');
    }
  }
}
