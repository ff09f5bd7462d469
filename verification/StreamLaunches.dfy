/** Launches of every outcome in every state between calls: what a refused launch leaves behind is
    harmless to the stream as it stands, so only an accepted one can break the stream's promise. */
module StreamLaunches {
  import opened Results
  import opened Commands
  import opened Stream
  import opened StreamFlow
  import opened StreamSafety
  import opened StreamSteps
  import opened StreamRuns
  import opened StreamProgress
  import opened StreamDeadlock
  import opened StreamDiscipline
  import opened StreamOvertake
  import opened StreamSyncLaunch

  /** What a refused launch may leave behind: set-up, and an acquire for the copies' number. */
  predicate Tame(cmds: seq<Command>, c: nat) {
    forall x | x in cmds :: x.Setup? || x == Acquire(TIMELINE, c)
  }

  ghost predicate LeftBehind(x: State, c: nat) {
    && x.phase.Idle? && x.host.dma == [] && x.host.backlog == [] && !x.host.pending && x.host.mode == Mode(Compute)
    && x.host.ctr == c == x.hist.sub && x.hist.active == Mode(Dma) && Tame(x.host.compute, c)
    && Core(x.gpu, x.hist) && NoAcq(x.gpu.compute.fifo)
  }

  /** Still in its buffer, or at the end of the channel. */
  datatype Left = Queued | InChannel(tail: seq<Command>)

  ghost predicate LeftAt(x: State, c: nat, t: State, left: Left) {
    match left
    case Queued =>
      t.host == x.host.(argsIdx := t.host.argsIdx) && t.phase.Idle? && t.hist.sub == c && t.hist.ops == x.hist.ops
      && Core(t.gpu, x.hist) && NoAcq(t.gpu.compute.fifo)
    case InChannel(tail) => Emptied(t, x) && Tame(tail, c) && Behind(t.gpu, x.hist, tail)
  }

  lemma TameStep(h: History, c: nat, g: Gpu, tail: seq<Command>, a: GpuAction) returns (tail': seq<Command>)
    requires Tame(tail, c) && Behind(g, h, tail) && GpuEnabled(g, a)
    ensures Tame(tail', c) && Behind(GpuNext(g, a), h, tail') && Val(g, TIMELINE) <= Val(GpuNext(g, a), TIMELINE)
  {
    hide Core;
    if a == Fetch(Compute) && |tail| == |g.compute.fifo| {
      assert g.compute.fifo == tail && tail[0] in tail;
      tail' := tail[1..];
      assert forall y | y in tail' :: y in tail;
      CoreIgnores(Without(g, tail), Without(GpuNext(g, a), tail'), h);
    } else {
      BehindStep(g, h, tail, a);
      tail' := tail;
    }
  }

  lemma LeftCommence(x: State, c: nat, t: State)
    requires LeftBehind(x, c) && LeftAt(x, c, t, Queued)
    ensures LeftAt(x, c, CommenceSingleNext(t), InChannel(x.host.compute))
    ensures CommenceSingleNext(t).gpu.signals == t.gpu.signals
  {
    hide Core;
    var b, t' := x.host.compute, CommenceSingleNext(t);
    assert b + [] == b;
    assert t'.gpu.compute.fifo == t.gpu.compute.fifo + b;
    assert Without(t'.gpu, b) == t.gpu;
  }

  lemma LeftStep(x: State, c: nat, t: State, left: Left, st: Step) returns (left': Left)
    requires LeftBehind(x, c) && LeftAt(x, c, t, left) && Winding(st) && Enabled(t, st)
    ensures LeftAt(x, c, Next(t, st), left') && Val(t.gpu, TIMELINE) <= Val(Next(t, st).gpu, TIMELINE)
  {
    hide Core, Behind;
    match st {
    case GpuStep(a) =>
      match left {
      case Queued =>
        GpuNextKeeps(t.gpu, x.hist, a);
        NoAcqStep(t.gpu, a);
        left' := Queued;
      case InChannel(tail) =>
        var tail' := TameStep(x.hist, c, t.gpu, tail, a);
        left' := InChannel(tail');
      }
    case CommenceSingleStep =>
      if left == Queued {
        LeftCommence(x, c, t);
        left' := InChannel(x.host.compute);
      } else {
        EmptiedCommence(t, x);
        left' := left;
      }
    case _ => left' := left;
    }
  }

  lemma LeftSound(x: State, c: nat, t: State, left: Left)
    requires LeftBehind(x, c) && LeftAt(x, c, t, left)
    ensures Sound(t)
  {
    hide LeftBehind, LeftAt, Next, Enabled, Winding, StartsInOrder, TimelineMeans, WaitsEnd;
    LeftMeans(x, c, t, left);
    forall st | Winding(st) && Enabled(t, st) ensures Val(t.gpu, TIMELINE) <= Val(Next(t, st).gpu, TIMELINE) {
      var left' := LeftStep(x, c, t, left, st);
    }
    LeftEnds(x, c, t, left);
  }

  /** The channels without what was left behind. */
  function Before(g: Gpu, left: Left): Gpu
    requires left.InChannel? ==> |left.tail| <= |g.compute.fifo|
  {
    match left
    case Queued => g
    case InChannel(tail) => Without(g, tail)
  }

  lemma LeftMeans(x: State, c: nat, t: State, left: Left)
    requires LeftAt(x, c, t, left)
    ensures StartsInOrder(t.gpu, t.hist) && TimelineMeans(t.gpu)
  {
    hide Core;
    var v := Before(t.gpu, left);
    CoreMeans(v, x.hist);
    assert forall n: nat :: Started(v, n) <==> Started(t.gpu, n);
  }

  lemma LeftEnds(x: State, c: nat, t: State, left: Left)
    requires LeftBehind(x, c) && LeftAt(x, c, t, left)
    ensures WaitsEnd(t)
  {
    hide OrderSafe, EventSafe, GpuSafe, GpuNext;
    if AtEnd(t.gpu) {
      var v := Before(t.gpu, left);
      assert forall a :: GpuEnabled(v, a) ==> GpuEnabled(t.gpu, a);
      DmaReached(v, x.hist);
    }
  }

  lemma {:induction false} LeftWalk(x: State, c: nat, t: State, left: Left, steps: seq<Step>, t': State)
    requires LeftBehind(x, c) && LeftAt(x, c, t, left) && Walk(t, steps, t') && AllWinding(steps)
    ensures Sound(t')
    decreases |steps|
  {
    hide LeftBehind, LeftAt, Sound, Enabled, Next, Winding;
    if steps == [] {
      LeftSound(x, c, t, left);
    } else {
      assert Winding(steps[0]) && AllWinding(steps[1..]);
      var left' := LeftStep(x, c, t, left, steps[0]);
      LeftWalk(x, c, Next(t, steps[0]), left', steps[1..], t');
    }
  }

  /** A refused launch changes nothing, or the mode, or leaves set-up and perhaps an acquire. */
  lemma RefusedLeaves(s: State, r: LaunchReq, x: State)
    requires Unawaited(s, Dma) && LaunchStatus(s, r) != Success && x == LaunchNext(s, r)
    ensures x == s || (LeftBehind(x, s.host.ctr) && LeftAt(x, s.host.ctr, x, Queued))
  {
    hide GpuSafe, OrderSafe, EventSafe, SignalsSafe, ArgsSafe, LaunchPrefix, FlowOk, FlowEnd, HostLive, Verdict;
    NotPending(s.host, s.hist, Dma);
    if r.numParams == |r.kernel.paramSizes| {
      PrefixShape(s, r);
      RefusedHistory(s, r, x);
      GpuExtend(s.gpu, s.hist, x.hist);
    }
  }

  lemma RefusedHistory(s: State, r: LaunchReq, x: State)
    requires LaunchStatus(s, r) != Success && x == LaunchNext(s, r)
    ensures x.gpu == s.gpu && x.phase == s.phase && x.hist.(log := s.hist.log, dangling := s.hist.dangling) == s.hist
  {
    hide LaunchPrefix, Accepted;
    PrefixFramed(s, r);
  }

  lemma RefusedSound(s: State, r: LaunchReq)
    requires Unawaited(s, Dma) && LaunchStatus(s, r) != Success
    ensures Promise(LaunchNext(s, r))
  {
    hide Safe, Live, Walk, Sound, LaunchNext, LaunchStatus, AllWinding, LeftBehind, LeftAt, Kept;
    var x := LaunchNext(s, r);
    RefusedLeaves(s, r, x);
    if x == s {
      AsItStands(s);
    } else {
      forall steps, t' | Walk(x, steps, t') && AllWinding(steps) ensures Sound(t') {
        LeftWalk(x, s.host.ctr, x, Queued, steps, t');
      }
    }
  }

  lemma AsItStands(s: State)
    requires Safe(s) && Live(s)
    ensures Promise(s)
  {
    hide Safe, Live, Promise;
    KeptPromise(s, s, Compute);
  }

  /** Every launch, in every state between calls: the stream keeps its promise, whatever queue and GPU
      do next, if and only if the launch is refused, or no copy that was commenced is unawaited, or
      something is still queued ahead of the launch to be submitted and waited for first, or the
      launch is synchronous, or the timeline has already reached the counter. */
  lemma LaunchPromiseIff(s: State, r: LaunchReq)
    requires Safe(s) && Live(s) && s.phase.Idle? && Enabled(s, LaunchStep(r))
    ensures Promise(LaunchNext(s, r)) <==>
              || LaunchStatus(s, r) != Success
              || s.hist.active != Mode(Dma) || s.host.dma != [] || s.host.backlog != []
              || r.sync || Val(s.gpu, TIMELINE) == s.host.ctr
  {
    hide Safe, Live, Unawaited, Walk, Sound, LaunchNext, LaunchStatus, AllWinding;
    if MayFollow(s.host, s.hist, Compute) {
      LaunchKept(s, r);
      AsItStands(LaunchNext(s, r));
    } else {
      NothingQueued(s, Compute);
      AtMostCounter(s, Dma);
      if LaunchStatus(s, r) != Success {
        RefusedSound(s, r);
      } else if Val(s.gpu, TIMELINE) == s.host.ctr {
        LaunchSound(s, r);
      } else if r.sync {
        SyncLaunchSound(s, r);
      } else {
        var steps, t' := LaunchBreaks(s, r);
      }
    }
  }
}
