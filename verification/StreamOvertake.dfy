/** Without the await, work of the other kind may overtake what was commenced, and the timeline then
    breaks its promise; only a synchronous launch brings its own acquire and cannot overtake. */
module StreamOvertake {
  import opened Results
  import opened Commands
  import opened Stream
  import opened StreamFlow
  import opened StreamSafety
  import opened StreamSteps
  import opened StreamRuns
  import opened StreamProgress
  import opened StreamDeadlock
  import opened StreamDiscipline

  // ----------------------------------------------------- schedules of one channel

  /** Commands that neither start nor wait for anything, nor touch the timeline. */
  predicate Plain(cmds: seq<Command>) {
    forall c | c in cmds :: c.Setup? || (c.Release? && c.sig != TIMELINE)
  }

  lemma {:induction false} DrainPlain(t: State, k: Kind, pre: seq<Command>, tail: seq<Command>)
    returns (steps: seq<Step>, t1: State)
    requires Ch(t.gpu, k).fifo == pre + tail && Ch(t.gpu, k).running == {} && Plain(pre)
    ensures Walk(t, steps, t1) && AllWinding(steps) && t1 == t.(gpu := t1.gpu)
    ensures Ch(t1.gpu, k).fifo == tail && Ch(t1.gpu, k).running == {} && Ch(t1.gpu, k.Other()) == Ch(t.gpu, k.Other())
    ensures t1.gpu.done == t.gpu.done && Val(t1.gpu, TIMELINE) == Val(t.gpu, TIMELINE)
    decreases |pre|
  {
    if pre == [] {
      steps, t1 := [], t;
      assert pre + tail == tail;
    } else {
      var f := Step.GpuStep(Fetch(k));
      var c := Ch(t.gpu, k).fifo[0];
      assert c == pre[0] && c in pre;
      assert (pre + tail)[1..] == pre[1..] + tail;
      var s1 := Next(t, f);
      assert forall x | x in pre[1..] :: x in pre;
      WalkOne(t, f);
      var rest;
      rest, t1 := DrainPlain(s1, k, pre[1..], tail);
      WalkAppend(t, [f], s1, rest, t1);
      steps := [f] + rest;
    }
  }

  /** The GPU runs one operation and its release, on a channel that holds nothing else. */
  lemma OneOperation(s: State, k: Kind, c: Command)
    requires c.IsWork() && Ch(s.gpu, k).fifo == [c, Release(TIMELINE, c.op)] && Ch(s.gpu, k).running == {}
    ensures var f, d := Step.GpuStep(Fetch(k)), Step.GpuStep(Finish(k, c.op));
            && Enabled(s, f) && Enabled(Next(s, f), d) && Enabled(Next(Next(s, f), d), f)
            && var s' := Next(Next(Next(s, f), d), f);
               && Ch(s'.gpu, k).fifo == [] && Ch(s'.gpu, k).running == {} && Val(s'.gpu, TIMELINE) == c.op
               && Ch(s'.gpu, k.Other()) == Ch(s.gpu, k.Other()) && s'.gpu.done == s.gpu.done + {c.op}
               && s' == s.(gpu := s'.gpu)
  {
    var f, d := Step.GpuStep(Fetch(k)), Step.GpuStep(Finish(k, c.op));
    var s2 := Next(s, f);
    assert Ch(s2.gpu, k).fifo == [Release(TIMELINE, c.op)] && Ch(s2.gpu, k).running == {c.op};
    var s3 := Next(s2, d);
    assert Ch(s3.gpu, k).fifo == [Release(TIMELINE, c.op)] && Ch(s3.gpu, k).running == {};
  }

  lemma OneOperationWalk(s: State, k: Kind, c: Command) returns (steps: seq<Step>, s': State)
    requires c.IsWork() && Ch(s.gpu, k).fifo == [c, Release(TIMELINE, c.op)] && Ch(s.gpu, k).running == {}
    ensures Walk(s, steps, s') && AllWinding(steps) && s' == s.(gpu := s'.gpu)
    ensures Ch(s'.gpu, k.Other()) == Ch(s.gpu, k.Other())
    ensures s'.gpu.done == s.gpu.done + {c.op} && Val(s'.gpu, TIMELINE) == c.op
  {
    hide Enabled, Next;
    OneOperation(s, k, c);
    var f, d := Step.GpuStep(Fetch(k)), Step.GpuStep(Finish(k, c.op));
    var s1 := Next(s, f);
    var s2 := Next(s1, d);
    s' := Next(s2, f);
    WalkOne(s, f);
    WalkOne(s1, d);
    WalkOne(s2, f);
    WalkAppend(s, [f], s1, [d], s2);
    WalkAppend(s, [f] + [d], s2, [f], s');
    steps := [f] + [d] + [f];
  }

  /** A new operation on channel k runs ahead of whatever channel k.Other() still holds. */
  lemma RunAhead(t: State, k: Kind, pre: seq<Command>, c: Command) returns (steps: seq<Step>, t': State)
    requires c.IsWork() && Plain(pre)
    requires Ch(t.gpu, k).fifo == pre + [c, Release(TIMELINE, c.op)] && Ch(t.gpu, k).running == {}
    ensures Walk(t, steps, t') && AllWinding(steps) && t' == t.(gpu := t'.gpu)
    ensures Ch(t'.gpu, k.Other()) == Ch(t.gpu, k.Other())
    ensures t'.gpu.done == t.gpu.done + {c.op} && Val(t'.gpu, TIMELINE) == c.op
  {
    hide Walk, Plain;
    var a, t1 := DrainPlain(t, k, pre, [c, Release(TIMELINE, c.op)]);
    var b;
    b, t' := OneOperationWalk(t1, k, c);
    WalkAppend(t, a, t1, b, t');
    steps := a + b;
  }

  // ------------------------------------------------------ the release left behind

  /** With all operations done but the timeline short of them, their release comes before anything
      that could wait. */
  lemma {:induction false} UntilRelease(cmds: seq<Command>, m: Mark, k: Kind, h: History) returns (pre: seq<Command>, rest: seq<Command>)
    requires FlowOk(cmds, m, k, h) && FlowEnd(cmds, m) == Mark(m.last, m.last) && m.rel < m.last == |h.ops|
    requires k == Compute ==> AcqOk(cmds, m)
    ensures cmds == pre + ([Release(TIMELINE, m.last)] + rest) && Plain(pre)
    decreases |cmds|
  {
    var c := cmds[0];
    assert CmdOk(c, m, k, h);
    if c.Release? && c.sig == TIMELINE {
      pre, rest := [], cmds[1..];
    } else {
      var p;
      p, rest := UntilRelease(cmds[1..], m, k, h);
      pre := [c] + p;
      assert cmds == [c] + cmds[1..];
    }
  }

  lemma AllDone(s: State, o: Kind) returns (pre: seq<Command>, rest: seq<Command>)
    requires Unawaited(s, o) && Val(s.gpu, TIMELINE) < s.host.ctr
    requires forall n: nat | 1 <= n <= s.host.ctr :: n in s.gpu.done
    ensures Ch(s.gpu, o).fifo == pre + ([Release(TIMELINE, s.host.ctr)] + rest) && Plain(pre)
    ensures Ch(s.gpu, o).running == {}
  {
    hide OrderSafe, EventSafe, SignalsSafe, ArgsSafe, HostLive, FlowOk, FlowEnd, AcqOk;
    var g, h := s.gpu, s.hist;
    assert Started(g, s.host.ctr);
    assert forall n | n in Ch(g, o).running :: Started(g, n);
    assert Leads(g, h, o);
    pre, rest := UntilRelease(Ch(g, o).fifo, Mark(g.last, Val(g, TIMELINE)), o, h);
  }

  /** Once the new operation can run ahead, some schedule breaks the promise. */
  lemma Breaks(s: State, o: Kind, t: State, pre: seq<Command>, c: Command) returns (steps: seq<Step>, t': State)
    requires Unawaited(s, o) && Val(s.gpu, TIMELINE) < s.host.ctr
    requires c.IsWork() && c.op == s.host.ctr + 1 && Plain(pre)
    requires Ch(t.gpu, o.Other()).fifo == pre + [c, Release(TIMELINE, c.op)] && Ch(t.gpu, o.Other()).running == {}
    requires Ch(t.gpu, o) == Ch(s.gpu, o) && t.gpu.done == s.gpu.done
    ensures Walk(t, steps, t') && AllWinding(steps) && !Sound(t')
  {
    hide Safe, Live, Walk, Plain, StartsInOrder, NeverBack, WaitsEnd;
    steps, t' := RunAhead(t, o.Other(), pre, c);
    assert o.Other().Other() == o;
    if n: nat :| 1 <= n <= s.host.ctr && n !in s.gpu.done {
      assert 1 <= n <= Val(t'.gpu, TIMELINE) && n !in t'.gpu.done;
    } else {
      var p, rest := AllDone(s, o);
      var more, t2 := DrainPlain(t', o, p, [Release(TIMELINE, s.host.ctr)] + rest);
      WalkAppend(t, steps, t', more, t2);
      FallsBack(t2, o, s.host.ctr);
      steps, t' := steps + more, t2;
    }
  }

  lemma FallsBack(t: State, o: Kind, v: nat)
    requires Ch(t.gpu, o).fifo != [] && Ch(t.gpu, o).fifo[0] == Release(TIMELINE, v) && Ch(t.gpu, o).running == {}
    requires v < Val(t.gpu, TIMELINE)
    ensures !NeverBack(t)
  {
    var f := Step.GpuStep(Fetch(o));
    assert Winding(f) && Enabled(t, f) && Val(Next(t, f).gpu, TIMELINE) == v;
  }

  // ------------------------------------------------------------- a copy

  lemma CopyBuffered(s: State, q: CopyReq)
    requires s.host.compute == [] && s.host.dma == [] && s.host.backlog == [] && CopyStatus(q) == Success
    ensures var x, n := CopyNext(s, q), s.host.ctr + 1;
            && x.host.dma == [Copy(n, q.src, q.dst, q.len)] + (if q.sync then [Release(TIMELINE, n)] else [])
            && x.host.compute == [] && x.host.backlog == [] && x.host.mode == Mode(Dma)
            && x.host.ctr == n && x.host.pending == !q.sync && x.gpu == s.gpu && x.phase == s.phase
  {
    hide Tag, Dangle;
  }

  /** A copy right after commenced kernels, commenced in turn. */
  lemma CopyCommenced(s: State, q: CopyReq, t: State)
    requires s.phase.Idle? && s.host.compute == [] && s.host.dma == [] && s.host.backlog == [] && CopyStatus(q) == Success
    requires t == CommenceSingleNext(CopyNext(s, q))
    ensures Enabled(CopyNext(s, q), CommenceSingleStep)
    ensures var n := s.host.ctr + 1;
            && t.gpu.dma == s.gpu.dma.(fifo := s.gpu.dma.fifo + [Copy(n, q.src, q.dst, q.len), Release(TIMELINE, n)])
            && t.gpu.compute == s.gpu.compute && t.gpu.done == s.gpu.done
  {
    hide CopyNext, Tag;
    CopyBuffered(s, q);
    var n, x := s.host.ctr + 1, CopyNext(s, q);
    assert x.host.dma + Owed(n, !q.sync) == [Copy(n, q.src, q.dst, q.len), Release(TIMELINE, n)];
  }

  lemma QuietIsPlain(s: State, o: Kind)
    requires Unawaited(s, o)
    ensures Plain(Ch(s.gpu, o.Other()).fifo) && Ch(s.gpu, o.Other()).running == {}
  {
    hide OrderSafe, EventSafe, SignalsSafe, ArgsSafe, HostSafe, HostLive, Counts;
    var k := o.Other();
    assert Quiet(s.gpu, s.hist, k);
    forall c | c in Ch(s.gpu, k).fifo ensures c.Setup? || (c.Release? && c.sig != TIMELINE) {
      var i :| 0 <= i < |Ch(s.gpu, k).fifo| && Ch(s.gpu, k).fifo[i] == c;
      assert InertCmd(Ch(s.gpu, k).fifo[i], Val(s.gpu, TIMELINE), k, s.hist);
    }
  }

  lemma CopyBreaks(s: State, q: CopyReq) returns (steps: seq<Step>, t': State)
    requires Unawaited(s, Compute) && CopyStatus(q) == Success && Val(s.gpu, TIMELINE) < s.host.ctr
    ensures Walk(CopyNext(s, q), steps, t') && AllWinding(steps) && !Sound(t')
  {
    hide Safe, Live, Walk, Plain, Sound;
    var x := CopyNext(s, q);
    var t := CommenceSingleNext(x);
    CopyCommenced(s, q, t);
    QuietIsPlain(s, Compute);
    var rest;
    rest, t' := Breaks(s, Compute, t, s.gpu.dma.fifo, Copy(s.host.ctr + 1, q.src, q.dst, q.len));
    CommenceIs(x);
    WalkOne(x, CommenceSingleStep);
    WalkAppend(x, [CommenceSingleStep], t, rest, t');
    steps := [CommenceSingleStep] + rest;
  }

  lemma CommenceIs(s: State)
    requires Enabled(s, CommenceSingleStep)
    ensures Next(s, CommenceSingleStep) == CommenceSingleNext(s)
  {
  }

  lemma AtMostCounter(s: State, o: Kind)
    requires Unawaited(s, o)
    ensures Val(s.gpu, TIMELINE) <= s.host.ctr
  {
  }

  /** Where work of kind k may not follow, nothing at all is queued. */
  lemma NothingQueued(s: State, k: Kind)
    requires Safe(s) && Live(s) && s.phase.Idle? && !MayFollow(s.host, s.hist, k)
    ensures Unawaited(s, k.Other())
  {
    hide GpuSafe, OrderSafe, EventSafe, SignalsSafe, ArgsSafe, Live;
    if s.host.mode.Mode? { assert HostFlow(s.host, s.hist, s.host.mode.kind); }
  }

  /** Every copy, in every state between calls: the stream keeps its promise, whatever queue and GPU do
      next, if and only if the copy is refused, or no kernel that was commenced is unawaited, or
      something is still queued ahead of the copy to be submitted and waited for first, or the
      timeline has already reached the counter. */
  lemma CopyPromiseIff(s: State, q: CopyReq)
    requires Safe(s) && Live(s) && s.phase.Idle? && Enabled(s, CopyStep(q))
    ensures Promise(CopyNext(s, q)) <==>
              || CopyStatus(q) != Success
              || s.hist.active != Mode(Compute) || s.host.compute != [] || s.host.backlog != []
              || Val(s.gpu, TIMELINE) == s.host.ctr
  {
    hide Safe, Live, Unawaited, Walk, Sound, CopyNext, AllWinding, LastCopy;
    if CopyStatus(q) != Success {
      CopyRefused(s, q);
      KeptPromise(s, s, Compute);
    } else if MayFollow(s.host, s.hist, Dma) {
      CopyKept(s, q);
      KeptPromise(CopyNext(s, q), CopyNext(s, q), Dma);
    } else {
      NothingQueued(s, Dma);
      AtMostCounter(s, Compute);
      if Val(s.gpu, TIMELINE) == s.host.ctr {
        CopySound(s, q);
      } else {
        var steps, t' := CopyBreaks(s, q);
      }
    }
  }

  lemma CopyRefused(s: State, q: CopyReq)
    requires CopyStatus(q) != Success
    ensures CopyNext(s, q) == s
  {
  }

  // ------------------------------------------------------------- a launch

  function LocalMemPart(h: Host, r: LaunchReq): seq<Command> {
    if NeedsLocalMem(h, r) then [LocalMemCommand(r)] else []
  }

  /** What a synchronous launch waits for. */
  function WaitPart(s: State, r: LaunchReq): seq<Command> {
    if r.sync && Val(s.gpu, TIMELINE) != s.host.ctr then [Acquire(TIMELINE, s.host.ctr)] else []
  }

  lemma PrefixShape(s: State, r: LaunchReq)
    requires s.host.compute == [] && s.host.dma == [] && s.host.backlog == [] && !s.host.pending
    ensures var p := LaunchPrefix(s, r);
            && p.host.compute == LocalMemPart(s.host, r) + WaitPart(s, r)
            && p.host.dma == [] && p.host.backlog == [] && !p.host.pending && p.host.mode == Mode(Compute)
            && p.host.ctr == s.host.ctr && p.gpu == s.gpu && p.phase == s.phase
            && p.hist.(log := s.hist.log, dangling := s.hist.dangling) == s.hist
  {
    var s1 := Switched(s, Compute);
    assert s1 == s.(host := s.host.(mode := Mode(Compute)));
    var s2 := WithLocalMem(s1, r);
    assert s2.host.compute == LocalMemPart(s.host, r);
    assert Flushed(s2) == s2;
  }

  lemma LaunchShape(s: State, r: LaunchReq, x: State)
    requires s.phase.Idle? && s.host.compute == [] && s.host.dma == [] && s.host.backlog == [] && !s.host.pending
    requires LaunchStatus(s, r) == Success && x == LaunchNext(s, r)
    ensures var n := s.host.ctr + 1;
            && r.kernel.constants != []
            && x.host.compute == LocalMemPart(s.host, r) + WaitPart(s, r) + [Launch(n, QmdAddr(s.host, r))]
                                 + (if r.sync then [Release(TIMELINE, n)] else [])
            && x.host.dma == [] && x.host.backlog == [] && x.host.pending == !r.sync && x.host.mode == Mode(Compute)
            && x.host.ctr == n && x.gpu == s.gpu && x.phase == s.phase
            && x.hist.(log := s.hist.log, dangling := s.hist.dangling) == s.hist.(ops := s.hist.ops + [LaunchOp(s.host, r)])
  {
    hide LaunchPrefix, LocalMemPart, WaitPart;
    PrefixShape(s, r);
    var p := WithArgs(LaunchPrefix(s, r), r);
    assert r.kernel.constants != [] by { NoConstants(s.host, r); }
    var c := Launch(s.host.ctr + 1, QmdAddr(s.host, r));
    assert x == Accepted(p, Compute, c, LaunchOp(s.host, r));
    assert p.host.compute + [c, Release(TIMELINE, c.op)] == p.host.compute + [c] + [Release(TIMELINE, c.op)];
  }

  lemma AsyncCommenced(s: State, r: LaunchReq, t: State)
    requires s.phase.Idle? && s.host.compute == [] && s.host.dma == [] && s.host.backlog == [] && !s.host.pending
    requires LaunchStatus(s, r) == Success && !r.sync && t == CommenceSingleNext(LaunchNext(s, r))
    ensures Enabled(LaunchNext(s, r), CommenceSingleStep) && r.kernel.constants != []
    ensures var n := s.host.ctr + 1;
            && t.gpu.compute.fifo == s.gpu.compute.fifo + LocalMemPart(s.host, r)
                                     + [Launch(n, QmdAddr(s.host, r)), Release(TIMELINE, n)]
            && t.gpu.compute.running == s.gpu.compute.running
            && t.gpu.dma == s.gpu.dma && t.gpu.done == s.gpu.done
  {
    hide LaunchNext, LaunchStatus, LocalMemPart;
    var x, n := LaunchNext(s, r), s.host.ctr + 1;
    LaunchShape(s, r, x);
    var pre, l := LocalMemPart(s.host, r), Launch(n, QmdAddr(s.host, r));
    assert x.host.compute == pre + [l];
    assert s.gpu.compute.fifo + (pre + [l] + [Release(TIMELINE, n)]) == s.gpu.compute.fifo + pre + [l, Release(TIMELINE, n)];
  }

  lemma LaunchBreaks(s: State, r: LaunchReq) returns (steps: seq<Step>, t': State)
    requires Unawaited(s, Dma) && LaunchStatus(s, r) == Success && !r.sync && Val(s.gpu, TIMELINE) < s.host.ctr
    ensures Walk(LaunchNext(s, r), steps, t') && AllWinding(steps) && !Sound(t')
  {
    hide GpuSafe, OrderSafe, EventSafe, SignalsSafe, ArgsSafe, HostIdle, Live, Walk, Sound, LaunchNext, LaunchStatus;
    var x := LaunchNext(s, r);
    var t := CommenceSingleNext(x);
    NotPending(s.host, s.hist, Dma);
    AsyncCommenced(s, r, t);
    QuietIsPlain(s, Dma);
    var pre := s.gpu.compute.fifo + LocalMemPart(s.host, r);
    assert Plain(pre);
    var rest;
    rest, t' := Breaks(s, Dma, t, pre, Launch(s.host.ctr + 1, QmdAddr(s.host, r)));
    CommenceIs(x);
    WalkOne(x, CommenceSingleStep);
    WalkAppend(x, [CommenceSingleStep], t, rest, t');
    steps := [CommenceSingleStep] + rest;
  }
}
