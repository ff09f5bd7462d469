/** The stream engine cannot get stuck: when the client also refrains from copying while a
    refused launch has left an acquire that the GPU has not fetched, every command list that reaches a channel
    runs to its end and every CPU wait is over after finitely many GPU steps. */
module StreamProgress {
  import opened Results
  import opened Commands
  import opened Stream
  import opened StreamFlow
  import opened StreamSafety
  import opened StreamSteps
  import opened StreamRuns

  // ------------------------------------------------------------- acquires in lists

  /** Every acquire stands right behind a release of the number it waits for. */
  predicate AcqOk(cmds: seq<Command>, m: Mark) {
    cmds == []
    || ((cmds[0].Acquire? ==> cmds[0].value == m.rel == m.last) && AcqOk(cmds[1..], Advance(cmds[0], m)))
  }

  predicate NoAcq(cmds: seq<Command>) {
    forall c | c in cmds :: !c.Acquire?
  }

  lemma {:induction false} AcqAppend(a: seq<Command>, b: seq<Command>, m: Mark)
    ensures AcqOk(a + b, m) <==> AcqOk(a, m) && AcqOk(b, FlowEnd(a, m))
  {
    if a == [] {
      assert a + b == b;
    } else {
      assert (a + b)[1..] == a[1..] + b;
      AcqAppend(a[1..], b, Advance(a[0], m));
    }
  }

  lemma {:induction false} NoAcqOk(cmds: seq<Command>, m: Mark)
    requires NoAcq(cmds)
    ensures AcqOk(cmds, m)
  {
    if cmds == [] {
    } else {
      assert forall c | c in cmds[1..] :: c in cmds;
      NoAcqOk(cmds[1..], Advance(cmds[0], m));
    }
  }

  lemma {:induction false} DangleAppend(a: seq<Command>, b: seq<Command>, d: bool)
    ensures Dangle(a + b, d) == Dangle(b, Dangle(a, d))
  {
    if a == [] {
      assert a + b == b;
    } else {
      assert (a + b)[1..] == a[1..] + b;
      DangleAppend(a[1..], b, if a[0].Acquire? then true else if a[0].IsWork() then false else d);
    }
  }

  lemma {:induction false} DangleMonotone(cmds: seq<Command>, d: bool, e: bool)
    requires d ==> e
    ensures Dangle(cmds, d) ==> Dangle(cmds, e)
  {
    if cmds == [] {
    } else {
      var c := cmds[0];
      DangleMonotone(cmds[1..], if c.Acquire? then true else if c.IsWork() then false else d,
                     if c.Acquire? then true else if c.IsWork() then false else e);
    }
  }

  lemma DangleOwed(buf: seq<Command>, ctr: nat, owes: bool, d: bool)
    ensures Dangle(buf + Owed(ctr, owes), d) == Dangle(buf, d)
  {
    DangleAppend(buf, Owed(ctr, owes), d);
    if owes { assert [Release(TIMELINE, ctr)][1..] == []; }
  }

  /** Without work in it, a list that leaves nothing dangling holds no acquire at all. */
  lemma {:induction false} DangleNoWork(cmds: seq<Command>, d: bool)
    requires forall c | c in cmds :: !c.IsWork()
    requires !Dangle(cmds, d)
    ensures !d && NoAcq(cmds)
  {
    if cmds == [] {
    } else {
      assert forall c | c in cmds[1..] :: c in cmds;
      assert cmds[0] in cmds;
      DangleNoWork(cmds[1..], if cmds[0].Acquire? then true else d);
      assert cmds == [cmds[0]] + cmds[1..];
    }
  }

  // ---------------------------------------------------------------- over splits

  function DangleSplit(sp: Split, d: bool): bool {
    if sp.kind == Compute then Dangle(Full(sp), d) else d
  }

  /** Whether an acquire dangles when split j is about to be submitted, if d says so at split i. */
  function DangleFrom(segs: seq<Split>, i: nat, j: nat, d: bool): bool
    requires i <= j <= |segs|
  {
    if i == j then d else DangleSplit(segs[j - 1], DangleFrom(segs, i, j - 1, d))
  }

  lemma {:induction false} DangleFromShift(segs: seq<Split>, i: nat, j: nat, d: bool)
    requires i < j <= |segs|
    ensures DangleFrom(segs, i, j, d) == DangleFrom(segs, i + 1, j, DangleSplit(segs[i], d))
  {
    if i + 1 < j { DangleFromShift(segs, i, j - 1, d); }
  }

  lemma {:induction false} DangleFromMonotone(segs: seq<Split>, i: nat, j: nat, d: bool, e: bool)
    requires i <= j <= |segs| && (d ==> e)
    ensures DangleFrom(segs, i, j, d) ==> DangleFrom(segs, i, j, e)
  {
    if i == j {
    } else {
      DangleFromMonotone(segs, i, j - 1, d, e);
      DangleMonotone(Full(segs[j - 1]), DangleFrom(segs, i, j - 1, d), DangleFrom(segs, i, j - 1, e));
    }
  }

  lemma {:induction false} DangleFromSame(segs: seq<Split>, segs': seq<Split>, i: nat, j: nat, d: bool)
    requires i <= j <= |segs| && segs <= segs'
    ensures DangleFrom(segs', i, j, d) == DangleFrom(segs, i, j, d)
  {
    if i == j {
    } else {
      DangleFromSame(segs, segs', i, j - 1, d);
    }
  }

  ghost predicate SegLive(segs: seq<Split>, i: nat, j: nat, m: nat, d: bool)
    requires i <= j < |segs|
  {
    && (segs[j].kind == Compute ==> AcqOk(Full(segs[j]), Mark(SegStart(segs, j, m), SegStart(segs, j, m))))
    && (segs[j].kind == Dma ==> !DangleFrom(segs, i, j, d))
  }

  /** First split that is still to be submitted. */
  function FirstSeg(s: State): nat {
    match s.phase
    case Idle => 0
    case Draining(i) => i + 1
  }

  function GpuDangle(g: Gpu): bool {
    Dangle(g.compute.fifo, false)
  }

  ghost predicate GpuLive(g: Gpu, h: History) {
    if h.active == Mode(Dma) then NoAcq(g.compute.fifo)
    else AcqOk(g.compute.fifo, Mark(g.last, Val(g, TIMELINE)))
  }

  /** Whether an acquire dangles at the end of what is enqueued, if d says so before split i. */
  function HostDangle(host: Host, i: nat, d: bool): bool
    requires i <= |host.backlog|
  {
    Dangle(host.compute, DangleFrom(host.backlog, i, |host.backlog|, d))
  }

  ghost predicate HostLive(host: Host, h: History, i: nat, d: bool) {
    && i <= |host.backlog|
    && (forall j | i <= j < |host.backlog| :: SegLive(host.backlog, i, j, h.sub, d))
    && AcqOk(host.compute, Mark(Tail(host, h), Tail(host, h)))
    && (HostDangle(host, i, d) ==> h.dangling && host.dma == [] && host.mode == Mode(Compute))
  }

  ghost predicate Live(s: State) {
    GpuLive(s.gpu, s.hist) && HostLive(s.host, s.hist, FirstSeg(s), GpuDangle(s.gpu))
  }

  /** Somewhere behind what the GPU has fetched there is an acquire with no launch behind it. */
  predicate Unfetched(s: State) {
    s.phase.Idle? && HostDangle(s.host, 0, GpuDangle(s.gpu))
  }

  /** The client does not copy while such an acquire is unfetched. */
  predicate Patient(s: State, st: Step) {
    st.CopyStep? && CopyStatus(st.copy) == Success ==> !Unfetched(s)
  }

  lemma InitialLive(s: State)
    requires Initial(s)
    ensures Live(s)
  {
  }

  // ------------------------------------------------------------------- gpu steps

  lemma HostLiveWeaken(host: Host, h: History, i: nat, d: bool, e: bool)
    requires HostLive(host, h, i, d) && (e ==> d)
    ensures HostLive(host, h, i, e)
  {
    hide Dangle, AcqOk;
    var n := |host.backlog|;
    forall j | i <= j < n ensures SegLive(host.backlog, i, j, h.sub, e) {
      assert SegLive(host.backlog, i, j, h.sub, d);
      DangleFromMonotone(host.backlog, i, j, e, d);
    }
    DangleFromMonotone(host.backlog, i, n, e, d);
    DangleMonotone(host.compute, DangleFrom(host.backlog, i, n, e), DangleFrom(host.backlog, i, n, d));
  }

  lemma FetchLive(g: Gpu, h: History, k: Kind)
    requires GpuSafe(g, h) && GpuLive(g, h) && GpuEnabled(g, Fetch(k))
    ensures GpuLive(Fetched(g, k), h)
    ensures GpuDangle(Fetched(g, k)) ==> GpuDangle(g)
  {
    hide Counts, RunningKind;
    var c, g', m := Ch(g, k).fifo[0], Fetched(g, k), Mark(g.last, Val(g, TIMELINE));
    if k == Compute {
      DangleMonotone(g'.compute.fifo, false, if c.Acquire? then true else false);
    }
    if h.active == Mode(k) {
      FetchActiveCounts(g, h, k);
      assert k == Dma ==> g'.compute == g.compute;
    } else {
      FetchQuietKeeps(g, h, k);
      QuietHead(g, h, k);
      assert Advance(c, m) == m;
    }
  }

  lemma GpuStepLive(s: State, a: GpuAction)
    requires Safe(s) && Live(s) && GpuEnabled(s.gpu, a)
    ensures Live(s.(gpu := GpuNext(s.gpu, a)))
  {
    hide GpuSafe, OrderSafe, EventSafe, SignalsSafe, ArgsSafe, HostSafe, HostLive;
    match a
    case Fetch(k) =>
      FetchLive(s.gpu, s.hist, k);
      HostLiveWeaken(s.host, s.hist, FirstSeg(s), GpuDangle(s.gpu), GpuDangle(Fetched(s.gpu, k)));
    case Finish(k, op) =>
      var g' := GpuNext(s.gpu, a);
      assert g'.compute.fifo == s.gpu.compute.fifo && g'.last == s.gpu.last && g'.signals == s.gpu.signals;
  }

  // ------------------------------------------------------------------- host steps

  /** The liveness of the queue in terms of its tip. */
  lemma SwitchLive(host: Host, h: History, k: Kind, d: bool)
    requires HostIdle(host, h) && MayFollow(host, h, k) && HostLive(host, h, 0, d)
    requires k == Dma ==> !HostDangle(host, 0, d)
    ensures HostLive(SwitchedHost(host, k), h, 0, d)
    ensures k == Dma ==> !HostDangle(SwitchedHost(host, k), 0, d)
  {
    hide AcqOk, Dangle, FlowOk, FlowEnd, SegOk;
    if Buf(host, k.Other()) == [] {
      SwitchIntoLive(host, h, k, d);
    } else {
      OtherInUse(host, h, k);
      BackloggedLive(host, h, k.Other(), d);
      SwitchIntoLive(Backlogged(host, k.Other()), h, k, d);
    }
  }

  lemma SwitchIntoLive(host: Host, h: History, k: Kind, d: bool)
    requires HostLive(host, h, 0, d) && (k == Dma ==> !HostDangle(host, 0, d)) && (k == Compute ==> host.dma == [])
    ensures HostLive(host.(mode := Mode(k)), h, 0, d)
  {
    hide AcqOk, Dangle;
    forall j | 0 <= j < |host.backlog| ensures SegLive(host.backlog, 0, j, h.sub, d) {}
  }

  /** Moving the buffer in use into the backlog. */
  lemma BackloggedLive(host: Host, h: History, o: Kind, d: bool)
    requires HostIdle(host, h) && HostLive(host, h, 0, d) && host.mode == Mode(o)
    ensures HostLive(Backlogged(host, o), h, 0, d)
    ensures HostDangle(Backlogged(host, o), 0, d) == HostDangle(host, 0, d)
  {
    hide FlowOk, FlowEnd, SegOk;
    if Buf(host, o) != [] {
      var host' := Backlogged(host, o);
      var n, sp := |host.backlog|, Split(Buf(host, o), o, host.ctr, host.pending);
      var tail := Tail(host, h);
      assert host'.backlog == host.backlog + [sp];
      assert HostFlow(host, h, o);
      forall j | 0 <= j <= n ensures SegLive(host'.backlog, 0, j, h.sub, d) {
        DangleFromSame(host.backlog, host'.backlog, 0, j, d);
        if j < n {
          assert SegLive(host.backlog, 0, j, h.sub, d);
        } else {
          AcqAppend(Buf(host, o), Owed(host.ctr, host.pending), Mark(tail, tail));
          NoAcqOk(Owed(host.ctr, host.pending), FlowEnd(Buf(host, o), Mark(tail, tail)));
        }
      }
      DangleFromSame(host.backlog, host'.backlog, 0, n, d);
      DangleOwed(Buf(host, o), host.ctr, host.pending, DangleFrom(host.backlog, 0, n, d));
      assert DangleFrom(host'.backlog, 0, n + 1, d) == DangleSplit(sp, DangleFrom(host'.backlog, 0, n, d));
    }
  }

  /** Appending commands whose acquires are in place. */
  lemma EnqueueLive(s: State, k: Kind, cmds: seq<Command>, d: bool)
    requires s.host.mode == Mode(k) && HostLive(s.host, s.hist, 0, d) && (s.host.dma != [] ==> k == Dma)
    requires k == Compute ==> AcqOk(cmds, Tip(s.host, s.hist, k))
    ensures HostLive(Enqueue(s, k, cmds).host, Enqueue(s, k, cmds).hist, 0, d)
  {
    var s' := Enqueue(s, k, cmds);
    var tail := Mark(Tail(s.host, s.hist), Tail(s.host, s.hist));
    forall j | 0 <= j < |s'.host.backlog| ensures SegLive(s'.host.backlog, 0, j, s'.hist.sub, d) {
      assert SegLive(s.host.backlog, 0, j, s.hist.sub, d);
    }
    if k == Compute {
      AcqAppend(s.host.compute, cmds, tail);
      var e := DangleFrom(s.host.backlog, 0, |s.host.backlog|, d);
      DangleAppend(s.host.compute, cmds, e);
      DangleMonotone(cmds, Dangle(s.host.compute, e), s.hist.dangling);
    }
  }

  /** Only the fields that the liveness of the queue reads. */
  lemma HostLiveIgnores(a: Host, ha: History, b: Host, hb: History, d: bool)
    requires HostLive(a, ha, 0, d)
    requires b.compute == a.compute && b.dma == a.dma && b.backlog == a.backlog && b.mode == a.mode
    requires hb.sub == ha.sub && hb.dangling == ha.dangling
    ensures HostLive(b, hb, 0, d)
  {
    hide Dangle, AcqOk;
    forall j | 0 <= j < |b.backlog| ensures SegLive(b.backlog, 0, j, hb.sub, d) {
      assert SegLive(a.backlog, 0, j, ha.sub, d);
    }
  }

  ghost predicate QueueLive(s: State, d: bool) {
    HostIdle(s.host, s.hist) && HostLive(s.host, s.hist, 0, d)
  }

  lemma EnqueueOneLive(s: State, c: Command, d: bool)
    requires QueueLive(s, d) && s.host.mode == Mode(Compute)
    requires c.Acquire? ==> c.value == s.host.ctr && !s.host.pending
    requires CmdOk(c, Tip(s.host, s.hist, Compute), Compute, s.hist)
    ensures HostLive(Enqueue(s, Compute, [c]).host, Enqueue(s, Compute, [c]).hist, 0, d)
  {
    var tail := Mark(Tail(s.host, s.hist), Tail(s.host, s.hist));
    FlowGrows(s.host.compute, tail, Compute, s.hist);
    assert [c][1..] == [];
    EnqueueLive(s, Compute, [c], d);
  }

  lemma LocalMemLive(s: State, r: LaunchReq, d: bool)
    requires QueueLive(s, d) && s.host.mode == Mode(Compute)
    ensures QueueLive(WithLocalMem(s, r), d) && WithLocalMem(s, r).host.mode == Mode(Compute)
  {
    hide HostLive, HostIdle;
    LocalMemKeeps(s, r);
    if NeedsLocalMem(s.host, r) {
      var s1 := s.(host := GrownSlm(s.host, r));
      HostIgnores(s.host, s1.host, s.hist);
      HostLiveIgnores(s.host, s.hist, s1.host, s.hist, d);
      EnqueueOneLive(s1, LocalMemCommand(r), d);
    }
  }

  lemma FlushLive(s: State, d: bool)
    requires QueueLive(s, d) && s.host.mode == Mode(Compute)
    ensures QueueLive(Flushed(s), d) && Flushed(s).host.mode == Mode(Compute) && !Flushed(s).host.pending
  {
    FlushKeeps(s);
    if s.host.pending {
      var s1 := Enqueue(s, Compute, [Release(TIMELINE, s.host.ctr)]);
      EnqueueOneLive(s, Release(TIMELINE, s.host.ctr), d);
      HostLiveIgnores(s1.host, s1.hist, Flushed(s).host, Flushed(s).hist, d);
    }
  }

  lemma WaitLive(s: State, d: bool)
    requires QueueLive(s, d) && s.host.mode == Mode(Compute) && !s.host.pending
    ensures QueueLive(WaitedGpu(s), d)
  {
    hide HostLive;
    WaitKeeps(s);
    if Val(s.gpu, TIMELINE) != s.host.ctr {
      EnqueueOneLive(s, Acquire(TIMELINE, s.host.ctr), d);
    }
  }

  lemma PrefixLive(s: State, r: LaunchReq, d: bool)
    requires QueueLive(s, d) && MayFollow(s.host, s.hist, Compute)
    ensures QueueLive(LaunchPrefix(s, r), d)
  {
    hide HostLive, HostIdle;
    SwitchKeeps(s.host, s.hist, Compute);
    SwitchLive(s.host, s.hist, Compute, d);
    var s1 := Switched(s, Compute);
    LocalMemLive(s1, r, d);
    var s2 := WithLocalMem(s1, r);
    if r.sync {
      FlushLive(s2, d);
      WaitLive(Flushed(s2), d);
    }
  }

  /** An accepted operation of kind k. */
  lemma AcceptLive(s: State, k: Kind, c: Command, op: Op, d: bool)
    requires QueueLive(s, d) && s.host.mode == Mode(k) && c.IsWork()
    requires k == Dma ==> !HostDangle(s.host, 0, d)
    ensures HostLive(Accepted(s, k, c, op).host, Accepted(s, k, c, op).hist, 0, d)
  {
    var s1 := s.(host := s.host.(ctr := s.host.ctr + 1), hist := s.hist.(ops := s.hist.ops + [op]));
    var cmds := if op.sync then [c, Release(TIMELINE, s.host.ctr + 1)] else [c];
    HostLiveIgnores(s.host, s.hist, s1.host, s1.hist, d);
    assert HostFlow(s.host, s.hist, k);
    NoAcqOk(cmds, Tip(s1.host, s1.hist, k));
    EnqueueLive(s1, k, cmds, d);
    var s2 := Enqueue(s1, k, cmds);
    HostLiveIgnores(s2.host, s2.hist, Accepted(s, k, c, op).host, Accepted(s, k, c, op).hist, d);
  }

  // ----------------------------------------------------------------- client calls

  lemma LaunchLive(s: State, r: LaunchReq, s': State)
    requires Safe(s) && Live(s) && s.phase.Idle? && MayFollow(s.host, s.hist, Compute) && s' == LaunchNext(s, r)
    ensures Live(s')
  {
    hide GpuSafe, OrderSafe, EventSafe, SignalsSafe, ArgsSafe, HostLive, HostIdle, Accepted, Verdict;
    var d := GpuDangle(s.gpu);
    LaunchFrame(s, r, s');
    if r.numParams == |r.kernel.paramSizes| {
      if LocalMemFails(s.host, r) {
        SwitchLive(s.host, s.hist, Compute, d);
        HostLiveIgnores(SwitchedHost(s.host, Compute), s.hist, s'.host, s'.hist, d);
      } else {
        PrefixKeeps(s, r);
        PrefixLive(s, r, d);
        DecidedLive(s, LaunchPrefix(s, r), r, d);
      }
    }
  }

  lemma DecidedLive(s: State, s1: State, r: LaunchReq, d: bool)
    requires QueueLive(s1, d) && s1.host.mode == Mode(Compute)
    ensures HostLive(WithArgs(s1, r).host, WithArgs(s1, r).hist, 0, d)
    ensures Verdict(s.host, r) == Success ==>
              var s' := Accepted(WithArgs(s1, r), Compute, Launch(s.host.ctr + 1, QmdAddr(s.host, r)), LaunchOp(s.host, r));
              HostLive(s'.host, s'.hist, 0, d)
  {
    hide HostLive, HostIdle, Accepted;
    var s2 := WithArgs(s1, r);
    HostIgnores(s1.host, s2.host, s1.hist);
    HostLiveIgnores(s1.host, s1.hist, s2.host, s2.hist, d);
    if Verdict(s.host, r) == Success {
      AcceptLive(s2, Compute, Launch(s.host.ctr + 1, QmdAddr(s.host, r)), LaunchOp(s.host, r), d);
    }
  }

  lemma CopyLive(s: State, r: CopyReq, s': State)
    requires Safe(s) && Live(s) && s.phase.Idle? && MayFollow(s.host, s.hist, Dma) && s' == CopyNext(s, r)
    requires Patient(s, CopyStep(r))
    ensures Live(s')
  {
    hide GpuSafe, OrderSafe, EventSafe, SignalsSafe, ArgsSafe, HostLive, HostIdle;
    CopyFrame(s, r, s');
    if CopyStatus(r) == Success {
      var d := GpuDangle(s.gpu);
      SwitchKeeps(s.host, s.hist, Dma);
      SwitchLive(s.host, s.hist, Dma, d);
      AcceptLive(Switched(s, Dma), Dma, Copy(s.host.ctr + 1, r.src, r.dst, r.len), Op(Dma, r.sync, 0, 0), d);
    }
  }

  lemma RecordLive(s: State, s': State)
    requires Safe(s) && Live(s) && s.phase.Idle? && s' == RecordNext(s)
    ensures Live(s')
  {
    hide GpuSafe, OrderSafe, EventSafe, SignalsSafe, ArgsSafe, HostLive;
    if s.host.free != [] {
      var k, d, c := RecordKind(s.host), GpuDangle(s.gpu), Release(s.host.free[0], 1);
      var s1 := s.(host := s.host.(mode := Mode(k)));
      assert s.host.mode.Mode? ==> HostFlow(s.host, s.hist, k);
      SwitchIntoLive(s.host, s.hist, k, d) by { assert k == Dma ==> !HostDangle(s.host, 0, d) by { ModeLive(s, d); } }
      NoAcqOk([c], Tip(s.host, s.hist, k));
      EnqueueLive(s1, k, [c], d);
      var s2 := Enqueue(s1, k, [c]);
      HostLiveIgnores(s2.host, s2.hist, s'.host, s'.hist, d);
    }
  }

  lemma ModeLive(s: State, d: bool)
    requires HostLive(s.host, s.hist, 0, d)
    ensures s.host.mode != Mode(Compute) ==> !HostDangle(s.host, 0, d)
  {
  }

  // -------------------------------------------------------------------- commence

  /** Submitting to a channel that is free for it. */
  lemma SubmitLive(s: State, k: Kind, cmds: seq<Command>, upto: nat)
    requires GpuSafe(s.gpu, s.hist) && GpuLive(s.gpu, s.hist) && Free(s.hist, k)
    requires k == Compute ==> AcqOk(cmds, Mark(s.hist.sub, s.hist.sub))
    requires k == Dma ==> !GpuDangle(s.gpu)
    ensures var s' := Submitted(s, k, cmds, upto);
            && GpuLive(s'.gpu, s'.hist)
            && GpuDangle(s'.gpu) == if k == Compute then Dangle(cmds, GpuDangle(s.gpu)) else GpuDangle(s.gpu)
  {
    hide Counts, RunningKind, FlowOk;
    LeadsOrQuietFlow(s.gpu, s.hist, k);
    if k == Compute {
      AcqAppend(s.gpu.compute.fifo, cmds, Mark(s.gpu.last, Val(s.gpu, TIMELINE)));
      DangleAppend(s.gpu.compute.fifo, cmds, false);
    } else if s.hist.active.Unset? {
      QuietNoWork(s.gpu, s.hist);
      DangleNoWork(s.gpu.compute.fifo, false);
    }
  }

  lemma QuietNoWork(g: Gpu, h: History)
    requires Quiet(g, h, Compute)
    ensures forall c | c in g.compute.fifo :: !c.IsWork()
  {
    forall c | c in g.compute.fifo ensures !c.IsWork() {
      var i :| 0 <= i < |g.compute.fifo| && g.compute.fifo[i] == c;
      assert InertCmd(g.compute.fifo[i], Val(g, TIMELINE), Compute, h);
    }
  }

  lemma SettleLive(g: Gpu, h: History)
    requires GpuSafe(g, h) && GpuLive(g, h)
    ensures GpuLive(g, h.(active := Unset))
  {
    if h.active == Mode(Dma) { NoAcqOk(g.compute.fifo, Mark(g.last, Val(g, TIMELINE))); }
  }

  lemma EmptyHostLive(host: Host, h: History, i: nat, d: bool)
    requires host.compute == [] && host.dma == [] && i == |host.backlog|
    requires d ==> h.dangling && host.mode == Mode(Compute)
    ensures HostLive(host, h, i, d)
  {
  }

  lemma SingleLive(s: State, s': State)
    requires Safe(s) && Live(s) && Enabled(s, CommenceSingleStep) && s' == CommenceSingleNext(s)
    ensures Live(s')
  {
    hide OrderSafe, EventSafe, SignalsSafe, ArgsSafe, GpuSafe, FlowOk, FlowEnd;
    match s.host.mode
    case Unset => UnsetEmpty(s.host, s.hist);
    case Mode(k) =>
      SingleFlow(s, k);
      var b, m, d := Buf(s.host, k), Mark(s.hist.sub, s.hist.sub), GpuDangle(s.gpu);
      var cmds := b + Owed(s.host.ctr, s.host.pending);
      assert s.host.backlog == [] && Tail(s.host, s.hist) == s.hist.sub;
      AcqAppend(b, Owed(s.host.ctr, s.host.pending), m);
      NoAcqOk(Owed(s.host.ctr, s.host.pending), FlowEnd(b, m));
      DangleOwed(b, s.host.ctr, s.host.pending, d);
      assert DangleFrom(s.host.backlog, 0, 0, d) == d;
      if cmds != [] {
        var s1 := s.(host := Cleared(s.host, k).(pending := false), hist := s.hist.(log := []));
        GpuExtend(s.gpu, s.hist, s1.hist);
        SubmitLive(s1, k, cmds, s.host.ctr);
      }
      EmptyHostLive(s'.host, s'.hist, 0, GpuDangle(s'.gpu));
  }

  /** Submitting split i of an idle GPU. */
  lemma SubmitSplitLive(s: State, i: nat)
    requires GpuSafe(s.gpu, s.hist) && GpuLive(s.gpu, s.hist)
    requires i < |s.host.backlog| && Free(s.hist, s.host.backlog[i].kind) && SegStart(s.host.backlog, i, s.hist.sub) == s.hist.sub
    requires HostLive(s.host, s.hist, i, GpuDangle(s.gpu)) && s.host.compute == [] && s.host.dma == []
    ensures Live(SubmitSplit(s, i))
  {
    hide GpuSafe, AcqOk, Dangle, FlowOk, FlowEnd;
    var segs, sp, s', d := s.host.backlog, s.host.backlog[i], SubmitSplit(s, i), GpuDangle(s.gpu);
    assert SegLive(segs, i, i, s.hist.sub, d);
    SubmitLive(s, sp.kind, Full(sp), sp.ctr);
    assert GpuDangle(s'.gpu) == DangleSplit(sp, d);
    var next := i + 1;
    forall j | next <= j < |segs| ensures SegLive(segs, next, j, s'.hist.sub, DangleSplit(sp, d)) {
      assert SegLive(segs, i, j, s.hist.sub, d);
      DangleFromShift(segs, i, j, d);
    }
    DangleFromShift(segs, i, |segs|, d);
    EmptyAcq(Mark(Tail(s'.host, s'.hist), Tail(s'.host, s'.hist)));
    EmptyDangle(DangleFrom(segs, i, |segs|, d));
  }

  lemma EmptyAcq(m: Mark)
    ensures AcqOk([], m)
  {
  }

  lemma EmptyDangle(d: bool)
    ensures Dangle([], d) == d
  {
  }

  lemma BacklogLive(s: State, s': State)
    requires Safe(s) && Live(s) && s.phase.Idle? && s.host.backlog != [] && s' == CommenceBacklogNext(s)
    ensures Live(s')
  {
    hide OrderSafe, EventSafe, SignalsSafe, ArgsSafe, GpuSafe, AcqOk, Dangle, FlowOk, FlowEnd, SegOk, HostLive;
    assert s.host.mode.Mode?;
    var k, d := s.host.mode.kind, GpuDangle(s.gpu);
    BacklogOne(s.host, k);
    BacklogAll(s.host, s.hist, k);
    var host' := Backlogged(s.host, k);
    BackloggedLive(s.host, s.hist, k, d);
    var s1 := s.(host := host', hist := s.hist.(log := []));
    GpuExtend(s.gpu, s.hist, s1.hist);
    HostLiveIgnores(host', s.hist, host', s1.hist, d);
    SubmitSplitLive(s1, 0);
  }

  lemma DrainLive(s: State, s': State)
    requires Safe(s) && Live(s) && Enabled(s, DrainStep) && s' == DrainNext(s)
    ensures Live(s')
  {
    hide OrderSafe, EventSafe, SignalsSafe, ArgsSafe, GpuSafe, AcqOk, Dangle, FlowOk, FlowEnd, HostLive;
    var i, s1 := s.phase.i + 1, s.(hist := s.hist.(active := Unset));
    Settles(s.gpu, s.hist);
    SettleLive(s.gpu, s.hist);
    if i < |s.host.backlog| {
      HostLiveActive(s.host, s.hist, s1.hist, i, GpuDangle(s.gpu));
      SubmitSplitLive(s1, i);
    } else {
      LastDrained(s.host, s.hist, i, GpuDangle(s.gpu));
      EmptyHostLive(s'.host, s'.hist, 0, GpuDangle(s.gpu));
    }
  }

  lemma LastDrained(host: Host, h: History, i: nat, d: bool)
    requires HostLive(host, h, i, d) && i == |host.backlog| && host.compute == []
    ensures d ==> h.dangling && host.mode == Mode(Compute)
  {
  }

  lemma HostLiveActive(host: Host, h: History, h': History, i: nat, d: bool)
    requires HostLive(host, h, i, d) && h'.sub == h.sub && h'.dangling == h.dangling
    ensures HostLive(host, h', i, d)
  {
    hide AcqOk, Dangle;
    forall j | i <= j < |host.backlog| ensures SegLive(host.backlog, i, j, h'.sub, d) {
      assert SegLive(host.backlog, i, j, h.sub, d);
    }
  }

  lemma AwaitLive(s: State, s': State)
    requires Safe(s) && Live(s) && Enabled(s, AwaitStep) && s' == AwaitNext(s)
    ensures Live(s')
  {
    hide OrderSafe, EventSafe, SignalsSafe, ArgsSafe, HostLive, HostSafe;
    SettleLive(s.gpu, s.hist);
    HostLiveIgnores(s.host, s.hist, s'.host, s'.hist, GpuDangle(s.gpu));
  }

  lemma BindLive(s: State, k: Kind, ms: seq<Method>)
    requires Safe(s) && Live(s) && Enabled(s, BindStep(k, ms))
    ensures Live(BindNext(s, k, ms))
  {
    hide OrderSafe, EventSafe, SignalsSafe, ArgsSafe, GpuSafe;
    UnsetEmpty(s.host, s.hist);
    var n := s.host.ctr + 1;
    var s1 := s.(host := s.host.(ctr := n), hist := s.hist.(ops := s.hist.ops + [Op(k, true, 0, 0)]));
    var cmds := [Bind(n, ms), Release(TIMELINE, n)];
    GpuExtend(s.gpu, s.hist, s1.hist);
    assert s.host.compute == [] && s.host.backlog == [];
    NoAcqOk(cmds, Mark(s.hist.sub, s.hist.sub));
    SubmitLive(s1, k, cmds, n);
    assert cmds[1..] == [cmds[1]] && cmds[1..][1..] == [];
    EmptyHostLive(BindNext(s, k, ms).host, BindNext(s, k, ms).hist, 0, GpuDangle(BindNext(s, k, ms).gpu));
  }

  lemma StepLive(s: State, st: Step, s': State)
    requires Safe(s) && Live(s) && Legal(s, st, s') && Patient(s, st)
    ensures Live(s')
  {
    hide Live, GpuSafe, OrderSafe, EventSafe, SignalsSafe, ArgsSafe, HostSafe;
    match st
    case LaunchStep(r) =>
      LaunchLive(s, r, s');
    case CopyStep(r) =>
      CopyLive(s, r, s');
    case RecordStep => RecordLive(s, s');
    case CommenceSingleStep => SingleLive(s, s');
    case CommenceBacklogStep => BacklogLive(s, s');
    case DrainStep => DrainLive(s, s');
    case AwaitStep => AwaitLive(s, s');
    case BindStep(k, ms) => BindLive(s, k, ms);
    case GpuStep(a) => GpuStepLive(s, a);
  }

  // ------------------------------------------------------------------ no deadlock

  ghost predicate IsPatientRun(r: Run) {
    IsRun(r) && forall i | 0 <= i < |r.steps| :: Patient(r.states[i], r.steps[i])
  }

  function Snoc(r: Run, st: Step, s: State): Run {
    Run(r.states + [s], r.steps + [st])
  }

  /** A run may be continued by any step that its last state allows. */
  lemma SnocRun(r: Run, st: Step, s: State)
    requires IsPatientRun(r)
    requires Legal(r.states[|r.states| - 1], st, s) && Patient(r.states[|r.states| - 1], st)
    ensures IsPatientRun(Snoc(r, st, s))
  {
    hide Enabled, Disciplined, Next, Patient, Initial;
    var r' := Snoc(r, st, s);
    forall i | 0 <= i < |r'.steps|
      ensures Legal(r'.states[i], r'.steps[i], r'.states[i + 1]) && Patient(r'.states[i], r'.steps[i])
    {
      if i < |r.steps| {
        assert Legal(r.states[i], r.steps[i], r.states[i + 1]) && Patient(r.states[i], r.steps[i]);
      }
    }
  }

  lemma {:induction false} RunLive(r: Run, i: nat)
    requires IsPatientRun(r) && i < |r.states|
    ensures Safe(r.states[i]) && Live(r.states[i])
  {
    hide Next, Safe, Live, Patient;
    RunSafe(r, i);
    if i == 0 {
      InitialLive(r.states[0]);
    } else {
      RunLive(r, i - 1);
      assert Legal(r.states[i - 1], r.steps[i - 1], r.states[i]);
      StepLive(r.states[i - 1], r.steps[i - 1], r.states[i]);
    }
  }

  /** Nothing left to fetch and nothing running. */
  predicate GpuIdle(g: Gpu) {
    g.compute.fifo == [] && g.dma.fifo == [] && g.compute.running == {} && g.dma.running == {}
  }

  /** Unfetched commands, counted twice, and unfinished work. */
  function Measure(g: Gpu): nat {
    2 * (|g.compute.fifo| + |g.dma.fifo|) + |g.compute.running| + |g.dma.running|
  }

  lemma ActionShrinks(g: Gpu, a: GpuAction)
    requires GpuEnabled(g, a)
    ensures Measure(GpuNext(g, a)) < Measure(g)
  {
    match a
    case Fetch(k) =>
      var c := Ch(g, k).fifo[0];
      if c.IsWork() && c.op in Ch(g, k).running {
        assert Ch(g, k).running + {c.op} == Ch(g, k).running;
      }
    case Finish(k, op) =>
      assert |Ch(g, k).running - {op}| == |Ch(g, k).running| - 1;
  }

  /** Whenever the GPU is not idle, it can take a step; so an acquire never waits in vain. */
  lemma SomeAction(s: State) returns (a: GpuAction)
    requires Safe(s) && GpuLive(s.gpu, s.hist) && !GpuIdle(s.gpu)
    ensures GpuEnabled(s.gpu, a)
  {
    hide OrderSafe, EventSafe, SignalsSafe, ArgsSafe, HostSafe, GpuSafe, GpuLive;
    a := SomeGpuAction(s.gpu, s.hist);
  }

  lemma SomeGpuAction(g: Gpu, h: History) returns (a: GpuAction)
    requires GpuSafe(g, h) && GpuLive(g, h) && !GpuIdle(g)
    ensures GpuEnabled(g, a)
  {
    hide Counts;
    if op :| op in g.compute.running {
      a := Finish(Compute, op);
    } else if op :| op in g.dma.running {
      a := Finish(Dma, op);
    } else if g.compute.fifo != [] {
      a := Fetch(Compute);
      assert g.compute.running == {};
      var c := g.compute.fifo[0];
      assert c in g.compute.fifo;
      assert Fits(c, Compute) by { HeadFits(g, h, Compute); }
    } else {
      a := Fetch(Dma);
      assert g.dma.running == {};
      assert Fits(g.dma.fifo[0], Dma) by { HeadFits(g, h, Dma); }
    }
  }

  lemma HeadFits(g: Gpu, h: History, k: Kind)
    requires Channels(g, h) && Ch(g, k).fifo != []
    ensures Fits(Ch(g, k).fifo[0], k)
  {
    if h.active == Mode(k) {
      assert CmdOk(Ch(g, k).fifo[0], Mark(g.last, Val(g, TIMELINE)), k, h);
    } else {
      QuietHead(g, h, k);
    }
  }

  /** An idle GPU has brought the timeline to the last submitted number. */
  lemma IdleReached(s: State)
    requires Safe(s) && GpuIdle(s.gpu)
    ensures Val(s.gpu, TIMELINE) == s.hist.sub
  {
  }

  /** The number that a CPU wait of the current phase waits for: the split's counter inside a
      commence, the stream's counter for an await after everything was commenced. */
  predicate WaitsFor(s: State, target: nat) {
    match s.phase
    case Draining(i) => i < |s.host.backlog| && target == s.host.backlog[i].ctr
    case Idle => target == s.host.ctr == s.hist.sub
  }

  /** No deadlock. In every state of every patient run, either the GPU can step, and every step
      brings it closer to idle, or it is idle with all its command lists executed, and then
      every CPU wait of startExecution, and of awaitExecution after a commence, is over. */
  lemma NoDeadlock(r: Run, i: nat)
    requires IsPatientRun(r) && i < |r.states|
    ensures GpuIdle(r.states[i].gpu) || exists a :: GpuEnabled(r.states[i].gpu, a)
    ensures forall a | GpuEnabled(r.states[i].gpu, a) ::
              Measure(GpuNext(r.states[i].gpu, a)) < Measure(r.states[i].gpu)
    ensures forall target: nat | WaitsFor(r.states[i], target) && GpuIdle(r.states[i].gpu) ::
              Val(r.states[i].gpu, TIMELINE) >= target
  {
    hide Safe, GpuLive, GpuNext, GpuEnabled, Measure, IsRun;
    var s := r.states[i];
    RunLive(r, i);
    if GpuIdle(s.gpu) {
      IdleReached(s);
      forall target: nat | WaitsFor(s, target) ensures Val(s.gpu, TIMELINE) >= target {
        WaitReached(s, target);
      }
    } else {
      var a := SomeAction(s);
    }
    forall a | GpuEnabled(s.gpu, a) ensures Measure(GpuNext(s.gpu, a)) < Measure(s.gpu) {
      ActionShrinks(s.gpu, a);
    }
  }

  lemma WaitReached(s: State, target: nat)
    requires Safe(s) && WaitsFor(s, target) && Val(s.gpu, TIMELINE) == s.hist.sub
    ensures Val(s.gpu, TIMELINE) >= target
  {
  }

  /** The GPU alone, scheduled in any way that stops only when nothing is enabled, executes every
      submitted command, acquires included, within Measure steps. */
  ghost predicate GpuRun(s: State, acts: seq<GpuAction>, s': State)
    decreases |acts|
  {
    if acts == [] then s' == s
    else GpuEnabled(s.gpu, acts[0]) && GpuRun(s.(gpu := GpuNext(s.gpu, acts[0])), acts[1..], s')
  }

  lemma {:induction false} GpuRunEnds(s: State, acts: seq<GpuAction>, s': State)
    requires Safe(s) && Live(s) && GpuRun(s, acts, s')
    ensures Safe(s') && Live(s')
    ensures |acts| + Measure(s'.gpu) <= Measure(s.gpu)
    ensures (forall a :: !GpuEnabled(s'.gpu, a)) ==> GpuIdle(s'.gpu)
    decreases |acts|
  {
    hide Safe, GpuLive, HostLive, GpuNext, GpuEnabled, Measure;
    if acts == [] {
      if !GpuIdle(s.gpu) { var a := SomeAction(s); }
    } else {
      var a, s1 := acts[0], s.(gpu := GpuNext(s.gpu, acts[0]));
      GpuStepKeeps(s, a);
      GpuStepLive(s, a);
      ActionShrinks(s.gpu, a);
      GpuRunEnds(s1, acts[1..], s');
    }
  }

  /** An await is over after finitely many GPU steps, whatever they are, exactly when everything that
      was enqueued has been commenced: otherwise the GPU never brings the timeline to the counter. */
  lemma AwaitEndsIff(r: Run, i: nat)
    requires IsPatientRun(r) && i < |r.states| && r.states[i].phase.Idle?
    ensures var s := r.states[i];
            (forall acts, s' | GpuRun(s, acts, s') && (forall a :: !GpuEnabled(s'.gpu, a)) :: Enabled(s', AwaitStep))
            <==> s.host.ctr == s.hist.sub
  {
    hide Safe, Live, GpuRun, GpuEnabled, IsPatientRun;
    var s := r.states[i];
    RunLive(r, i);
    if s.host.ctr == s.hist.sub {
      forall acts, s' | GpuRun(s, acts, s') && (forall a :: !GpuEnabled(s'.gpu, a)) ensures Enabled(s', AwaitStep) {
        GpuRunEnds(s, acts, s');
        GpuRunFrame(s, acts, s');
        IdleReached(s');
      }
    } else {
      var acts, s' := RunToEnd(s);
      GpuRunFrame(s, acts, s');
      NeverBeyond(s');
    }
  }

  lemma {:induction false} GpuRunFrame(s: State, acts: seq<GpuAction>, s': State)
    requires GpuRun(s, acts, s')
    ensures s' == s.(gpu := s'.gpu)
    decreases |acts|
  {
    hide GpuNext, GpuEnabled;
    if acts == [] {
    } else {
      GpuRunFrame(s.(gpu := GpuNext(s.gpu, acts[0])), acts[1..], s');
    }
  }

  lemma NeverBeyond(s: State)
    requires Safe(s) && s.phase.Idle? && s.host.ctr != s.hist.sub
    ensures !Enabled(s, AwaitStep)
  {
    hide GpuSafe, OrderSafe, EventSafe, SignalsSafe, ArgsSafe;
    if Enabled(s, AwaitStep) { AwaitKeeps(s); }
  }

  lemma {:induction false} RunToEnd(s: State) returns (acts: seq<GpuAction>, s': State)
    requires Safe(s) && Live(s)
    ensures GpuRun(s, acts, s') && (forall a :: !GpuEnabled(s'.gpu, a)) && Safe(s')
    decreases Measure(s.gpu)
  {
    hide Safe, GpuLive, HostLive, GpuNext, GpuEnabled, Measure;
    if GpuIdle(s.gpu) {
      acts, s' := [], s;
      IdleStays(s.gpu);
    } else {
      var a := SomeAction(s);
      GpuStepKeeps(s, a);
      GpuStepLive(s, a);
      ActionShrinks(s.gpu, a);
      var rest;
      rest, s' := RunToEnd(s.(gpu := GpuNext(s.gpu, a)));
      acts := [a] + rest;
      assert acts[1..] == rest;
    }
  }

  lemma IdleStays(g: Gpu)
    requires GpuIdle(g)
    ensures forall a :: !GpuEnabled(g, a)
  {
  }
}
