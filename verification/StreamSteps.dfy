/** Every client call and every CPU step of a disciplined run keeps the safety invariant. */
module StreamSteps {
  import opened Results
  import opened Bits
  import opened Commands
  import opened Stream
  import opened StreamFlow
  import opened StreamSafety

  // ------------------------------------------------------ history extension

  lemma InertExtend(cmds: seq<Command>, r: nat, k: Kind, h: History, h': History)
    requires Inert(cmds, r, k, h) && Extends(h, h')
    ensures Inert(cmds, r, k, h')
  {
    forall i | 0 <= i < |cmds| ensures InertCmd(cmds[i], r, k, h') {
      assert InertCmd(cmds[i], r, k, h);
    }
  }

  lemma SegExtend(segs: seq<Split>, i: nat, m: nat, h: History, h': History)
    requires i < |segs| && SegOk(segs, i, m, h) && Extends(h, h')
    ensures SegOk(segs, i, m, h')
  {
    var start := SegStart(segs, i, m);
    FlowExtend(Full(segs[i]), Mark(start, start), segs[i].kind, h, h');
  }

  lemma OrderExtend(g: Gpu, h: History, h': History)
    requires OrderSafe(g, h) && h.ops <= h'.ops
    ensures OrderSafe(g, h')
  {
    forall j, n | 1 <= j < n <= g.last && MustFollow(h', j, n) ensures j in g.done {
      assert MustFollow(h, j, n);
    }
  }

  /** The GPU side does not notice that the client asks for more. */
  lemma GpuExtend(g: Gpu, h: History, h': History)
    requires GpuSafe(g, h) && OrderSafe(g, h) && Extends(h, h')
    requires h'.active == h.active && h'.sub == h.sub
    ensures GpuSafe(g, h') && OrderSafe(g, h')
    ensures EventSafe(g, h) && h'.recorded == h.recorded ==> EventSafe(g, h')
  {
    assert RunningKind(g, h', Compute) && RunningKind(g, h', Dma);
    OrderExtend(g, h, h');
    match h.active
    case Unset =>
      InertExtend(g.compute.fifo, Val(g, TIMELINE), Compute, h, h');
      InertExtend(g.dma.fifo, Val(g, TIMELINE), Dma, h, h');
    case Mode(k) =>
      FlowExtend(Ch(g, k).fifo, Mark(g.last, Val(g, TIMELINE)), k, h, h');
      InertExtend(Ch(g, k.Other()).fifo, Val(g, TIMELINE), k.Other(), h, h');
  }

  // ------------------------------------------------------- settle and submit

  /** Once the timeline has reached the last submitted number, both channels are quiet. */
  lemma Settles(g: Gpu, h: History)
    requires GpuSafe(g, h) && Val(g, TIMELINE) >= h.sub
    ensures Val(g, TIMELINE) == g.last == h.sub
    ensures GpuSafe(g, h.(active := Unset))
    ensures OrderSafe(g, h) ==> OrderSafe(g, h.(active := Unset))
    ensures EventSafe(g, h) ==> EventSafe(g, h.(active := Unset))
    ensures forall n: nat | 1 <= n <= h.sub :: n in g.done
  {
    var h' := h.(active := Unset);
    assert Val(g, TIMELINE) == g.last == h.sub;
    if OrderSafe(g, h) { OrderExtend(g, h, h'); }
    match h.active
    case Unset =>
    case Mode(k) =>
      FlowStalled(Ch(g, k).fifo, Mark(g.last, Val(g, TIMELINE)), k, h);
      forall n | n in Ch(g, k).running ensures false {
        assert Started(g, n);
      }
      assert Ch(g, k).running == {};
      InertExtend(Ch(g, k).fifo, h.sub, k, h, h');
      InertExtend(Ch(g, k.Other()).fifo, h.sub, k.Other(), h, h');
      assert Quiet(g, h', k) && Quiet(g, h', k.Other());
  }

  predicate Free(h: History, k: Kind) {
    h.active.Unset? || h.active == Mode(k)
  }

  lemma FreeUnlessOther(h: History, k: Kind)
    requires h.active != Mode(k.Other())
    ensures Free(h, k)
  {
    if h.active.Mode? { assert h.active.kind == k || h.active.kind == k.Other(); }
  }

  lemma LeadsOrQuietFlow(g: Gpu, h: History, k: Kind)
    requires GpuSafe(g, h) && Free(h, k)
    ensures FlowOk(Ch(g, k).fifo, Mark(g.last, Val(g, TIMELINE)), k, h)
    ensures FlowEnd(Ch(g, k).fifo, Mark(g.last, Val(g, TIMELINE))) == Mark(h.sub, h.sub)
    ensures Quiet(g, h, k.Other())
  {
    if h.active.Unset? {
      assert Quiet(g, h, k) && Quiet(g, h, k.Other());
      InertFlow(Ch(g, k).fifo, Val(g, TIMELINE), Mark(g.last, Val(g, TIMELINE)), k, h);
    }
  }

  lemma SubmitKeeps(s: State, k: Kind, cmds: seq<Command>, upto: nat)
    requires GpuSafe(s.gpu, s.hist) && OrderSafe(s.gpu, s.hist) && EventSafe(s.gpu, s.hist) && Free(s.hist, k)
    requires s.hist.sub <= upto <= |s.hist.ops|
    requires FlowOk(cmds, Mark(s.hist.sub, s.hist.sub), k, s.hist)
    requires FlowEnd(cmds, Mark(s.hist.sub, s.hist.sub)) == Mark(upto, upto)
    ensures var s' := Submitted(s, k, cmds, upto);
            GpuSafe(s'.gpu, s'.hist) && OrderSafe(s'.gpu, s'.hist) && EventSafe(s'.gpu, s'.hist)
  {
    hide Dangle, FlowOk, FlowEnd, Inert;
    var g, h, s' := s.gpu, s.hist, Submitted(s, k, cmds, upto);
    var g', h' := s'.gpu, s'.hist;
    var m := Mark(g.last, Val(g, TIMELINE));
    LeadsOrQuietFlow(g, h, k);
    OrderExtend(g, h, h');
    assert g'.done == g.done && g'.last == g.last;
    FlowAppend(Ch(g, k).fifo, cmds, m, k, h);
    FlowExtend(Ch(g', k).fifo, m, k, h, h');
    InertExtend(Ch(g, k.Other()).fifo, m.rel, k.Other(), h, h');
    assert Leads(g', h', k) && Quiet(g', h', k.Other());
    forall n: nat ensures Started(g', n) <==> Started(g, n) {}
    assert RunningKind(g, h, Compute) && RunningKind(g, h, Dma);
    assert RunningKind(g', h', Compute) && RunningKind(g', h', Dma);
    forall e, n: nat | e in h'.recorded && e != TIMELINE && Val(g', e) >= 1 && 1 <= n <= h'.recorded[e]
      ensures n in g'.done
    {
      assert Val(g', e) == Val(g, e);
    }
  }

  // ------------------------------------------------------------- the switch

  lemma SwitchInto(host: Host, h: History, k: Kind)
    requires HostIdle(host, h) && MayFollow(host, h, k) && Buf(host, k.Other()) == []
    ensures HostIdle(host.(mode := Mode(k)), h)
  {
    hide FlowOk, FlowEnd;
    var host' := host.(mode := Mode(k));
    if host.mode.Mode? {
      var j := host.mode.kind;
      assert HostFlow(host, h, j);
      var tail := Tail(host, h);
      assert Buf(host, k) == [] || j == k;
      EmptyFlow(Mark(tail, tail), k, h);
      EmptyFlow(Mark(tail, tail), j, h);
      forall i | 0 <= i < |host'.backlog| ensures SegOk(host'.backlog, i, h.sub, h) {
        assert SegOk(host.backlog, i, h.sub, h);
      }
    } else {
      EmptyFlow(Mark(h.sub, h.sub), k, h);
    }
    assert HostFlow(host', h, k);
  }

  lemma EmptyFlow(m: Mark, k: Kind, h: History)
    ensures FlowOk([], m, k, h) && FlowEnd([], m) == m
  {
  }

  lemma SwitchOver(host: Host, h: History, o: Kind)
    requires HostIdle(host, h) && host.mode == Mode(o) && Buf(host, o) != []
    ensures HostIdle(Backlogged(host, o).(mode := Mode(o.Other())), h)
  {
    hide FlowOk, FlowEnd;
    var k, tail := o.Other(), Tail(host, h);
    var host' := Backlogged(host, o).(mode := Mode(k));
    assert HostFlow(host, h, o);
    FlowOwed(Buf(host, o), Mark(tail, tail), o, h, host.ctr, host.pending);
    FlowGrows(Buf(host, o), Mark(tail, tail), o, h);
    forall i | 0 <= i < |host'.backlog| ensures SegOk(host'.backlog, i, h.sub, h) {
      if i < |host.backlog| {
        assert SegOk(host.backlog, i, h.sub, h);
      }
    }
    EmptyFlow(Mark(host.ctr, host.ctr), k, h);
    assert HostFlow(host', h, k);
  }

  lemma SwitchKeeps(host: Host, h: History, k: Kind)
    requires HostIdle(host, h) && MayFollow(host, h, k)
    ensures HostIdle(SwitchedHost(host, k), h)
    ensures SwitchedHost(host, k).mode == Mode(k)
  {
    hide HostFlow;
    if Buf(host, k.Other()) == [] {
      SwitchInto(host, h, k);
    } else {
      OtherInUse(host, h, k);
      SwitchOver(host, h, k.Other());
    }
  }

  lemma OtherInUse(host: Host, h: History, k: Kind)
    requires HostIdle(host, h) && Buf(host, k.Other()) != []
    ensures host.mode == Mode(k.Other())
  {
    assert HostFlow(host, h, host.mode.kind);
  }

  // ------------------------------------------------------------- enqueueing

  /** Appending a list that continues from the tip keeps the flow of the host. */
  lemma EnqueueFlow(s: State, k: Kind, cmds: seq<Command>)
    requires HostFlow(s.host, s.hist, k)
    requires FlowOk(cmds, Tip(s.host, s.hist, k), k, s.hist)
    ensures var s' := Enqueue(s, k, cmds);
            HostFlow(s'.host, s'.hist, k)
            && Tip(s'.host, s'.hist, k) == FlowEnd(cmds, Tip(s.host, s.hist, k))
  {
    var s' := Enqueue(s, k, cmds);
    var start := Mark(Tail(s.host, s.hist), Tail(s.host, s.hist));
    FlowAppend(Buf(s.host, k), cmds, start, k, s.hist);
    FlowExtend(Buf(s'.host, k), start, k, s.hist, s'.hist);
    forall i | 0 <= i < |s'.host.backlog| ensures SegOk(s'.host.backlog, i, s'.hist.sub, s'.hist) {
      SegExtend(s.host.backlog, i, s.hist.sub, s.hist, s'.hist);
    }
  }

  /** One command that leaves the tip where it is. */
  lemma EnqueueOne(s: State, k: Kind, c: Command)
    requires HostIdle(s.host, s.hist) && s.host.mode == Mode(k)
    requires CmdOk(c, Tip(s.host, s.hist, k), k, s.hist)
    requires Advance(c, Tip(s.host, s.hist, k)) == Tip(s.host, s.hist, k)
    ensures HostIdle(Enqueue(s, k, [c]).host, Enqueue(s, k, [c]).hist)
  {
    FlowPair(c, c, Tip(s.host, s.hist, k), k, s.hist);
    EnqueueFlow(s, k, [c]);
  }

  /** The host invariant does not read the allocation fields. */
  lemma HostIgnores(a: Host, b: Host, h: History)
    requires HostIdle(a, h)
    requires b.compute == a.compute && b.dma == a.dma && b.backlog == a.backlog
    requires b.mode == a.mode && b.ctr == a.ctr && b.pending == a.pending
    ensures HostIdle(b, h)
  {
    match a.mode
    case Unset =>
    case Mode(k) =>
      forall i | 0 <= i < |b.backlog| ensures SegOk(b.backlog, i, h.sub, h) {
        assert SegOk(a.backlog, i, h.sub, h);
      }
      assert HostFlow(b, h, k);
  }

  /** Only the command buffers, their log and the local-memory size differ. */
  predicate Framed(s: State, s': State) {
    && s'.gpu == s.gpu && s'.phase == s.phase
    && s'.hist.(log := s.hist.log, dangling := s.hist.dangling) == s.hist
    && s'.host.argsIdx == s.host.argsIdx && s'.host.ctr == s.host.ctr
    && s'.host.free == s.host.free && s'.host.page == s.host.page
  }

  lemma PrefixFramed(s: State, r: LaunchReq)
    ensures Framed(s, LaunchPrefix(s, r))
  {
    var s1 := Switched(s, Compute);
    assert Framed(s, s1);
    var s2 := WithLocalMem(s1, r);
    assert Framed(s1, s2);
    assert Framed(s2, Flushed(s2));
  }

  lemma LocalMemKeeps(s: State, r: LaunchReq)
    requires HostIdle(s.host, s.hist) && s.host.mode == Mode(Compute)
    ensures var s' := WithLocalMem(s, r);
            HostIdle(s'.host, s'.hist) && s'.host.mode == Mode(Compute) && Framed(s, s')
  {
    if NeedsLocalMem(s.host, r) {
      var s1 := s.(host := GrownSlm(s.host, r));
      HostIgnores(s.host, s1.host, s1.hist);
      EnqueueOne(s1, Compute, LocalMemCommand(r));
    }
  }

  lemma FlushKeeps(s: State)
    requires HostIdle(s.host, s.hist) && s.host.mode == Mode(Compute)
    ensures var s' := Flushed(s);
            HostIdle(s'.host, s'.hist) && s'.host.mode == Mode(Compute) && Framed(s, s') && !s'.host.pending
  {
    if s.host.pending {
      var c := Release(TIMELINE, s.host.ctr);
      FlowPair(c, c, Tip(s.host, s.hist, Compute), Compute, s.hist);
      EnqueueFlow(s, Compute, [c]);
    }
  }

  lemma WaitKeeps(s: State)
    requires HostIdle(s.host, s.hist) && s.host.mode == Mode(Compute)
    ensures var s' := WaitedGpu(s);
            HostIdle(s'.host, s'.hist) && s'.host.mode == Mode(Compute) && Framed(s, s')
            && s'.host.pending == s.host.pending
  {
    if Val(s.gpu, TIMELINE) != s.host.ctr {
      EnqueueOne(s, Compute, Acquire(TIMELINE, s.host.ctr));
    }
  }

  /** The ordering commands of a launch: afterwards a synchronous launch is fully covered. */
  lemma PrefixKeeps(s: State, r: LaunchReq)
    requires HostIdle(s.host, s.hist) && MayFollow(s.host, s.hist, Compute)
    ensures var s' := LaunchPrefix(s, r);
            && HostIdle(s'.host, s'.hist)
            && s'.host.mode == Mode(Compute)
            && (r.sync ==> !s'.host.pending)
            && Framed(s, s')
  {
    SwitchKeeps(s.host, s.hist, Compute);
    var s1 := Switched(s, Compute);
    assert Framed(s, s1);
    LocalMemKeeps(s1, r);
    var s2 := WithLocalMem(s1, r);
    if r.sync {
      FlushKeeps(s2);
      WaitKeeps(Flushed(s2));
    }
  }

  // -------------------------------------------------------------- acceptance

  /** Appending operation number ctr + 1, and its release when it is synchronous. */
  lemma AcceptKeepsHost(s: State, k: Kind, c: Command, op: Op)
    requires HostIdle(s.host, s.hist) && s.host.mode == Mode(k)
    requires (c.Launch? || c.Copy?) && Fits(c, k) && c.op == s.host.ctr + 1
    requires op.kind == k && (k == Compute && op.sync ==> !s.host.pending)
    ensures HostIdle(Accepted(s, k, c, op).host, Accepted(s, k, c, op).hist)
  {
    hide Dangle, SegOk, Tag, FlowOk, FlowEnd;
    var h1 := s.hist.(ops := s.hist.ops + [op]);
    var s1 := s.(host := s.host.(ctr := s.host.ctr + 1), hist := h1);
    var tip := Tip(s.host, s.hist, k);
    NumberKeepsFlow(s, k, op, s1);
    var rel := Release(TIMELINE, c.op);
    var cmds := if op.sync then [c, rel] else [c];
    assert CmdOk(c, tip, k, h1);
    FlowPair(c, rel, tip, k, h1);
    EnqueueFlow(s1, k, cmds);
  }

  /** Numbering an operation leaves the commands already enqueued well-ordered. */
  lemma NumberKeepsFlow(s: State, k: Kind, op: Op, s1: State)
    requires HostFlow(s.host, s.hist, k)
    requires s1 == s.(host := s.host.(ctr := s.host.ctr + 1), hist := s.hist.(ops := s.hist.ops + [op]))
    ensures HostFlow(s1.host, s1.hist, k) && Tip(s1.host, s1.hist, k) == Tip(s.host, s.hist, k)
    ensures Tip(s.host, s.hist, k).rel <= Tip(s.host, s.hist, k).last
  {
    hide Dangle, SegOk, Tag;
    var start := Mark(Tail(s.host, s.hist), Tail(s.host, s.hist));
    FlowGrows(Buf(s.host, k), start, k, s.hist);
    FlowExtend(Buf(s.host, k), start, k, s.hist, s1.hist);
    forall i | 0 <= i < |s.host.backlog| ensures SegOk(s.host.backlog, i, s1.hist.sub, s1.hist) {
      SegExtend(s.host.backlog, i, s.hist.sub, s.hist, s1.hist);
    }
  }

  /** The parts of the invariant outside the command buffers. */
  lemma AcceptKeepsRest(s: State, s': State, op: Op)
    requires GpuSafe(s.gpu, s.hist) && OrderSafe(s.gpu, s.hist) && EventSafe(s.gpu, s.hist)
    requires SignalsSafe(s.host, s.gpu, s.hist) && ArgsSafe(s.host, s.gpu, s.hist)
    requires s'.gpu == s.gpu && s'.host.free == s.host.free && s'.host.ctr == s.host.ctr + 1
    requires s'.hist.ops == s.hist.ops + [op] && s'.hist.recorded == s.hist.recorded
    requires s'.hist.active == s.hist.active && s'.hist.sub == s.hist.sub && s'.hist.base == s.hist.base
    requires s.host.argsIdx <= s'.host.argsIdx <= KERNARGS_PAGE_SIZE && s'.host.argsIdx % 256 == 0
    requires op.kind == Compute ==> op.lo == s.host.argsIdx && op.lo + op.size <= s'.host.argsIdx
    requires op.kind == Dma ==> op.lo == 0 && op.size == 0
    ensures GpuSafe(s'.gpu, s'.hist) && OrderSafe(s'.gpu, s'.hist) && EventSafe(s'.gpu, s'.hist)
    ensures SignalsSafe(s'.host, s'.gpu, s'.hist) && ArgsSafe(s'.host, s'.gpu, s'.hist)
  {
    GpuExtend(s.gpu, s.hist, s'.hist);
    forall i | s'.hist.base <= i < |s'.hist.ops| ensures BlockIn(s'.hist.ops[i], s'.host.argsIdx) {
      if i < |s.hist.ops| { assert BlockIn(s.hist.ops[i], s.host.argsIdx); }
    }
    forall i, j | s'.hist.base <= i < j < |s'.hist.ops| ensures BlockBefore(s'.hist.ops[i], s'.hist.ops[j]) {
      if j < |s.hist.ops| { assert BlockBefore(s.hist.ops[i], s.hist.ops[j]); }
      else { assert BlockIn(s.hist.ops[i], s.host.argsIdx); }
    }
  }

  lemma BlockSizeAligned(n: nat)
    ensures BlockSize(n) % 256 == 0 && n <= RoundUp(n, 256) && RoundUp(n, 256) % 256 == 0
  {
    var q := CeilDiv(n, 256);
    assert RoundUp(n, 256) == q * 256;
  }

  /** The argument block of an accepted launch. */
  lemma ArgsTaken(h: Host, r: LaunchReq)
    requires h.argsIdx % 256 == 0 && h.argsIdx <= KERNARGS_PAGE_SIZE
    ensures Verdict(h, r) == Success ==>
              && AllocatedArgs(h, r)
              && LaunchOp(h, r) == Op(Compute, r.sync, h.argsIdx, BlockSize(r.kernel.constants[0]))
    ensures AllocatedArgs(h, r) ==>
              && h.argsIdx + BlockSize(r.kernel.constants[0]) <= KERNARGS_PAGE_SIZE
              && (h.argsIdx + BlockSize(r.kernel.constants[0])) % 256 == 0
  {
    if r.kernel.constants != [] { BlockSizeAligned(r.kernel.constants[0]); }
  }

  /** A launch that gets past the ordering commands and is then refused ... */
  lemma RefusedKeeps(s: State, s1: State, r: LaunchReq)
    requires Safe(s) && s.phase.Idle? && HostIdle(s1.host, s1.hist) && Framed(s, s1)
    ensures Safe(WithArgs(s1, r))
  {
    var s2 := WithArgs(s1, r);
    HostIgnores(s1.host, s2.host, s1.hist);
    ArgsTaken(s1.host, r);
    GpuExtend(s.gpu, s.hist, s2.hist);
    ArgsGrow(s, s2);
  }

  /** ... or accepted. */
  lemma AcceptedKeeps(s: State, s1: State, r: LaunchReq, c: Command)
    requires Safe(s) && s.phase.Idle? && HostIdle(s1.host, s1.hist) && Framed(s, s1)
    requires s1.host.mode == Mode(Compute) && (r.sync ==> !s1.host.pending)
    requires Verdict(s.host, r) == Success
    requires c.Launch? && c.op == s.host.ctr + 1
    ensures Safe(Accepted(WithArgs(s1, r), Compute, c, LaunchOp(s.host, r)))
  {
    hide GpuSafe, OrderSafe, EventSafe, SignalsSafe, HostIdle, BlockSize;
    var s2, op := WithArgs(s1, r), LaunchOp(s.host, r);
    HostIgnores(s1.host, s2.host, s1.hist);
    ArgsTaken(s.host, r);
    assert s2.host.argsIdx == s.host.argsIdx + op.size;
    AcceptKeepsHost(s2, Compute, c, op);
    AcceptKeepsRest(s, Accepted(s2, Compute, c, op), op);
  }

  lemma LaunchNoMemoryKeeps(s: State, r: LaunchReq, s': State)
    requires Safe(s) && s.phase.Idle? && MayFollow(s.host, s.hist, Compute)
    requires s' == s.(host := LocalMemRefused(SwitchedHost(s.host, Compute), r))
    ensures Safe(s')
  {
    SwitchKeeps(s.host, s.hist, Compute);
    HostIgnores(SwitchedHost(s.host, Compute), s'.host, s.hist);
  }

  lemma LaunchDecidedKeeps(s: State, r: LaunchReq)
    requires Safe(s) && s.phase.Idle? && MayFollow(s.host, s.hist, Compute)
    ensures Safe(LaunchDecided(s, r))
  {
    hide GpuSafe, OrderSafe, EventSafe, SignalsSafe, ArgsSafe, HostIdle, LaunchPrefix, Accepted;
    PrefixKeeps(s, r);
    if Verdict(s.host, r) == Success {
      AcceptedKeeps(s, LaunchPrefix(s, r), r, Launch(s.host.ctr + 1, QmdAddr(s.host, r)));
    } else {
      RefusedKeeps(s, LaunchPrefix(s, r), r);
    }
  }

  lemma LaunchKeeps(s: State, r: LaunchReq, s': State)
    requires Safe(s) && s.phase.Idle? && MayFollow(s.host, s.hist, Compute) && s' == LaunchNext(s, r)
    ensures Safe(s')
  {
    if r.numParams != |r.kernel.paramSizes| {
      assert s' == s;
    } else if LocalMemFails(s.host, r) {
      LaunchNoMemoryKeeps(s, r, s');
    } else {
      LaunchDecidedKeeps(s, r);
    }
  }

  lemma ArgsGrow(s: State, s': State)
    requires ArgsSafe(s.host, s.gpu, s.hist) && s'.gpu.signals == s.gpu.signals
    requires s'.hist.ops == s.hist.ops && s'.hist.base == s.hist.base
    requires s'.host.argsIdx == s.host.argsIdx
             || (s.host.argsIdx <= s'.host.argsIdx <= KERNARGS_PAGE_SIZE && s'.host.argsIdx % 256 == 0)
    ensures ArgsSafe(s'.host, s'.gpu, s'.hist)
  {
    forall i | s'.hist.base <= i < |s'.hist.ops| ensures BlockIn(s'.hist.ops[i], s'.host.argsIdx) {
      assert BlockIn(s.hist.ops[i], s.host.argsIdx);
    }
  }

  lemma CopyKeeps(s: State, r: CopyReq)
    requires Safe(s) && Enabled(s, CopyStep(r)) && Disciplined(s, CopyStep(r))
    ensures Safe(CopyNext(s, r))
  {
    hide GpuSafe, OrderSafe, EventSafe, SignalsSafe, HostIdle;
    if CopyStatus(r) == Success {
      SwitchKeeps(s.host, s.hist, Dma);
      AcceptKeepsHost(Switched(s, Dma), Dma, Copy(s.host.ctr + 1, r.src, r.dst, r.len), Op(Dma, r.sync, 0, 0));
      AcceptKeepsRest(s, CopyNext(s, r), Op(Dma, r.sync, 0, 0));
    }
  }

  // ------------------------------------------------------------------ events

  lemma RecordKeeps(s: State)
    requires Safe(s) && Enabled(s, RecordStep) && Disciplined(s, RecordStep)
    ensures Safe(RecordNext(s))
  {
    hide GpuSafe, OrderSafe, EventSafe, SignalsSafe, ArgsSafe, HostIdle, HostFlow, Tag;
    if s.host.free != [] {
      var s' := RecordNext(s);
      assert s.host.free[0] in s.host.free && s.host.free[0] !in s.hist.recorded by { FreeUnrecorded(s); }
      RecordKeepsBuffers(s);
      GpuExtend(s.gpu, s.hist, s'.hist);
      RecordKeepsSignals(s);
      ArgsGrow(s, s');
    }
  }

  lemma FreeUnrecorded(s: State)
    requires SignalsSafe(s.host, s.gpu, s.hist) && s.host.free != []
    ensures s.host.free[0] != TIMELINE && s.host.free[0] !in s.hist.recorded
  {
    assert s.host.free[0] in s.host.free;
  }

  lemma RecordKeepsBuffers(s: State)
    requires HostIdle(s.host, s.hist) && SignalsSafe(s.host, s.gpu, s.hist) && s.host.free != []
    requires s.host.mode.Unset? ==> s.hist.active.Unset?
    ensures HostIdle(RecordNext(s).host, RecordNext(s).hist)
  {
    hide HostIdle, HostFlow, Tag, Dangle;
    FreeUnrecorded(s);
    var sig, k, s' := s.host.free[0], RecordKind(s.host), RecordNext(s);
    var h1 := s.hist.(recorded := s.hist.recorded[sig := s.host.ctr]);
    var s1 := s.(host := s.host.(mode := Mode(k)), hist := h1);
    assert Extends(s.hist, h1);
    RecordKeepsHost(s, h1, s1.host, k);
    IdleTip(s1.host, h1, k);
    EnqueueOne(s1, k, Release(sig, 1));
    HostIgnores(Enqueue(s1, k, [Release(sig, 1)]).host, s'.host, s'.hist);
  }

  lemma IdleTip(host: Host, h: History, k: Kind)
    requires HostIdle(host, h) && host.mode == Mode(k)
    ensures Tip(host, h, k).last == host.ctr == |h.ops|
  {
  }

  lemma RecordKeepsHost(s: State, h1: History, host1: Host, k: Kind)
    requires HostIdle(s.host, s.hist) && (s.host.mode.Unset? ==> s.hist.active.Unset?)
    requires k == RecordKind(s.host) && host1 == s.host.(mode := Mode(k))
    requires Extends(s.hist, h1) && h1.(recorded := s.hist.recorded) == s.hist
    ensures HostIdle(host1, h1) && HostFlow(host1, h1, k)
  {
    forall i | 0 <= i < |host1.backlog| ensures SegOk(host1.backlog, i, h1.sub, h1) {
      SegExtend(s.host.backlog, i, s.hist.sub, s.hist, h1);
    }
    if s.host.mode.Mode? {
      FlowExtend(Buf(s.host, k), Mark(Tail(s.host, s.hist), Tail(s.host, s.hist)), k, s.hist, h1);
    }
    assert HostFlow(host1, h1, k);
  }

  lemma RecordKeepsSignals(s: State)
    requires SignalsSafe(s.host, s.gpu, s.hist) && EventSafe(s.gpu, s.hist) && s.host.free != []
    ensures var s' := RecordNext(s);
            SignalsSafe(s'.host, s'.gpu, s'.hist) && EventSafe(s'.gpu, s'.hist)
  {
    var sig, s' := s.host.free[0], RecordNext(s);
    assert sig in s.host.free;
    assert sig !in s'.host.free by {
      forall i | 0 <= i < |s'.host.free| ensures s'.host.free[i] != sig {
        assert s'.host.free[i] == s.host.free[i + 1];
      }
    }
    forall e | e in s'.host.free ensures e in s.host.free {}
  }

  // ---------------------------------------------------------------- commence

  /** With no backlog the buffer in use, closed by its owed release, continues what was submitted. */
  lemma SingleFlow(s: State, k: Kind)
    requires HostIdle(s.host, s.hist) && s.host.backlog == [] && s.host.mode == Mode(k)
    ensures var cmds, m := Buf(s.host, k) + Owed(s.host.ctr, s.host.pending), Mark(s.hist.sub, s.hist.sub);
            && FlowOk(cmds, m, k, s.hist) && FlowEnd(cmds, m) == Mark(s.host.ctr, s.host.ctr)
            && s.hist.sub <= s.host.ctr
            && (cmds == [] ==> s.hist.sub == s.host.ctr)
            && Buf(s.host, k.Other()) == [] && Free(s.hist, k) && s.host.ctr == |s.hist.ops|
  {
    assert HostFlow(s.host, s.hist, k);
    var m := Mark(s.hist.sub, s.hist.sub);
    FlowOwed(Buf(s.host, k), m, k, s.hist, s.host.ctr, s.host.pending);
    FlowGrows(Buf(s.host, k), m, k, s.hist);
  }

  /** An idle host with empty buffers and everything submitted. */
  lemma EmptyHostIdle(host: Host, h: History)
    requires host.compute == [] && host.dma == [] && host.backlog == [] && !host.pending
    requires host.ctr == |h.ops| == h.sub
    requires h.active.Mode? && host.mode.Mode? ==> h.active == host.mode
    ensures HostIdle(host, h)
  {
    match host.mode
    case Unset =>
    case Mode(k) =>
      assert HostFlow(host, h, k);
  }

  lemma UnsetEmpty(host: Host, h: History)
    requires HostIdle(host, h) && host.mode.Unset?
    ensures host.compute == [] && host.dma == [] && host.backlog == [] && !host.pending
    ensures host.ctr == |h.ops| == h.sub
  {
  }

  lemma CommenceSingleKeeps(s: State, s': State)
    requires Safe(s) && Enabled(s, CommenceSingleStep) && s' == CommenceSingleNext(s)
    ensures Safe(s')
  {
    hide GpuSafe, OrderSafe, EventSafe, FlowOk, FlowEnd, HostIdle, Inert;
    var h1 := s.hist.(log := []);
    GpuExtend(s.gpu, s.hist, h1);
    match s.host.mode
    case Unset =>
      UnsetEmpty(s.host, s.hist);
      EmptyHostIdle(s'.host, s'.hist);
    case Mode(k) =>
      SingleFlow(s, k);
      var cmds := Buf(s.host, k) + Owed(s.host.ctr, s.host.pending);
      var s1 := s.(host := Cleared(s.host, k).(pending := false), hist := h1);
      if cmds != [] {
        FlowExtend(cmds, Mark(s.hist.sub, s.hist.sub), k, s.hist, h1);
        SubmitKeeps(s1, k, cmds, s.host.ctr);
      }
      EmptyHostIdle(s'.host, s'.hist);
      ArgsGrow(s, s');
  }

  /** Submitting split i after everything before it has been reached. */
  lemma SubmitSplitKeeps(s: State, i: nat)
    requires GpuSafe(s.gpu, s.hist) && OrderSafe(s.gpu, s.hist) && EventSafe(s.gpu, s.hist)
    requires i < |s.host.backlog| && Free(s.hist, s.host.backlog[i].kind) && SegStart(s.host.backlog, i, s.hist.sub) == s.hist.sub
    requires forall j | i <= j < |s.host.backlog| :: SegOk(s.host.backlog, j, s.hist.sub, s.hist)
    requires s.host.compute == [] && s.host.dma == [] && !s.host.pending && s.host.mode.Mode?
    requires s.host.ctr == |s.hist.ops| == s.host.backlog[|s.host.backlog| - 1].ctr
    ensures var s' := SubmitSplit(s, i);
            && GpuSafe(s'.gpu, s'.hist) && OrderSafe(s'.gpu, s'.hist) && EventSafe(s'.gpu, s'.hist)
            && HostSafe(s')
  {
    var segs, sp, s' := s.host.backlog, s.host.backlog[i], SubmitSplit(s, i);
    assert SegOk(segs, i, s.hist.sub, s.hist);
    SubmitKeeps(s, sp.kind, Full(sp), sp.ctr);
    forall j | i < j < |segs| ensures SegOk(segs, j, 0, s'.hist) {
      SegExtend(segs, j, s.hist.sub, s.hist, s'.hist);
    }
  }

  lemma BacklogOne(host: Host, k: Kind)
    requires Buf(host, k.Other()) == []
    ensures Backlogged(Backlogged(host, Compute), Dma) == Backlogged(host, k)
  {
  }

  /** Both buffers of an idle host moved into the backlog. */
  lemma BacklogAll(host: Host, h: History, k: Kind)
    requires HostIdle(host, h) && host.backlog != [] && host.mode == Mode(k)
    ensures var host' := Backlogged(host, k);
            && host'.compute == [] && host'.dma == [] && !host'.pending && host'.mode == Mode(k)
            && host'.backlog != [] && host.ctr == host'.ctr == host'.backlog[|host'.backlog| - 1].ctr
            && Free(h, host'.backlog[0].kind)
            && forall i | 0 <= i < |host'.backlog| :: SegOk(host'.backlog, i, h.sub, h)
  {
    var host' := Backlogged(host, k);
    var tail := Tail(host, h);
    assert HostFlow(host, h, k);
    FlowGrows(Buf(host, k), Mark(tail, tail), k, h);
    if Buf(host, k) != [] {
      FlowOwed(Buf(host, k), Mark(tail, tail), k, h, host.ctr, host.pending);
    }
    forall i | 0 <= i < |host'.backlog| ensures SegOk(host'.backlog, i, h.sub, h) {
      if i < |host.backlog| {
        assert SegOk(host.backlog, i, h.sub, h);
      }
    }
  }

  lemma CommenceBacklogKeeps(s: State)
    requires Safe(s) && Enabled(s, CommenceBacklogStep)
    ensures Safe(CommenceBacklogNext(s))
  {
    hide GpuSafe, OrderSafe, EventSafe, FlowOk, FlowEnd, Inert, ArgsSafe;
    assert s.host.mode.Mode?;
    var host' := Backlogged(s.host, s.host.mode.kind);
    BacklogOne(s.host, s.host.mode.kind);
    BacklogAll(s.host, s.hist, s.host.mode.kind);
    var s1 := s.(host := host', hist := s.hist.(log := []));
    GpuExtend(s.gpu, s.hist, s1.hist);
    forall i | 0 <= i < |host'.backlog| ensures SegOk(host'.backlog, i, s1.hist.sub, s1.hist) {
      SegExtend(host'.backlog, i, s.hist.sub, s.hist, s1.hist);
    }
    SubmitSplitKeeps(s1, 0);
    ArgsGrow(s, CommenceBacklogNext(s));
  }

  lemma DrainKeeps(s: State)
    requires Safe(s) && Enabled(s, DrainStep)
    ensures Safe(DrainNext(s))
  {
    hide GpuSafe, OrderSafe, EventSafe, FlowOk, Inert, ArgsSafe;
    var i, h1 := s.phase.i + 1, s.hist.(active := Unset);
    var s1 := s.(hist := h1);
    Settles(s.gpu, s.hist);
    forall j | i <= j < |s.host.backlog| ensures SegOk(s.host.backlog, j, h1.sub, h1) {
      SegExtend(s.host.backlog, j, 0, s.hist, h1);
    }
    if i < |s.host.backlog| {
      SubmitSplitKeeps(s1, i);
      assert SubmitSplit(s1, i) == DrainNext(s);
    } else {
      EmptyHostIdle(DrainNext(s).host, h1);
    }
    ArgsGrow(s, DrainNext(s));
  }

  lemma AwaitKeeps(s: State)
    requires Safe(s) && Enabled(s, AwaitStep)
    ensures Safe(AwaitNext(s)) && s.hist.sub == s.host.ctr == Val(s.gpu, TIMELINE)
  {
    hide GpuSafe, OrderSafe, FlowOk, FlowEnd;
    var s' := AwaitNext(s);
    Settles(s.gpu, s.hist);
    GpuExtend(s.gpu, s.hist.(active := Unset), s'.hist);
    match s.host.mode
    case Unset =>
    case Mode(k) =>
      assert HostFlow(s.host, s.hist, k);
      forall i | 0 <= i < |s'.host.backlog| ensures SegOk(s'.host.backlog, i, s'.hist.sub, s'.hist) {
        SegExtend(s.host.backlog, i, s.hist.sub, s.hist, s'.hist);
      }
      FlowExtend(Buf(s.host, k), Mark(Tail(s.host, s.hist), Tail(s.host, s.hist)), k, s.hist, s'.hist);
      assert HostFlow(s'.host, s'.hist, k);
  }

  lemma BindKeeps(s: State, k: Kind, ms: seq<Method>)
    requires Safe(s) && Enabled(s, BindStep(k, ms))
    ensures Safe(BindNext(s, k, ms))
  {
    hide GpuSafe, OrderSafe, EventSafe, FlowOk, FlowEnd, Inert;
    var n := s.host.ctr + 1;
    var s1 := s.(host := s.host.(ctr := n), hist := s.hist.(ops := s.hist.ops + [Op(k, true, 0, 0)]));
    var cmds := [Bind(n, ms), Release(TIMELINE, n)];
    GpuExtend(s.gpu, s.hist, s1.hist);
    FlowPair(cmds[0], cmds[1], Mark(s.hist.sub, s.hist.sub), k, s1.hist);
    SubmitKeeps(s1, k, cmds, n);
    var s' := BindNext(s, k, ms);
    forall i | s'.hist.base <= i < |s'.hist.ops| ensures BlockIn(s'.hist.ops[i], s'.host.argsIdx) {
      if i < |s.hist.ops| { assert BlockIn(s.hist.ops[i], s.host.argsIdx); }
    }
  }

  // -------------------------------------------------------- what steps leave alone

  /** What any step leaves alone or only extends. */
  ghost predicate Forward(s: State, s': State) {
    && s.hist.ops <= s'.hist.ops
    && (forall e | e in s.hist.recorded && e !in s.host.free ::
          e in s'.hist.recorded && s'.hist.recorded[e] == s.hist.recorded[e])
    && s'.host.page == s.host.page
  }

  /** A client call touches neither the GPU nor what has been submitted. */
  predicate HostOnly(s: State, s': State) {
    && s'.gpu == s.gpu && s'.phase == s.phase
    && s'.hist.(log := s.hist.log, dangling := s.hist.dangling, ops := s.hist.ops) == s.hist
    && s.hist.ops <= s'.hist.ops
    && s'.host.free == s.host.free && s'.host.page == s.host.page
    && s'.host.argsIdx >= s.host.argsIdx
  }

  lemma AcceptedFrame(s: State, k: Kind, c: Command, op: Op)
    requires c.IsWork()
    ensures HostOnly(s, Accepted(s, k, c, op))
  {
  }

  lemma DecidedFrame(s: State, s1: State, r: LaunchReq, s': State)
    requires Framed(s, s1)
    requires Verdict(s.host, r) != Success ==> s' == WithArgs(s1, r)
    requires Verdict(s.host, r) == Success ==> HostOnly(WithArgs(s1, r), s')
    ensures HostOnly(s, s')
  {
  }

  lemma LaunchFrame(s: State, r: LaunchReq, s': State)
    requires s' == LaunchNext(s, r)
    ensures HostOnly(s, s')
  {
    if r.numParams == |r.kernel.paramSizes| && !LocalMemFails(s.host, r) {
      var s1 := LaunchPrefix(s, r);
      PrefixFramed(s, r);
      if Verdict(s.host, r) == Success {
        AcceptedFrame(WithArgs(s1, r), Compute, Launch(s.host.ctr + 1, QmdAddr(s.host, r)), LaunchOp(s.host, r));
      }
      DecidedFrame(s, s1, r, s');
    }
  }

  lemma CopyFrame(s: State, r: CopyReq, s': State)
    requires s' == CopyNext(s, r)
    ensures HostOnly(s, s')
  {
    if CopyStatus(r) == Success {
      AcceptedFrame(Switched(s, Dma), Dma, Copy(s.host.ctr + 1, r.src, r.dst, r.len), Op(Dma, r.sync, 0, 0));
    }
  }

  lemma RecordFrame(s: State)
    ensures Forward(s, RecordNext(s)) && RecordNext(s).gpu == s.gpu
    ensures RecordNext(s).host.argsIdx == s.host.argsIdx
  {
    if s.host.free != [] { assert s.host.free[0] in s.host.free; }
  }

  lemma StepForward(s: State, st: Step, s': State)
    requires Enabled(s, st) && s' == Next(s, st)
    ensures Forward(s, s')
    ensures !st.AwaitStep? ==> s'.host.argsIdx >= s.host.argsIdx
    ensures !st.GpuStep? ==> s'.gpu.signals == s.gpu.signals && s'.gpu.done == s.gpu.done
  {
    hide HostOnly, Dangle;
    match st
    case LaunchStep(r) => LaunchFrame(s, r, s');
    case CopyStep(r) => CopyFrame(s, r, s');
    case RecordStep => RecordFrame(s);
    case _ =>
  }

  lemma StepKeeps(s: State, st: Step)
    requires Safe(s) && Enabled(s, st) && Disciplined(s, st)
    ensures Safe(Next(s, st))
  {
    hide HostSafe, GpuSafe, OrderSafe, EventSafe, SignalsSafe, ArgsSafe;
    match st
    case LaunchStep(r) => LaunchKeeps(s, r, Next(s, st));
    case CopyStep(r) => CopyKeeps(s, r);
    case RecordStep => RecordKeeps(s);
    case CommenceSingleStep => CommenceSingleKeeps(s, Next(s, st));
    case CommenceBacklogStep => CommenceBacklogKeeps(s);
    case DrainStep => DrainKeeps(s);
    case AwaitStep => AwaitKeeps(s);
    case BindStep(k, ms) => BindKeeps(s, k, ms);
    case GpuStep(a) => GpuStepKeeps(s, a);
  }
}
