/** Nothing is lost, duplicated or reordered between the client's calls and the channels. */
module StreamLog {
  import opened Results
  import opened Commands
  import opened Stream
  import opened StreamFlow
  import opened StreamSafety
  import opened StreamSteps
  import opened StreamRuns

  // ----------------------------------------------------- one list of commands

  function SegTags(segs: seq<Split>): seq<Tagged> {
    if segs == [] then []
    else SegTags(segs[..|segs| - 1]) + Tag(segs[|segs| - 1].kind, segs[|segs| - 1].buf)
  }

  /** The splits as they are submitted: each with its owed release behind it. */
  function FullTags(segs: seq<Split>): seq<Tagged> {
    if segs == [] then []
    else FullTags(segs[..|segs| - 1]) + Tag(segs[|segs| - 1].kind, Full(segs[|segs| - 1]))
  }

  /** The backlog followed by the one non-empty buffer. */
  function Queued(host: Host): seq<Tagged> {
    SegTags(host.backlog) + Tag(Compute, host.compute) + Tag(Dma, host.dma)
  }

  ghost predicate LogOk(s: State) {
    s.hist.log == if s.phase.Idle? then Queued(s.host) else []
  }

  lemma QueuedBacklogged(host: Host, k: Kind)
    requires Buf(host, k.Other()) == []
    ensures Queued(Backlogged(host, k)) == Queued(host)
    ensures Backlogged(host, k).compute == [] || Buf(host, k) == []
  {
    if Buf(host, k) != [] {
      var b := Backlogged(host, k).backlog;
      assert b[..|b| - 1] == host.backlog;
    }
  }

  lemma SwitchKeepsQueued(host: Host, h: History, k: Kind)
    requires HostIdle(host, h) && MayFollow(host, h, k)
    ensures Queued(SwitchedHost(host, k)) == Queued(host)
    ensures Buf(SwitchedHost(host, k), k.Other()) == []
  {
    hide FlowOk, FlowEnd, SegOk;
    var o := k.Other();
    if host.mode.Mode? {
      assert HostFlow(host, h, host.mode.kind);
      assert k.Other().Other() == k;
      if Buf(host, o) != [] {
        assert host.mode == Mode(o) && Buf(host, k) == [];
        QueuedBacklogged(host, o);
      }
    }
  }

  lemma EnqueueQueued(s: State, k: Kind, cmds: seq<Command>)
    requires Buf(s.host, k.Other()) == [] && s.hist.log == Queued(s.host)
    ensures Enqueue(s, k, cmds).hist.log == Queued(Enqueue(s, k, cmds).host)
    ensures Buf(Enqueue(s, k, cmds).host, k.Other()) == []
  {
    hide SegTags, Dangle;
    TagAppend(k, Buf(s.host, k), cmds);
  }

  lemma PrefixLog(s: State, q: LaunchReq)
    requires Safe(s) && s.phase.Idle? && MayFollow(s.host, s.hist, Compute) && LogOk(s)
    ensures var s' := LaunchPrefix(s, q);
            s'.hist.log == Queued(s'.host) && s'.host.dma == []
  {
    SwitchKeepsQueued(s.host, s.hist, Compute);
    var s1 := Switched(s, Compute);
    assert Buf(s1.host, Compute.Other()) == s1.host.dma;
    LocalMemLog(s1, q);
    OrderedLog(WithLocalMem(s1, q), q.sync);
  }

  lemma LocalMemLog(s: State, q: LaunchReq)
    requires s.host.dma == [] && s.hist.log == Queued(s.host)
    ensures var s' := WithLocalMem(s, q); s'.host.dma == [] && s'.hist.log == Queued(s'.host)
  {
    if NeedsLocalMem(s.host, q) {
      EnqueueQueued(s.(host := GrownSlm(s.host, q)), Compute, [LocalMemCommand(q)]);
    }
  }

  lemma OrderedLog(s: State, sync: bool)
    requires s.host.dma == [] && s.hist.log == Queued(s.host)
    ensures var s' := Ordered(s, sync); s'.host.dma == [] && s'.hist.log == Queued(s'.host)
  {
    if sync {
      if s.host.pending { EnqueueQueued(s, Compute, [Release(TIMELINE, s.host.ctr)]); }
      var s1 := Flushed(s);
      EnqueueQueued(s1, Compute, [Acquire(TIMELINE, s1.host.ctr)]);
    }
  }

  lemma AcceptedLog(s: State, k: Kind, c: Command, op: Op)
    requires Buf(s.host, k.Other()) == [] && s.hist.log == Queued(s.host) && c.IsWork()
    ensures Accepted(s, k, c, op).hist.log == Queued(Accepted(s, k, c, op).host)
  {
    var n := s.host.ctr + 1;
    var s1 := s.(host := s.host.(ctr := n), hist := s.hist.(ops := s.hist.ops + [op]));
    var cmds := if op.sync then [c, Release(TIMELINE, n)] else [c];
    hide Queued, Tag, Dangle;
    QueuedIgnores(s.host, s1.host);
    EnqueueQueued(s1, k, cmds);
    QueuedIgnores(Enqueue(s1, k, cmds).host, Accepted(s, k, c, op).host);
  }

  lemma LaunchLog(s: State, q: LaunchReq, s': State)
    requires Safe(s) && s.phase.Idle? && MayFollow(s.host, s.hist, Compute) && LogOk(s) && s' == LaunchNext(s, q)
    ensures LogOk(s')
  {
    hide GpuSafe, OrderSafe, EventSafe, SignalsSafe, ArgsSafe, HostIdle, Queued, Accepted, LaunchPrefix;
    if q.numParams == |q.kernel.paramSizes| {
      if LocalMemFails(s.host, q) {
        SwitchKeepsQueued(s.host, s.hist, Compute);
        QueuedIgnores(SwitchedHost(s.host, Compute), s'.host);
      } else {
        PrefixLog(s, q);
        PrefixFramed(s, q);
        var s1 := LaunchPrefix(s, q);
        var s2 := WithArgs(s1, q);
        QueuedIgnores(s1.host, s2.host);
        if Verdict(s.host, q) == Success {
          AcceptedFrame(s2, Compute, Launch(s.host.ctr + 1, QmdAddr(s.host, q)), LaunchOp(s.host, q));
          AcceptedLog(s2, Compute, Launch(s.host.ctr + 1, QmdAddr(s.host, q)), LaunchOp(s.host, q));
        }
      }
    }
  }

  lemma QueuedIgnores(a: Host, b: Host)
    requires b.compute == a.compute && b.dma == a.dma && b.backlog == a.backlog
    ensures Queued(b) == Queued(a)
  {
  }

  lemma CopyLog(s: State, q: CopyReq, s': State)
    requires Safe(s) && s.phase.Idle? && MayFollow(s.host, s.hist, Dma) && LogOk(s) && s' == CopyNext(s, q)
    ensures LogOk(s')
  {
    hide GpuSafe, OrderSafe, EventSafe, SignalsSafe, ArgsSafe, Queued, Accepted, HostIdle;
    if CopyStatus(q) == Success {
      SwitchKeepsQueued(s.host, s.hist, Dma);
      AcceptedFrame(Switched(s, Dma), Dma, Copy(s.host.ctr + 1, q.src, q.dst, q.len), Op(Dma, q.sync, 0, 0));
      AcceptedLog(Switched(s, Dma), Dma, Copy(s.host.ctr + 1, q.src, q.dst, q.len), Op(Dma, q.sync, 0, 0));
    }
  }

  lemma RecordLog(s: State)
    requires Safe(s) && s.phase.Idle? && LogOk(s)
    ensures LogOk(RecordNext(s))
  {
    if s.host.free != [] {
      var k := RecordKind(s.host);
      assert s.host.mode.Mode? ==> HostFlow(s.host, s.hist, k);
      EnqueueQueued(s, k, [Release(s.host.free[0], 1)]);
    }
  }

  /** The log is exactly what is queued, in every state outside a commence. */
  lemma StepLog(s: State, st: Step, s': State)
    requires Safe(s) && LogOk(s) && Legal(s, st, s')
    ensures LogOk(s')
  {
    hide GpuSafe, OrderSafe, EventSafe, SignalsSafe, ArgsSafe, LaunchNext, CopyNext;
    match st
    case LaunchStep(q) =>
      LaunchLog(s, q, s');
    case CopyStep(q) =>
      CopyLog(s, q, s');
    case RecordStep => RecordLog(s);
    case CommenceSingleStep => SingleLog(s, s');
    case CommenceBacklogStep => assert s'.phase.Draining?;
    case DrainStep => DrainLog(s, s');
    case AwaitStep =>
    case BindStep(_, _) => UnsetEmpty(s.host, s.hist);
    case GpuStep(_) =>
  }

  lemma SingleLog(s: State, s': State)
    requires Safe(s) && s.phase.Idle? && s.host.backlog == [] && s' == CommenceSingleNext(s)
    ensures s'.hist.log == [] == Queued(s'.host) && s'.phase.Idle?
  {
    if s.host.mode.Mode? { assert HostFlow(s.host, s.hist, s.host.mode.kind); }
  }

  lemma DrainLog(s: State, s': State)
    requires Safe(s) && s.phase.Draining? && s' == DrainNext(s)
    ensures s'.phase.Idle? ==> Queued(s'.host) == []
    ensures s'.hist.log == s.hist.log
  {
  }

  // ------------------------------------------------------------- what commence hands over

  /** What will have been submitted when the commence that is under way is over. */
  function Pledge(s: State): seq<Tagged> {
    match s.phase
    case Idle => s.hist.submitted
    case Draining(i) =>
      if i < |s.host.backlog| then s.hist.submitted + FullTags(s.host.backlog[i + 1..]) else s.hist.submitted
  }

  lemma {:induction false} FullTagsFront(segs: seq<Split>)
    requires segs != []
    ensures FullTags(segs) == Tag(segs[0].kind, Full(segs[0])) + FullTags(segs[1..])
  {
    var n := |segs| - 1;
    if n > 0 {
      FullTagsFront(segs[..n]);
      assert segs[..n][1..] == segs[1..][..n - 1];
    } else {
      assert segs[..n] == [] && segs[1..] == [];
    }
  }

  /** While the CPU drains the splits the pledge does not move; when it is done, the pledge is
      exactly what has been submitted. */
  lemma DrainKeepsPledge(s: State, st: Step)
    requires Enabled(s, st) && s.phase.Draining?
    ensures Pledge(Next(s, st)) == Pledge(s)
  {
    hide LaunchNext, CopyNext, RecordNext, CommenceSingleNext, CommenceBacklogNext, BindNext, GpuNext, Full, Tag, FullTags;
    var segs := s.host.backlog;
    if st.DrainStep? {
      var i := s.phase.i + 1;
      if i < |segs| {
        FullTagsFront(segs[i..]);
        assert segs[i..][1..] == segs[i + 1..];
      } else {
        assert segs[i..] == [];
        FullTagsEmpty();
      }
    }
  }

  /** A commence submits exactly the commands enqueued since the last one, in order; per split
      with its pending flag set there is one release more, at the split's end. `Splits` is the
      list of splits; forgetting the owed releases gives back the log. */
  function Splits(s: State): seq<Split> {
    var h := Backlogged(Backlogged(s.host, Compute), Dma);
    h.backlog
  }

  lemma SplitsTags(s: State)
    requires Safe(s) && s.phase.Idle?
    ensures SegTags(Splits(s)) == Queued(s.host)
  {
    match s.host.mode
    case Unset => UnsetEmpty(s.host, s.hist);
    case Mode(k) =>
      assert HostFlow(s.host, s.hist, k);
      BacklogOne(s.host, k);
      QueuedBacklogged(s.host, k);
      var host' := Backlogged(s.host, k);
      assert host'.compute == [] && host'.dma == [];
      assert Queued(host') == SegTags(host'.backlog);
  }

  lemma FullTagsOne(sp: Split)
    ensures FullTags([sp]) == Tag(sp.kind, Full(sp))
  {
    assert [sp][..0] == [];
    assert [] + Tag(sp.kind, Full(sp)) == Tag(sp.kind, Full(sp));
  }

  /** With an empty backlog there is at most one split, made of the buffer in use. */
  lemma SingleSplit(host: Host, h: History, k: Kind)
    requires HostIdle(host, h) && host.backlog == [] && host.mode == Mode(k)
    ensures var segs := Backlogged(Backlogged(host, Compute), Dma).backlog;
            FullTags(segs) == Tag(k, Buf(host, k) + Owed(host.ctr, host.pending))
    ensures Buf(host, k) == [] ==> !host.pending
  {
    hide FullTags, Tag, SegOk;
    assert HostFlow(host, h, k);
    BacklogOne(host, k);
    if Buf(host, k) != [] {
      var sp := Split(Buf(host, k), k, host.ctr, host.pending);
      assert Backlogged(host, k).backlog == [sp];
      FullTagsOne(sp);
    } else {
      FullTagsEmpty();
    }
  }

  lemma SingleSubmits(s: State, s': State)
    requires HostIdle(s.host, s.hist) && s.phase.Idle? && s.host.backlog == [] && s' == CommenceSingleNext(s)
    ensures s'.hist.submitted == s.hist.submitted + FullTags(Splits(s)) && s'.phase.Idle? && s'.hist.log == []
  {
    hide HostIdle, FullTags;
    match s.host.mode
    case Unset =>
      UnsetEmpty(s.host, s.hist);
      assert Splits(s) == [] && FullTags([]) == [] by { FullTagsEmpty(); }
    case Mode(k) =>
      SingleSplit(s.host, s.hist, k);
  }

  lemma FullTagsEmpty()
    ensures FullTags([]) == []
  {
  }

  lemma BacklogSubmits(s: State, s': State)
    requires s.host.backlog != [] && s' == CommenceBacklogNext(s)
    ensures Pledge(s') == s.hist.submitted + FullTags(Splits(s)) && s'.hist.log == []
  {
    hide FullTags, Full, Tag;
    var segs := Splits(s);
    assert segs != [];
    FullTagsFront(segs);
    assert Pledge(s') == s.hist.submitted + Tag(segs[0].kind, Full(segs[0])) + FullTags(segs[1..]);
  }

  lemma CommenceSubmitsLog(s: State, st: Step, s': State)
    requires Safe(s) && LogOk(s) && Legal(s, st, s') && (st.CommenceSingleStep? || st.CommenceBacklogStep?)
    ensures SegTags(Splits(s)) == s.hist.log
    ensures Pledge(s') == s.hist.submitted + FullTags(Splits(s))
    ensures s'.hist.log == []
  {
    hide GpuSafe, OrderSafe, EventSafe, SignalsSafe, ArgsSafe, HostIdle, CommenceSingleNext, CommenceBacklogNext;
    SplitsTags(s);
    if st.CommenceBacklogStep? {
      BacklogSubmits(s, s');
    } else {
      SingleSubmits(s, s');
    }
  }

  // ---------------------------------------------------------------- the channels

  /** What a channel has executed and still holds is what was submitted to it. */
  predicate ConservedOn(g: Gpu, submitted: seq<Tagged>, k: Kind) {
    Ch(g, k).fetched + Ch(g, k).fifo == Project(submitted, k)
  }

  predicate Conserved(s: State) {
    ConservedOn(s.gpu, s.hist.submitted, Compute) && ConservedOn(s.gpu, s.hist.submitted, Dma)
  }

  lemma SubmittedConservedOn(s: State, k: Kind, cmds: seq<Command>, upto: nat, j: Kind)
    requires ConservedOn(s.gpu, s.hist.submitted, j)
    ensures ConservedOn(Submitted(s, k, cmds, upto).gpu, Submitted(s, k, cmds, upto).hist.submitted, j)
  {
    hide Project, Tag;
    ProjectAppend(s.hist.submitted, Tag(k, cmds), j);
    ProjectTag(k, cmds, j);
    var ch := Ch(s.gpu, j);
    assert ch.fetched + (ch.fifo + cmds) == ch.fetched + ch.fifo + cmds;
    assert Project(s.hist.submitted, j) + [] == Project(s.hist.submitted, j);
  }

  lemma SubmittedConserved(s: State, k: Kind, cmds: seq<Command>, upto: nat)
    requires Conserved(s)
    ensures Conserved(Submitted(s, k, cmds, upto))
  {
    SubmittedConservedOn(s, k, cmds, upto, Compute);
    SubmittedConservedOn(s, k, cmds, upto, Dma);
  }

  lemma FetchConserved(s: State, k: Kind)
    requires Conserved(s) && Ch(s.gpu, k).fifo != []
    ensures Conserved(s.(gpu := Fetched(s.gpu, k)))
  {
    var ch := Ch(s.gpu, k);
    assert ch.fetched + [ch.fifo[0]] + ch.fifo[1..] == ch.fetched + ch.fifo;
  }

  lemma SameConserved(s: State, s': State)
    requires Conserved(s) && s'.gpu == s.gpu && s'.hist.submitted == s.hist.submitted
    ensures Conserved(s')
  {
  }

  lemma StepConserved(s: State, st: Step, s': State)
    requires Conserved(s) && Enabled(s, st) && s' == Next(s, st)
    ensures Conserved(s')
  {
    match st
    case LaunchStep(q) => LaunchFrame(s, q, s'); SameConserved(s, s');
    case CopyStep(q) => CopyFrame(s, q, s'); SameConserved(s, s');
    case RecordStep => SameConserved(s, s');
    case CommenceSingleStep =>
      if s.host.mode.Mode? {
        var k := s.host.mode.kind;
        var s1 := s.(host := Cleared(s.host, k).(pending := false), hist := s.hist.(log := []));
        SameConserved(s, s1);
        SubmittedConserved(s1, k, Buf(s.host, k) + Owed(s.host.ctr, s.host.pending), s.host.ctr);
      } else { SameConserved(s, s'); }
    case CommenceBacklogStep => BacklogConserved(s, s');
    case DrainStep =>
      var i := s.phase.i + 1;
      if i < |s.host.backlog| {
        var sp := s.host.backlog[i];
        SubmittedConserved(s, sp.kind, Full(sp), sp.ctr);
        SameConserved(Submitted(s, sp.kind, Full(sp), sp.ctr), s');
      } else { SameConserved(s, s'); }
    case AwaitStep => SameConserved(s, s');
    case BindStep(k, ms) => BindConserved(s, k, ms);
    case GpuStep(a) =>
      if a.Fetch? { FetchConserved(s, a.kind); }
      else { FinishConserved(s, a); }
  }

  lemma FinishConserved(s: State, a: GpuAction)
    requires Conserved(s) && GpuEnabled(s.gpu, a) && a.Finish?
    ensures Conserved(s.(gpu := GpuNext(s.gpu, a)))
  {
    var g' := GpuNext(s.gpu, a);
    assert g'.compute.fifo == s.gpu.compute.fifo && g'.dma.fifo == s.gpu.dma.fifo;
  }

  lemma BacklogConserved(s: State, s': State)
    requires Conserved(s) && s.host.backlog != [] && s' == CommenceBacklogNext(s)
    ensures Conserved(s')
  {
    var h := Backlogged(Backlogged(s.host, Compute), Dma);
    var s1 := s.(host := h, hist := s.hist.(log := []));
    var sp := h.backlog[0];
    SameConserved(s, s1);
    SubmittedConserved(s1, sp.kind, Full(sp), sp.ctr);
    SameConserved(Submitted(s1, sp.kind, Full(sp), sp.ctr), s');
  }

  lemma BindConserved(s: State, k: Kind, ms: seq<Method>)
    requires Conserved(s)
    ensures Conserved(BindNext(s, k, ms))
  {
    var n := s.host.ctr + 1;
    var s1 := s.(host := s.host.(ctr := n), hist := s.hist.(ops := s.hist.ops + [Op(k, true, 0, 0)]));
    SameConserved(s, s1);
    SubmittedConserved(s1, k, [Bind(n, ms), Release(TIMELINE, n)], n);
  }

  // ------------------------------------------------------------------- over runs

  /** In every reachable state: outside a commence the log is the backlog followed by the one
      buffer in use, the other buffer is empty, and each channel has executed or still holds
      exactly what was submitted to it, in order. */
  lemma {:induction false} OneList(r: Run, i: nat)
    requires IsRun(r) && i < |r.states|
    ensures LogOk(r.states[i]) && Conserved(r.states[i])
    ensures r.states[i].host.compute == [] || r.states[i].host.dma == []
  {
    hide Next, GpuSafe, OrderSafe, EventSafe, SignalsSafe, ArgsSafe;
    RunSafe(r, i);
    BuffersExclusive(r.states[i]);
    if i == 0 {
      assert Project([], Compute) == [] && Project([], Dma) == [];
      InitialLog(r.states[0]);
    } else {
      OneList(r, i - 1);
      RunSafe(r, i - 1);
      assert Legal(r.states[i - 1], r.steps[i - 1], r.states[i]);
      StepLog(r.states[i - 1], r.steps[i - 1], r.states[i]);
      StepConserved(r.states[i - 1], r.steps[i - 1], r.states[i]);
    }
  }

  lemma InitialLog(s: State)
    requires Initial(s)
    ensures LogOk(s) && Conserved(s)
  {
  }

  lemma BuffersExclusive(s: State)
    requires Safe(s)
    ensures s.host.compute == [] || s.host.dma == []
  {
    if s.phase.Idle? && s.host.mode.Mode? {
      assert HostFlow(s.host, s.hist, s.host.mode.kind);
    }
  }
}
