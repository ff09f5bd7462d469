/** From calls to work: over every run, the work handed to the channels and still queued is, in order,
    what the accepted calls asked for, with their own operands; and the words that are submitted make
    the hardware do exactly that. */
module StreamWork {
  import opened Results
  import opened Bits
  import opened Commands
  import opened Stream
  import opened StreamFlow
  import opened StreamSafety
  import opened StreamSteps
  import opened StreamRuns
  import opened StreamLog
  import opened PushBuffer
  import opened Hardware
  import opened CommandWords
  import opened StreamWords
  import opened StreamOperands
  import LaunchBlock

  // ------------------------------------------------------------- what is asked for

  /** The work one call asks for under the next number: the start of the QMD behind bank 0 of the
      launch's block, the transfer from source to destination, or an engine's set-up. */
  function Request(s: State, st: Step): seq<Tagged> {
    var n := s.host.ctr + 1;
    match st
    case LaunchStep(r) =>
      if LaunchStatus(s, r) == Success && r.kernel.constants != [] then [Tagged(Compute, Launch(n, QmdAt(s.host, r)))] else []
    case CopyStep(q) =>
      if q.dst == 0 || q.src == 0 || q.len >= 0xffff_ffff then [] else [Tagged(Dma, Copy(n, q.src, q.dst, q.len))]
    case BindStep(k, methods) => [Tagged(k, Bind(n, methods))]
    case _ => []
  }

  /** All that the calls of a run have asked for before state i. */
  ghost function Requested(r: Run, i: nat): seq<Tagged>
    requires |r.states| == |r.steps| + 1 && i < |r.states|
  {
    if i == 0 then [] else Requested(r, i - 1) + Request(r.states[i - 1], r.steps[i - 1])
  }

  /** The work items of a list. */
  function Works(ts: seq<Tagged>): seq<Tagged> {
    if ts == [] then []
    else (if ts[0].cmd.IsWork() then [ts[0]] else []) + Works(ts[1..])
  }

  lemma {:induction false} WorksAppend(a: seq<Tagged>, b: seq<Tagged>)
    ensures Works(a + b) == Works(a) + Works(b)
  {
    if a == [] {
      assert a + b == b;
    } else {
      assert (a + b)[0] == a[0] && (a + b)[1..] == a[1..] + b;
      WorksAppend(a[1..], b);
    }
  }

  lemma {:induction false} WorksIn(ts: seq<Tagged>, t: Tagged)
    ensures t in Works(ts) <==> t in ts && t.cmd.IsWork()
  {
    if ts == [] {
    } else {
      WorksIn(ts[1..], t);
    }
  }

  /** Lists without work. */
  lemma {:induction false} NoWork(ts: seq<Tagged>)
    requires forall i | 0 <= i < |ts| :: !ts[i].cmd.IsWork()
    ensures Works(ts) == []
  {
    if ts == [] {
    } else {
      NoWork(ts[1..]);
    }
  }

  lemma OneWork(k: Kind, c: Command, tail: seq<Command>)
    requires c.IsWork() && forall i | 0 <= i < |tail| :: !tail[i].IsWork()
    ensures Works(Tag(k, [c] + tail)) == [Tagged(k, c)]
  {
    var ts := Tag(k, [c] + tail);
    assert ts[0] == Tagged(k, c);
    NoWork(ts[1..]);
  }

  // --------------------------------------------------------------------- the ledger

  /** Handed over, or about to be in the commence that is under way; and enqueued since. */
  function Ledger(s: State): seq<Tagged> {
    Pledge(s) + s.hist.log
  }

  lemma EnqueueWorks(s: State, k: Kind, cmds: seq<Command>)
    ensures Works(Enqueue(s, k, cmds).hist.log) == Works(s.hist.log) + Works(Tag(k, cmds))
  {
    WorksAppend(s.hist.log, Tag(k, cmds));
  }

  lemma EnqueuePlain(s: State, k: Kind, c: Command)
    requires !c.IsWork()
    ensures Works(Enqueue(s, k, [c]).hist.log) == Works(s.hist.log)
  {
    hide Enqueue;
    EnqueueWorks(s, k, [c]);
    NoWork(Tag(k, [c]));
  }

  lemma PrefixWorks(s: State, r: LaunchReq)
    ensures Works(LaunchPrefix(s, r).hist.log) == Works(s.hist.log)
  {
    hide Enqueue;
    var s1 := Switched(s, Compute);
    EnqueuePlain(s1.(host := GrownSlm(s1.host, r)), Compute, LocalMemCommand(r));
    var s2 := WithLocalMem(s1, r);
    EnqueuePlain(s2, Compute, Release(TIMELINE, s2.host.ctr));
    var s3 := Flushed(s2);
    EnqueuePlain(s3, Compute, Acquire(TIMELINE, s3.host.ctr));
  }

  lemma AcceptedLogIs(s: State, k: Kind, c: Command, op: Op, tail: seq<Command>)
    requires c.IsWork() && tail == if op.sync then [Release(TIMELINE, s.host.ctr + 1)] else []
    ensures Accepted(s, k, c, op).hist.log == s.hist.log + Tag(k, [c] + tail)
  {
    hide Tag, Dangle;
    assert [c] + tail == if op.sync then [c, Release(TIMELINE, s.host.ctr + 1)] else [c];
  }

  lemma AcceptedWorks(s: State, k: Kind, c: Command, op: Op)
    requires c.IsWork()
    ensures Works(Accepted(s, k, c, op).hist.log) == Works(s.hist.log) + [Tagged(k, c)]
  {
    hide Accepted, Works, Tag;
    var tail := if op.sync then [Release(TIMELINE, s.host.ctr + 1)] else [];
    AcceptedLogIs(s, k, c, op, tail);
    WorksAppend(s.hist.log, Tag(k, [c] + tail));
    OneWork(k, c, tail);
  }

  lemma LaunchWorks(s: State, r: LaunchReq, s': State)
    requires s' == LaunchNext(s, r)
    ensures Works(s'.hist.log) == Works(s.hist.log) + Request(s, LaunchStep(r))
  {
    hide LaunchPrefix, Accepted, Works, Verdict;
    if r.numParams == |r.kernel.paramSizes| && !LocalMemFails(s.host, r) {
      PrefixWorks(s, r);
      if Verdict(s.host, r) == Success {
        VerdictTakes(s.host, r);
        AcceptedWorks(WithArgs(LaunchPrefix(s, r), r), Compute, Launch(s.host.ctr + 1, QmdAt(s.host, r)), LaunchOp(s.host, r));
      }
    }
  }

  lemma CopyWorks(s: State, q: CopyReq, s': State)
    requires s' == CopyNext(s, q)
    ensures Works(s'.hist.log) == Works(s.hist.log) + Request(s, CopyStep(q))
  {
    hide Accepted, Works;
    if CopyStatus(q) == Success {
      AcceptedWorks(Switched(s, Dma), Dma, Copy(s.host.ctr + 1, q.src, q.dst, q.len), Op(Dma, q.sync, 0, 0));
    }
  }

  lemma OwedIsNoWork(sp: Split)
    ensures Works(Tag(sp.kind, Full(sp))) == Works(Tag(sp.kind, sp.buf))
  {
    hide Works, Tag;
    TagAppend(sp.kind, sp.buf, Owed(sp.ctr, sp.owes));
    WorksAppend(Tag(sp.kind, sp.buf), Tag(sp.kind, Owed(sp.ctr, sp.owes)));
    NoWork(Tag(sp.kind, Owed(sp.ctr, sp.owes)));
  }

  lemma {:induction false} ReleasesAreNoWork(segs: seq<Split>)
    ensures Works(FullTags(segs)) == Works(SegTags(segs))
  {
    hide Tag, Works, Full;
    if segs == [] {
    } else {
      var n := |segs| - 1;
      var sp := segs[n];
      ReleasesAreNoWork(segs[..n]);
      WorksAppend(FullTags(segs[..n]), Tag(sp.kind, Full(sp)));
      WorksAppend(SegTags(segs[..n]), Tag(sp.kind, sp.buf));
      OwedIsNoWork(sp);
    }
  }

  lemma CommenceWorks(s: State, st: Step, s': State)
    requires Safe(s) && LogOk(s) && Legal(s, st, s') && (st.CommenceSingleStep? || st.CommenceBacklogStep?)
    ensures Works(Ledger(s')) == Works(Ledger(s))
  {
    hide Safe, LogOk, Legal, Works, Splits, Pledge;
    CommenceSubmitsLog(s, st, s');
    PledgeIdle(s, st, s');
    ReleasesAreNoWork(Splits(s));
    WorksAppend(s.hist.submitted, FullTags(Splits(s)));
    WorksAppend(s.hist.submitted, s.hist.log);
    assert Pledge(s') + [] == Pledge(s');
  }

  lemma PledgeIdle(s: State, st: Step, s': State)
    requires Legal(s, st, s') && !st.GpuStep? && !st.DrainStep?
    ensures Pledge(s) == s.hist.submitted
  {
  }

  lemma BindWorks(s: State, k: Kind, methods: seq<Method>, s': State)
    requires Safe(s) && LogOk(s) && Legal(s, BindStep(k, methods), s')
    ensures Works(Ledger(s')) == Works(Ledger(s)) + Request(s, BindStep(k, methods))
  {
    hide GpuSafe, OrderSafe, EventSafe, SignalsSafe, ArgsSafe, Works;
    UnsetEmpty(s.host, s.hist);
    assert s.hist.log == [];
    var n := s.host.ctr + 1;
    var cmds := [Bind(n, methods), Release(TIMELINE, n)];
    assert cmds == [Bind(n, methods)] + [Release(TIMELINE, n)];
    assert Ledger(s) == s.hist.submitted && Ledger(s') == s.hist.submitted + Tag(k, cmds);
    WorksAppend(s.hist.submitted, Tag(k, cmds));
    OneWork(k, Bind(n, methods), [Release(TIMELINE, n)]);
  }

  /** A call adds exactly what it asks for, behind everything that was there; a commence, a wait and
      the GPU add nothing and lose nothing. */
  lemma StepWorks(s: State, st: Step, s': State)
    requires Safe(s) && LogOk(s) && Legal(s, st, s')
    ensures Works(Ledger(s')) == Works(Ledger(s)) + Request(s, st)
  {
    hide Safe, LogOk, LaunchNext, CopyNext, CommenceSingleNext, CommenceBacklogNext, GpuNext, Works, FullTags, Dangle;
    assert Works(Ledger(s)) + [] == Works(Ledger(s));
    WorksAppend(Pledge(s), s.hist.log);
    WorksAppend(Pledge(s'), s'.hist.log);
    match st
    case LaunchStep(r) => LaunchWorks(s, r, s'); LaunchFrame(s, r, s');
    case CopyStep(q) => CopyWorks(s, q, s'); CopyFrame(s, q, s');
    case RecordStep =>
      if s.host.free != [] { EnqueuePlain(s, RecordKind(s.host), Release(s.host.free[0], 1)); }
    case CommenceSingleStep => CommenceWorks(s, st, s');
    case CommenceBacklogStep => CommenceWorks(s, st, s');
    case DrainStep => DrainKeepsPledge(s, st);
    case AwaitStep =>
    case BindStep(k, methods) => BindWorks(s, k, methods, s');
    case GpuStep(_) =>
  }

  lemma RequestedNext(r: Run, i: nat)
    requires |r.states| == |r.steps| + 1 && i + 1 < |r.states|
    ensures Requested(r, i + 1) == Requested(r, i) + Request(r.states[i], r.steps[i])
  {
    hide Request;
  }

  lemma RunStepWorks(r: Run, i: nat)
    requires IsRun(r) && i + 1 < |r.states|
    ensures i < |r.steps| && Works(Ledger(r.states[i + 1])) == Works(Ledger(r.states[i])) + Request(r.states[i], r.steps[i])
  {
    RunLegal(r, i);
    hide IsRun, Safe, LogOk, Request, Works, Ledger, Legal, Conserved;
    RunSafe(r, i);
    OneList(r, i);
    StepWorks(r.states[i], r.steps[i], r.states[i + 1]);
  }

  lemma {:induction false} LedgerIsRequested(r: Run, i: nat)
    requires IsRun(r) && i < |r.states|
    ensures |r.states| == |r.steps| + 1
    ensures Works(Ledger(r.states[i])) == Requested(r, i)
    decreases i
  {
    hide Request, Works, Ledger, Initial, Requested, Next, Enabled, Disciplined;
    IsRunStart(r);
    if i == 0 {
      InitialHolds(r.states[0]);
      assert Requested(r, 0) == [] by { RequestedStart(r); }
    } else {
      LedgerIsRequested(r, i - 1);
      RunStepWorks(r, i - 1);
      RequestedNext(r, i - 1);
    }
  }

  lemma RequestedStart(r: Run)
    requires |r.states| == |r.steps| + 1
    ensures Requested(r, 0) == []
  {
  }

  lemma IsRunStart(r: Run)
    requires IsRun(r)
    ensures |r.states| == |r.steps| + 1 && Initial(r.states[0])
  {
  }

  lemma RunLegal(r: Run, i: nat)
    requires IsRun(r) && i + 1 < |r.states|
    ensures i < |r.steps| && Legal(r.states[i], r.steps[i], r.states[i + 1])
  {
  }

  lemma InitialHolds(s: State)
    requires Initial(s)
    ensures Works(Ledger(s)) == []
  {
  }

  /** Handed over, or about to be in the commence that is under way; and outside a commence what backlog
      and buffers hold. */
  function Held(s: State): seq<Tagged> {
    Pledge(s) + (if s.phase.Idle? then Queued(s.host) else [])
  }

  /** In every reachable state: all work handed over and all work in backlog and buffers is, in this
      order, what the accepted calls asked for. */
  lemma WorkIsRequested(r: Run, i: nat)
    requires IsRun(r) && i < |r.states|
    ensures |r.states| == |r.steps| + 1
    ensures Works(Held(r.states[i])) == Requested(r, i)
  {
    hide Request, Works, Requested, Next, Enabled, Disciplined, Queued, Conserved;
    LedgerIsRequested(r, i);
    OneList(r, i);
  }

  // ----------------------------------------------------------------------- numbers

  /** A call asks for at most one work item, and only then the counter moves, by one, to its number. */
  lemma RequestCounts(s: State, st: Step)
    requires Enabled(s, st)
    ensures |Request(s, st)| <= 1 && Next(s, st).host.ctr == s.host.ctr + |Request(s, st)|
    ensures forall i | 0 <= i < |Request(s, st)| :: Request(s, st)[i].cmd.IsWork() && Request(s, st)[i].cmd.op == s.host.ctr + 1
  {
    hide LaunchNext, CopyNext, CommenceBacklogNext, CommenceSingleNext, GpuNext, LaunchStatus;
    match st
    case LaunchStep(r) =>
      if LaunchStatus(s, r) == Success { LaunchEnqueues(s, r); } else { RefusedCounter(s, r); }
    case CopyStep(q) => CopyEnqueues(s, q);
    case CommenceSingleStep => SingleCounter(s);
    case CommenceBacklogStep => BacklogCounter(s);
    case _ =>
  }

  lemma SingleCounter(s: State)
    ensures CommenceSingleNext(s).host.ctr == s.host.ctr
  {
  }

  lemma BacklogCounter(s: State)
    requires s.host.backlog != []
    ensures CommenceBacklogNext(s).host.ctr == s.host.ctr
  {
  }

  lemma RefusedCounter(s: State, r: LaunchReq)
    requires LaunchStatus(s, r) != Success
    ensures LaunchNext(s, r).host.ctr == s.host.ctr
  {
    hide LaunchPrefix, Verdict;
    PrefixFramed(s, r);
  }

  /** Number n belongs to the n-th accepted call. */
  lemma {:induction false} RequestedNumbers(r: Run, i: nat)
    requires IsRun(r) && i < |r.states|
    ensures |r.states| == |r.steps| + 1 && |Requested(r, i)| == r.states[i].host.ctr
    ensures forall j | 0 <= j < |Requested(r, i)| :: Requested(r, i)[j].cmd.IsWork() && Requested(r, i)[j].cmd.op == j + 1
    decreases i
  {
    hide Request, Initial, Requested, Next, Enabled, Disciplined;
    IsRunStart(r);
    if i == 0 {
      RequestedStart(r);
      InitialCounter(r.states[0]);
    } else {
      RequestedNumbers(r, i - 1);
      RequestedNext(r, i - 1);
      assert Legal(r.states[i - 1], r.steps[i - 1], r.states[i]);
      RequestCounts(r.states[i - 1], r.steps[i - 1]);
    }
  }

  lemma InitialCounter(s: State)
    requires Initial(s)
    ensures s.host.ctr == 0
  {
  }

  lemma {:induction false} RequestedGrows(r: Run, j: nat, i: nat)
    requires |r.states| == |r.steps| + 1 && j <= i < |r.states|
    ensures Requested(r, j) <= Requested(r, i)
    decreases i
  {
    hide Request, Requested;
    if j < i {
      RequestedGrows(r, j, i - 1);
      RequestedNext(r, i - 1);
    }
  }

  /** Work item t carries what the call made at step j asked for. */
  predicate Carries(s: State, st: Step, t: Tagged) {
    match st
    case LaunchStep(q) =>
      q.kernel.constants != [] && t.kind == Compute && t.cmd.Launch?
      && t.cmd.qmd == s.host.page + s.host.argsIdx + LaunchBlock.QmdOffset(q.kernel.constants[0])
    case CopyStep(q) => t.kind == Dma && t.cmd.Copy? && t.cmd.src == q.src && t.cmd.dst == q.dst && t.cmd.len == q.len
    case BindStep(k, methods) => t.kind == k && t.cmd.Bind? && t.cmd.methods == methods
    case _ => false
  }

  /** The call is accepted and gets the next number. */
  predicate Accepts(s: State, st: Step) {
    match st
    case LaunchStep(q) => LaunchStatus(s, q) == Success
    case CopyStep(q) => q.dst != 0 && q.src != 0 && q.len < 0xffff_ffff
    case BindStep(_, _) => true
    case _ => false
  }

  lemma RequestCarries(s: State, st: Step)
    requires Accepts(s, st)
    ensures |Request(s, st)| == 1 && Carries(s, st, Request(s, st)[0])
  {
    if st.LaunchStep? { VerdictTakes(s.host, st.launch); }
  }

  /** At every later point of the run exactly one work item has the number an accepted call got, whether
      it was submitted, is about to be, or is queued, and it carries that call's own operands. */
  lemma NumberCarries(r: Run, j: nat, i: nat, t: Tagged)
    requires IsRun(r) && j < i < |r.states|
    requires j < |r.steps| && Accepts(r.states[j], r.steps[j])
    requires t.cmd.IsWork() && t.cmd.op == r.states[j].host.ctr + 1
    ensures t in Held(r.states[i]) <==> Carries(r.states[j], r.steps[j], t)
  {
    hide Next, Enabled, Disciplined, Request, Requested, Works, Held, Initial, Accepts, Carries;
    WorkIsRequested(r, i);
    RequestedNumbers(r, i);
    RequestedNumbers(r, j);
    RequestedNext(r, j);
    RequestedGrows(r, j + 1, i);
    RequestCarries(r.states[j], r.steps[j]);
    WorksIn(Held(r.states[i]), t);
    var n, own := r.states[j].host.ctr, Request(r.states[j], r.steps[j])[0];
    assert Requested(r, j + 1)[n] == own && Requested(r, i)[n] == own;
    assert own in Requested(r, i);
    OneOperand(r.states[j], r.steps[j], own, t);
  }

  lemma OneOperand(s: State, st: Step, a: Tagged, b: Tagged)
    requires a.cmd.IsWork() && b.cmd.IsWork() && a.cmd.op == b.cmd.op && Carries(s, st, a)
    ensures Carries(s, st, b) <==> a == b
  {
  }

  // -------------------------------------------------------------- what was submitted

  lemma {:induction false} FlowCount(cmds: seq<Command>, m: Mark, k: Kind, h: History)
    requires FlowOk(cmds, m, k, h)
    ensures FlowEnd(cmds, m).last == m.last + |Works(Tag(k, cmds))|
    decreases |cmds|
  {
    if cmds == [] {
    } else {
      FlowCount(cmds[1..], Advance(cmds[0], m), k, h);
      assert Tag(k, cmds)[1..] == Tag(k, cmds[1..]) && Tag(k, cmds)[0] == Tagged(k, cmds[0]);
    }
  }

  lemma {:induction false} SegsCount(segs: seq<Split>, m: nat, h: History)
    requires forall i | 0 <= i < |segs| :: SegOk(segs, i, m, h)
    ensures SegStart(segs, |segs|, m) == m + |Works(SegTags(segs))|
    decreases |segs|
  {
    hide Works, Tag, FlowOk, FlowEnd, Full;
    if segs == [] {
      NoWork([]);
    } else {
      var n := |segs| - 1;
      var sp := segs[n];
      forall i | 0 <= i < n ensures SegOk(segs[..n], i, m, h) { assert SegOk(segs, i, m, h); }
      SegsCount(segs[..n], m, h);
      assert SegOk(segs, n, m, h);
      FlowCount(Full(sp), Mark(SegStart(segs, n, m), SegStart(segs, n, m)), sp.kind, h);
      OwedIsNoWork(sp);
      WorksAppend(SegTags(segs[..n]), Tag(sp.kind, sp.buf));
    }
  }

  lemma IdleCount(host: Host, h: History)
    requires HostIdle(host, h)
    ensures host.ctr == h.sub + |Works(Queued(host))|
  {
    hide Works, FlowOk, FlowEnd, SegOk;
    NoWork([]);
    assert forall k :: Tag(k, []) == [];
    match host.mode
    case Unset => assert Queued(host) == [];
    case Mode(k) =>
      assert HostFlow(host, h, k);
      SegsCount(host.backlog, h.sub, h);
      FlowCount(Buf(host, k), Mark(Tail(host, h), Tail(host, h)), k, h);
      assert Queued(host) == SegTags(host.backlog) + Tag(k, Buf(host, k));
      WorksAppend(SegTags(host.backlog), Tag(k, Buf(host, k)));
  }

  lemma DrainingCount(host: Host, h: History, i: nat)
    requires HostDraining(host, h, i)
    ensures i < |host.backlog| && host.ctr == h.sub + |Works(FullTags(host.backlog[i + 1..]))|
  {
    hide Works, FlowOk, FlowEnd, Full;
    var segs := host.backlog[i + 1..];
    forall j | 0 <= j < |segs| ensures SegOk(segs, j, h.sub, h) {
      assert SegOk(host.backlog, i + 1 + j, 0, h);
    }
    SegsCount(segs, h.sub, h);
    ReleasesAreNoWork(segs);
  }

  /** The work submitted so far is that of the first operations, up to the last submitted number. */
  lemma SubmittedIsFirst(r: Run, i: nat)
    requires IsRun(r) && i < |r.states|
    ensures |r.states| == |r.steps| + 1 && r.states[i].hist.sub <= |Requested(r, i)|
    ensures Works(r.states[i].hist.submitted) == Requested(r, i)[..r.states[i].hist.sub]
  {
    hide Next, Enabled, Disciplined, Request, Requested, Works, Initial, GpuSafe, OrderSafe, EventSafe, SignalsSafe, ArgsSafe,
      HostIdle, HostDraining, FullTags, Queued, Conserved;
    var s := r.states[i];
    LedgerIsRequested(r, i);
    RequestedNumbers(r, i);
    RunSafe(r, i);
    OneList(r, i);
    match s.phase {
      case Idle =>
        IdleCount(s.host, s.hist);
        WorksAppend(s.hist.submitted, s.hist.log);
      case Draining(d) =>
        DrainingCount(s.host, s.hist, d);
        DrainingPledge(s, d);
        WorksAppend(s.hist.submitted, FullTags(s.host.backlog[d + 1..]));
    }
  }

  lemma DrainingPledge(s: State, d: nat)
    requires s.phase == Draining(d) && HostDraining(s.host, s.hist, d) && LogOk(s)
    ensures Ledger(s) == s.hist.submitted + FullTags(s.host.backlog[d + 1..])
  {
  }

  // ---------------------------------------------------------------- what the words do

  /** The kernel starts and transfers among a list of effects. */
  function Jobs(es: seq<Effect>): seq<Effect> {
    if es == [] then []
    else (if es[0].RunKernel? || es[0].Transfer? then [es[0]] else []) + Jobs(es[1..])
  }

  /** What a list of work items should make the hardware do. */
  function JobsOf(cmds: seq<Command>): seq<Effect> {
    if cmds == [] then []
    else (match cmds[0]
          case Launch(_, qmd) => [RunKernel(qmd)]
          case Copy(_, src, dst, len) => [Transfer(src, dst, len, false)]
          case _ => []) + JobsOf(cmds[1..])
  }

  lemma JobsStep(es: seq<Effect>)
    requires es != []
    ensures Jobs(es) == (if es[0].RunKernel? || es[0].Transfer? then [es[0]] else []) + Jobs(es[1..])
  {
  }

  lemma {:induction false} JobsAppend(a: seq<Effect>, b: seq<Effect>)
    ensures Jobs(a + b) == Jobs(a) + Jobs(b)
    decreases |a|
  {
    if a == [] {
      assert a + b == b;
    } else {
      hide Jobs;
      var es := a + b;
      assert es[0] == a[0] && es[1..] == a[1..] + b;
      JobsAppend(a[1..], b);
      JobsStep(es);
      JobsStep(a);
      JoinTwo(if a[0].RunKernel? || a[0].Transfer? then [a[0]] else [], Jobs(a[1..]), Jobs(b));
    }
  }

  lemma JoinTwo<T>(a: seq<T>, b: seq<T>, c: seq<T>)
    ensures a + (b + c) == a + b + c
  {
  }

  lemma {:induction false} MeaningJobs(k: Kind, cmds: seq<Command>, pool: nat)
    ensures Jobs(AllMeanings(k, cmds, pool)) == JobsOf(cmds)
    decreases |cmds|
  {
    hide Jobs;
    if cmds == [] {
      NoJobs();
    } else {
      MeaningJobs(k, cmds[1..], pool);
      JobsAppend(MeaningOf(k, cmds[0], pool), AllMeanings(k, cmds[1..], pool));
      OneJob(k, cmds[0], pool);
    }
  }

  lemma NoJobs()
    ensures Jobs([]) == []
  {
  }

  lemma OneJob(k: Kind, c: Command, pool: nat)
    ensures Jobs(MeaningOf(k, c, pool)) == match c
              case Launch(_, qmd) => [RunKernel(qmd)]
              case Copy(_, src, dst, len) => [Transfer(src, dst, len, false)]
              case _ => []
  {
    var es := MeaningOf(k, c, pool);
    if c.Launch? { assert Jobs(es[1..]) == [es[1]]; }
    else if es != [] { assert es[1..] == []; }
  }

  /** Everything but work is none of these jobs. */
  lemma {:induction false} WorkJobs(ts: seq<Tagged>, k: Kind)
    ensures JobsOf(Project(ts, k)) == JobsOf(Project(Works(ts), k))
    decreases |ts|
  {
    if ts == [] {
    } else {
      var c := ts[0].cmd;
      WorkJobs(ts[1..], k);
      ProjectFront(ts[0], ts[1..], k);
      assert [ts[0]] + ts[1..] == ts;
      JobsFront(c, Project(ts[1..], k));
      assert Project(ts, k) == if ts[0].kind == k then [c] + Project(ts[1..], k) else Project(ts[1..], k);
      if c.IsWork() {
        ProjectFront(ts[0], Works(ts[1..]), k);
        JobsFront(c, Project(Works(ts[1..]), k));
        assert Project(Works(ts), k) == if ts[0].kind == k then [c] + Project(Works(ts[1..]), k) else Project(Works(ts[1..]), k);
      } else {
        assert Works(ts) == Works(ts[1..]);
      }
    }
  }

  lemma ProjectFront(t: Tagged, ts: seq<Tagged>, k: Kind)
    ensures Project([t] + ts, k) == (if t.kind == k then [t.cmd] else []) + Project(ts, k)
  {
    assert ([t] + ts)[1..] == ts;
  }

  lemma JobsFront(c: Command, cmds: seq<Command>)
    ensures JobsOf([c] + cmds) == (match c
              case Launch(_, qmd) => [RunKernel(qmd)]
              case Copy(_, src, dst, len) => [Transfer(src, dst, len, false)]
              case _ => []) + JobsOf(cmds)
  {
    assert ([c] + cmds)[1..] == cmds;
  }

  /** Over every run whose addresses the hardware can take: the words submitted to a channel start the
      kernels and make the transfers that the calls up to the last submitted number asked for on that
      channel, in their order, with their own QMDs and operands, and nothing else. */
  lemma WordsDoWhatWasRequested(r: Run, i: nat, k: Kind, pool: nat, regs: Regs)
    requires IsRun(r) && i < |r.states| && Placed(r.states[0].host.page, pool)
    requires forall j | 0 <= j < |r.steps| :: Asked(r.steps[j])
    ensures |r.states| == |r.steps| + 1 && r.states[i].hist.sub <= |Requested(r, i)|
    ensures var words := WordsOf(k, Project(r.states[i].hist.submitted, k), pool);
            && Parse(words).Methods?
            && Jobs(RunMethods(k, Parse(words).methods, regs).effects)
               == JobsOf(Project(Requested(r, i)[..r.states[i].hist.sub], k))
  {
    hide Next, Enabled, Disciplined, Requested, Works, Initial, Parse, RunMethods, WordsOf, AllMeanings, Placed, Jobs, JobsOf,
      Asked;
    SubmittedIsFirst(r, i);
    SubmittedWordsMean(r, i, k, pool, regs);
    var submitted := r.states[i].hist.submitted;
    MeaningJobs(k, Project(submitted, k), pool);
    WorkJobs(submitted, k);
  }
}
