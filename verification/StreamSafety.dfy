/** The safety invariant of the stream engine, kept by every step of every disciplined run. */
module StreamSafety {
  import opened Commands
  import opened Stream
  import opened StreamFlow

  // ------------------------------------------------------------------- gpu

  predicate Started(g: Gpu, n: nat) {
    n in g.done || n in g.compute.running || n in g.dma.running
  }

  /** Numbers: everything up to `last` has started, and nothing else; a timeline value of v
      says that everything up to v is done. */
  ghost predicate Counts(g: Gpu, h: History) {
    && Val(g, TIMELINE) <= g.last <= h.sub <= |h.ops|
    && (forall n: nat :: Started(g, n) <==> 1 <= n <= g.last)
    && g.done !! g.compute.running && g.done !! g.dma.running
    && (forall n: nat | 1 <= n <= Val(g, TIMELINE) :: n in g.done)
  }

  ghost predicate RunningKind(g: Gpu, h: History, k: Kind) {
    forall n | n in Ch(g, k).running :: 1 <= n <= |h.ops| && h.ops[n - 1].kind == k
  }

  /** The channel holds nothing that could start, finish or move the timeline. */
  ghost predicate Quiet(g: Gpu, h: History, k: Kind) {
    Ch(g, k).running == {} && Inert(Ch(g, k).fifo, Val(g, TIMELINE), k, h)
  }

  lemma QuietHead(g: Gpu, h: History, k: Kind)
    requires Quiet(g, h, k) && Ch(g, k).fifo != []
    ensures InertCmd(Ch(g, k).fifo[0], Val(g, TIMELINE), k, h)
  {
  }

  /** The channel leads from where the GPU is to the last submitted operation. */
  ghost predicate Leads(g: Gpu, h: History, k: Kind) {
    var m := Mark(g.last, Val(g, TIMELINE));
    FlowOk(Ch(g, k).fifo, m, k, h) && FlowEnd(Ch(g, k).fifo, m) == Mark(h.sub, h.sub)
  }

  /** At most one channel holds unfinished work. */
  ghost predicate Channels(g: Gpu, h: History) {
    match h.active
    case Unset => Val(g, TIMELINE) == h.sub && Quiet(g, h, Compute) && Quiet(g, h, Dma)
    case Mode(k) => Leads(g, h, k) && Quiet(g, h, k.Other())
  }

  ghost predicate GpuSafe(g: Gpu, h: History) {
    Counts(g, h) && RunningKind(g, h, Compute) && RunningKind(g, h, Dma) && Channels(g, h)
  }

  // ----------------------------------------------------------------- order

  /** Only asynchronous kernels may overlap, and only with asynchronous kernels before them. */
  predicate MustFollow(h: History, j: nat, n: nat)
    requires 1 <= j < n <= |h.ops|
  {
    h.ops[n - 1].sync || h.ops[n - 1].kind == Dma || h.ops[j - 1].sync || h.ops[j - 1].kind == Dma
  }

  ghost predicate OrderSafe(g: Gpu, h: History) {
    g.last <= |h.ops| && forall j, n | 1 <= j < n <= g.last && MustFollow(h, j, n) :: j in g.done
  }

  // ---------------------------------------------------------------- events

  /** A raised event signal means that everything enqueued before the record is done. */
  ghost predicate EventSafe(g: Gpu, h: History) {
    forall e, n: nat | e in h.recorded && e != TIMELINE && Val(g, e) >= 1 && 1 <= n <= h.recorded[e] :: n in g.done
  }

  predicate Distinct(xs: seq<nat>) {
    forall i, j | 0 <= i < j < |xs| :: xs[i] != xs[j]
  }

  /** Free signals are unused and still zero. */
  ghost predicate SignalsSafe(host: Host, g: Gpu, h: History) {
    && Distinct(host.free)
    && (forall e | e in h.recorded :: e != TIMELINE && e !in host.free && h.recorded[e] <= host.ctr)
    && TIMELINE !in host.free
    && (forall e | e in g.signals :: e == TIMELINE || e in h.recorded)
  }

  // ------------------------------------------------------------------ host

  function SegStart(segs: seq<Split>, i: nat, m: nat): nat
    requires i <= |segs|
  {
    if i == 0 then m else segs[i - 1].ctr
  }

  /** Split i, with its owed release, leads from the counter of the split before it to its own. */
  ghost predicate SegOk(segs: seq<Split>, i: nat, m: nat, h: History)
    requires i < |segs|
  {
    var start := SegStart(segs, i, m);
    && FlowOk(Full(segs[i]), Mark(start, start), segs[i].kind, h)
    && FlowEnd(Full(segs[i]), Mark(start, start)) == Mark(segs[i].ctr, segs[i].ctr)
    && start <= segs[i].ctr <= |h.ops|
    && segs[i].buf != []
  }

  function Tail(host: Host, h: History): nat {
    SegStart(host.backlog, |host.backlog|, h.sub)
  }

  function Tip(host: Host, h: History, k: Kind): Mark {
    FlowEnd(Buf(host, k), Mark(Tail(host, h), Tail(host, h)))
  }

  /** The backlog and the one buffer in use continue from the last submitted operation. */
  ghost predicate HostFlow(host: Host, h: History, k: Kind) {
    && host.mode == Mode(k)
    && Buf(host, k.Other()) == []
    && (forall i | 0 <= i < |host.backlog| :: SegOk(host.backlog, i, h.sub, h))
    && h.sub <= Tail(host, h) <= |h.ops|
    && FlowOk(Buf(host, k), Mark(Tail(host, h), Tail(host, h)), k, h)
    && (h.active.Mode? ==> h.active == Mode(FirstKind(host, k)))
  }

  /** The kind of what will be submitted next. */
  function FirstKind(host: Host, k: Kind): Kind {
    if host.backlog == [] then k else host.backlog[0].kind
  }

  ghost predicate HostIdle(host: Host, h: History) {
    && host.ctr == |h.ops|
    && (host.ctr >= 1 && h.ops[host.ctr - 1].sync ==> !host.pending)
    && match host.mode
       case Unset =>
         host.compute == [] && host.dma == [] && host.backlog == [] && !host.pending && host.ctr == h.sub
       case Mode(k) =>
         && HostFlow(host, h, k)
         && Tip(host, h, k).last == host.ctr
         && (host.pending <==> Tip(host, h, k).rel < host.ctr)
  }

  ghost predicate HostDraining(host: Host, h: History, i: nat) {
    && i < |host.backlog|
    && host.ctr == |h.ops| == host.backlog[|host.backlog| - 1].ctr
    && h.sub == host.backlog[i].ctr
    && h.active == Mode(host.backlog[i].kind)
    && (forall j | i < j < |host.backlog| :: SegOk(host.backlog, j, 0, h))
    && host.compute == [] && host.dma == [] && !host.pending && host.mode.Mode?
  }

  ghost predicate HostSafe(s: State) {
    match s.phase
    case Idle => HostIdle(s.host, s.hist)
    case Draining(i) => HostDraining(s.host, s.hist, i)
  }

  // ------------------------------------------------------------- arguments

  predicate BlockIn(op: Op, limit: nat) {
    op.lo + op.size <= limit && op.lo % 256 == 0
  }

  predicate BlockBefore(a: Op, b: Op) {
    a.size == 0 || b.size == 0 || a.lo + a.size <= b.lo
  }

  /** Since the last await the argument page has been handed out in increasing, 256-aligned
      blocks; every operation up to that await is done. */
  ghost predicate ArgsSafe(host: Host, g: Gpu, h: History) {
    && h.base <= Val(g, TIMELINE)
    && host.argsIdx <= KERNARGS_PAGE_SIZE && host.argsIdx % 256 == 0
    && (forall i | h.base <= i < |h.ops| :: BlockIn(h.ops[i], host.argsIdx))
    && (forall i, j | h.base <= i < j < |h.ops| :: BlockBefore(h.ops[i], h.ops[j]))
  }

  ghost predicate Safe(s: State) {
    && GpuSafe(s.gpu, s.hist)
    && OrderSafe(s.gpu, s.hist)
    && EventSafe(s.gpu, s.hist)
    && SignalsSafe(s.host, s.gpu, s.hist)
    && HostSafe(s)
    && ArgsSafe(s.host, s.gpu, s.hist)
  }

  lemma InitialSafe(s: State)
    requires Initial(s)
    ensures Safe(s)
  {
    forall e | e in s.gpu.signals ensures false {}
  }

  // ------------------------------------------------------------ gpu steps

  lemma FetchActiveCounts(g: Gpu, h: History, k: Kind)
    requires GpuSafe(g, h) && GpuEnabled(g, Fetch(k)) && h.active == Mode(k)
    ensures Counts(Fetched(g, k), h)
    ensures Mark(Fetched(g, k).last, Val(Fetched(g, k), TIMELINE))
            == Advance(Ch(g, k).fifo[0], Mark(g.last, Val(g, TIMELINE)))
    ensures Ch(g, k).fifo[0].IsWork() ==> !Started(g, g.last + 1)
  {
    var c, g', m := Ch(g, k).fifo[0], Fetched(g, k), Mark(g.last, Val(g, TIMELINE));
    assert CmdOk(c, m, k, h);
    FlowGrows(Ch(g, k).fifo[1..], Advance(c, m), k, h);
    if c.IsWork() {
      assert !Started(g, c.op);
      forall n: nat ensures Started(g', n) <==> 1 <= n <= g'.last {
        assert Started(g', n) <==> Started(g, n) || n == c.op;
      }
    } else {
      forall n: nat ensures Started(g', n) <==> 1 <= n <= g'.last {
        assert Started(g', n) <==> Started(g, n);
      }
      forall n: nat | 1 <= n <= Val(g', TIMELINE) ensures n in g'.done {
        assert Started(g, n);
      }
    }
  }

  lemma QuietKept(g: Gpu, g': Gpu, h: History, k: Kind)
    requires Quiet(g, h, k) && Ch(g', k) == Ch(g, k) && Val(g, TIMELINE) <= Val(g', TIMELINE)
    ensures Quiet(g', h, k)
  {
    forall i | 0 <= i < |Ch(g', k).fifo| ensures InertCmd(Ch(g', k).fifo[i], Val(g', TIMELINE), k, h) {
      assert InertCmd(Ch(g, k).fifo[i], Val(g, TIMELINE), k, h);
    }
  }

  lemma FetchActiveKeeps(g: Gpu, h: History, k: Kind)
    requires GpuSafe(g, h) && GpuEnabled(g, Fetch(k)) && h.active == Mode(k)
    ensures GpuSafe(Fetched(g, k), h)
  {
    FetchActiveCounts(g, h, k);
    var c, g', m := Ch(g, k).fifo[0], Fetched(g, k), Mark(g.last, Val(g, TIMELINE));
    assert CmdOk(c, m, k, h);
    assert RunningKind(g', h, k) by {
      assert RunningKind(g, h, k);
    }
    assert RunningKind(g', h, k.Other()) by {
      assert RunningKind(g, h, k.Other());
    }
    QuietKept(g, g', h, k.Other());
    assert Leads(g', h, k);
  }

  lemma FetchQuietKeeps(g: Gpu, h: History, k: Kind)
    requires GpuSafe(g, h) && GpuEnabled(g, Fetch(k)) && h.active != Mode(k)
    ensures GpuSafe(Fetched(g, k), h)
    ensures Fetched(g, k).done == g.done && Fetched(g, k).last == g.last
    ensures Val(Fetched(g, k), TIMELINE) == Val(g, TIMELINE)
  {
    var c, g' := Ch(g, k).fifo[0], Fetched(g, k);
    assert Quiet(g, h, k);
    assert InertCmd(c, Val(g, TIMELINE), k, h);
    forall n: nat ensures Started(g', n) <==> Started(g, n) {}
    assert Quiet(g', h, k) by {
      forall i | 0 <= i < |Ch(g', k).fifo| ensures InertCmd(Ch(g', k).fifo[i], Val(g, TIMELINE), k, h) {
        assert Ch(g', k).fifo[i] == Ch(g, k).fifo[i + 1];
      }
    }
    if h.active.Unset? {
      QuietKept(g, g', h, k.Other());
    } else {
      assert Leads(g, h, k.Other());
    }
    assert RunningKind(g', h, k) && RunningKind(g', h, k.Other());
  }

  lemma FetchKeepsOrder(g: Gpu, h: History, k: Kind)
    requires GpuSafe(g, h) && OrderSafe(g, h) && GpuEnabled(g, Fetch(k))
    ensures OrderSafe(Fetched(g, k), h)
  {
    var c, g', m := Ch(g, k).fifo[0], Fetched(g, k), Mark(g.last, Val(g, TIMELINE));
    if h.active == Mode(k) {
      FetchActiveCounts(g, h, k);
      assert CmdOk(c, m, k, h);
      forall j, n | 1 <= j < n <= g'.last && MustFollow(h, j, n) ensures j in g'.done {
        assert Started(g, j);
        assert j < g.last && h.ops[j - 1].sync ==> MustFollow(h, j, g.last);
      }
    } else {
      FetchQuietKeeps(g, h, k);
    }
  }

  lemma FetchKeepsEvents(g: Gpu, h: History, k: Kind)
    requires GpuSafe(g, h) && EventSafe(g, h) && GpuEnabled(g, Fetch(k))
    ensures EventSafe(Fetched(g, k), h)
    ensures Val(g, TIMELINE) <= Val(Fetched(g, k), TIMELINE)
  {
    var c, g', m := Ch(g, k).fifo[0], Fetched(g, k), Mark(g.last, Val(g, TIMELINE));
    if h.active == Mode(k) {
      FetchActiveCounts(g, h, k);
      assert CmdOk(c, m, k, h);
    } else {
      FetchQuietKeeps(g, h, k);
      assert InertCmd(c, m.rel, k, h);
    }
    forall e, n: nat | e in h.recorded && e != TIMELINE && Val(g', e) >= 1 && 1 <= n <= h.recorded[e]
      ensures n in g'.done
    {
      if Val(g', e) == Val(g, e) {
        assert n in g.done;
      } else {
        assert Started(g, n);
      }
    }
  }

  lemma FinishKeeps(g: Gpu, h: History, k: Kind, op: nat)
    requires GpuSafe(g, h) && OrderSafe(g, h) && EventSafe(g, h) && GpuEnabled(g, Finish(k, op))
    ensures GpuSafe(GpuNext(g, Finish(k, op)), h)
    ensures OrderSafe(GpuNext(g, Finish(k, op)), h)
    ensures EventSafe(GpuNext(g, Finish(k, op)), h)
  {
    var g' := GpuNext(g, Finish(k, op));
    assert g'.signals == g.signals;
    forall n: nat ensures Started(g', n) <==> Started(g, n) {}
    assert op !in Ch(g, k.Other()).running;
  }

  /** What the GPU side of the invariant says, for any history that fits. */
  ghost predicate Core(g: Gpu, h: History) {
    GpuSafe(g, h) && OrderSafe(g, h) && EventSafe(g, h)
  }

  lemma GpuNextKeeps(g: Gpu, h: History, a: GpuAction)
    requires Core(g, h) && GpuEnabled(g, a)
    ensures Core(GpuNext(g, a), h)
    ensures Val(g, TIMELINE) <= Val(GpuNext(g, a), TIMELINE) && g.done <= GpuNext(g, a).done
  {
    hide OrderSafe, EventSafe, Counts, RunningKind;
    match a
    case Fetch(k) =>
      if h.active == Mode(k) { FetchActiveKeeps(g, h, k); } else { FetchQuietKeeps(g, h, k); }
      FetchKeepsOrder(g, h, k);
      FetchKeepsEvents(g, h, k);
    case Finish(k, op) =>
      FinishKeeps(g, h, k, op);
  }

  lemma GpuStepKeeps(s: State, a: GpuAction)
    requires Safe(s) && GpuEnabled(s.gpu, a)
    ensures Safe(s.(gpu := GpuNext(s.gpu, a)))
  {
    hide OrderSafe, EventSafe, Counts, RunningKind;
    match a
    case Fetch(k) =>
      if s.hist.active == Mode(k) {
        FetchActiveKeeps(s.gpu, s.hist, k);
        assert CmdOk(Ch(s.gpu, k).fifo[0], Mark(s.gpu.last, Val(s.gpu, TIMELINE)), k, s.hist);
      } else {
        FetchQuietKeeps(s.gpu, s.hist, k);
        assert InertCmd(Ch(s.gpu, k).fifo[0], Val(s.gpu, TIMELINE), k, s.hist);
      }
      FetchKeepsOrder(s.gpu, s.hist, k);
      FetchKeepsEvents(s.gpu, s.hist, k);
    case Finish(k, op) =>
      FinishKeeps(s.gpu, s.hist, k, op);
  }
}
