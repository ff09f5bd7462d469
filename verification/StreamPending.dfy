/** The pending flag says exactly whether the newest operation still lacks its release. */
module StreamPending {
  import opened Commands
  import opened Stream
  import opened StreamFlow
  import opened StreamSafety
  import opened StreamSteps
  import opened StreamRuns
  import opened StreamLog

  /** The releases and the work of a flow lie between its marks and reach its end. */
  lemma {:induction false} FlowMarks(cmds: seq<Command>, m: Mark, k: Kind, h: History)
    requires FlowOk(cmds, m, k, h) && m.rel <= m.last <= |h.ops|
    ensures forall n: nat | Release(TIMELINE, n) in cmds :: m.rel < n <= FlowEnd(cmds, m).rel
    ensures FlowEnd(cmds, m).rel == m.rel || Release(TIMELINE, FlowEnd(cmds, m).rel) in cmds
    ensures FlowEnd(cmds, m).last == m.last
            || exists c | c in cmds :: c.IsWork() && c.op == FlowEnd(cmds, m).last
  {
    if cmds == [] {
    } else {
      var m' := Advance(cmds[0], m);
      FlowMarks(cmds[1..], m', k, h);
      FlowGrows(cmds[1..], m', k, h);
      assert cmds == [cmds[0]] + cmds[1..];
      if FlowEnd(cmds, m).last != m.last && m'.last == FlowEnd(cmds, m).last {
        assert cmds[0].IsWork() && cmds[0] in cmds;
      }
    }
  }

  predicate Emitted(ts: seq<Tagged>, n: nat) {
    Tagged(Compute, Release(TIMELINE, n)) in ts || Tagged(Dma, Release(TIMELINE, n)) in ts
  }

  lemma EmittedTag(k: Kind, cmds: seq<Command>, n: nat)
    ensures Emitted(Tag(k, cmds), n) <==> Release(TIMELINE, n) in cmds
  {
    var c := Release(TIMELINE, n);
    if c in cmds {
      var i :| 0 <= i < |cmds| && cmds[i] == c;
      assert Tag(k, cmds)[i] == Tagged(k, c);
    }
  }

  /** What has been submitted carries releases up to, and including, the last submitted number. */
  ghost predicate Released(submitted: seq<Tagged>, sub: nat) {
    && (forall n: nat | Emitted(submitted, n) :: 1 <= n <= sub)
    && (sub >= 1 ==> Emitted(submitted, sub))
  }

  lemma SubmittedReleased(s: State, k: Kind, cmds: seq<Command>, upto: nat)
    requires Released(s.hist.submitted, s.hist.sub) && s.hist.sub <= upto <= |s.hist.ops|
    requires FlowOk(cmds, Mark(s.hist.sub, s.hist.sub), k, s.hist)
    requires FlowEnd(cmds, Mark(s.hist.sub, s.hist.sub)) == Mark(upto, upto)
    ensures Released(Submitted(s, k, cmds, upto).hist.submitted, upto)
  {
    hide FlowOk, FlowEnd;
    FlowMarks(cmds, Mark(s.hist.sub, s.hist.sub), k, s.hist);
    var ts := s.hist.submitted + Tag(k, cmds);
    forall n: nat ensures Emitted(ts, n) <==> Emitted(s.hist.submitted, n) || Release(TIMELINE, n) in cmds {
      EmittedTag(k, cmds, n);
    }
  }

  lemma StepReleased(s: State, st: Step, s': State)
    requires Safe(s) && Released(s.hist.submitted, s.hist.sub) && Legal(s, st, s')
    ensures Released(s'.hist.submitted, s'.hist.sub)
  {
    hide GpuSafe, OrderSafe, EventSafe, SignalsSafe, ArgsSafe, HostIdle, FlowOk, FlowEnd, Released, LaunchNext, CopyNext;
    match st
    case LaunchStep(q) => LaunchFrame(s, q, s');
    case CopyStep(q) => CopyFrame(s, q, s');
    case CommenceSingleStep =>
      if s.host.mode.Mode? {
        var k := s.host.mode.kind;
        SingleFlow(s, k);
        SubmittedReleased(s, k, Buf(s.host, k) + Owed(s.host.ctr, s.host.pending), s.host.ctr);
      }
    case CommenceBacklogStep => BacklogReleased(s, s');
    case DrainStep => DrainReleased(s, s');
    case BindStep(k, ms) => BindReleased(s, k, ms);
    case _ =>
  }

  lemma BacklogReleased(s: State, s': State)
    requires Safe(s) && s.phase.Idle? && s.host.backlog != [] && s' == CommenceBacklogNext(s)
    requires Released(s.hist.submitted, s.hist.sub)
    ensures Released(s'.hist.submitted, s'.hist.sub)
  {
    hide GpuSafe, OrderSafe, EventSafe, SignalsSafe, ArgsSafe, FlowOk, FlowEnd, Released;
    assert s.host.mode.Mode?;
    var k := s.host.mode.kind;
    BacklogOne(s.host, k);
    BacklogAll(s.host, s.hist, k);
    var host' := Backlogged(s.host, k);
    var sp := host'.backlog[0];
    assert SegOk(host'.backlog, 0, s.hist.sub, s.hist);
    SubmittedReleased(s, sp.kind, Full(sp), sp.ctr);
  }

  lemma DrainReleased(s: State, s': State)
    requires Safe(s) && Enabled(s, DrainStep) && s' == DrainNext(s) && Released(s.hist.submitted, s.hist.sub)
    ensures Released(s'.hist.submitted, s'.hist.sub)
  {
    hide GpuSafe, OrderSafe, EventSafe, SignalsSafe, ArgsSafe, FlowOk, FlowEnd, Released;
    var i := s.phase.i + 1;
    if i < |s.host.backlog| {
      var sp := s.host.backlog[i];
      assert SegOk(s.host.backlog, i, 0, s.hist);
      SubmittedReleased(s, sp.kind, Full(sp), sp.ctr);
    }
  }

  lemma BindReleased(s: State, k: Kind, ms: seq<Method>)
    requires Safe(s) && Enabled(s, BindStep(k, ms)) && Released(s.hist.submitted, s.hist.sub)
    ensures Released(BindNext(s, k, ms).hist.submitted, BindNext(s, k, ms).hist.sub)
  {
    hide GpuSafe, OrderSafe, EventSafe, SignalsSafe, ArgsSafe, Released, HostIdle;
    UnsetEmpty(s.host, s.hist);
    var n := s.host.ctr + 1;
    var s1 := s.(host := s.host.(ctr := n), hist := s.hist.(ops := s.hist.ops + [Op(k, true, 0, 0)]));
    FlowPair(Bind(n, ms), Release(TIMELINE, n), Mark(s.hist.sub, s.hist.sub), k, s1.hist);
    SubmittedReleased(s1, k, [Bind(n, ms), Release(TIMELINE, n)], n);
  }

  lemma {:induction false} RunReleased(r: Run, i: nat)
    requires IsRun(r) && i < |r.states|
    ensures Released(r.states[i].hist.submitted, r.states[i].hist.sub)
  {
    hide Next, Safe;
    if i == 0 {
    } else {
      RunReleased(r, i - 1);
      RunSafe(r, i - 1);
      assert Legal(r.states[i - 1], r.steps[i - 1], r.states[i]);
      StepReleased(r.states[i - 1], r.steps[i - 1], r.states[i]);
    }
  }

  // ------------------------------------------------------- exactness of the flag

  /** A split in the backlog will append the release of operation n. */
  predicate OwedBy(segs: seq<Split>, n: nat) {
    exists i | 0 <= i < |segs| :: segs[i].owes && segs[i].ctr == n
  }

  /** The release of operation n has been emitted, or a split will emit it. */
  predicate Covered(s: State, n: nat) {
    Emitted(s.hist.submitted, n) || Emitted(s.hist.log, n) || OwedBy(s.host.backlog, n)
  }

  predicate HoldsTag(sp: Split, t: Tagged) {
    sp.kind == t.kind && t.cmd in sp.buf
  }

  lemma TagMember(sp: Split, t: Tagged)
    ensures t in Tag(sp.kind, sp.buf) <==> HoldsTag(sp, t)
  {
    if HoldsTag(sp, t) {
      var j :| 0 <= j < |sp.buf| && sp.buf[j] == t.cmd;
      assert Tag(sp.kind, sp.buf)[j] == t;
    }
  }

  lemma {:induction false} SegTagsMember(segs: seq<Split>, t: Tagged)
    ensures t in SegTags(segs) <==> exists i | 0 <= i < |segs| :: HoldsTag(segs[i], t)
  {
    hide HoldsTag;
    if segs == [] {
    } else {
      var n := |segs| - 1;
      SegTagsMember(segs[..n], t);
      TagMember(segs[n], t);
      assert forall i | 0 <= i < n :: segs[..n][i] == segs[i];
    }
  }

  lemma EmittedQueued(host: Host, n: nat)
    ensures Emitted(Queued(host), n) <==>
              || (exists i | 0 <= i < |host.backlog| :: Release(TIMELINE, n) in host.backlog[i].buf)
              || Release(TIMELINE, n) in host.compute || Release(TIMELINE, n) in host.dma
  {
    var c := Release(TIMELINE, n);
    SegTagsMember(host.backlog, Tagged(Compute, c));
    SegTagsMember(host.backlog, Tagged(Dma, c));
    EmittedTag(Compute, host.compute, n);
    EmittedTag(Dma, host.dma, n);
    if i :| 0 <= i < |host.backlog| && c in host.backlog[i].buf {
      assert host.backlog[i].kind == Compute || host.backlog[i].kind == Dma;
    }
  }

  /** Split i has releases, its own or owed, only up to its counter; and its counter is released
      by it or was already the counter of what came before. */
  lemma SegReleases(segs: seq<Split>, i: nat, m: nat, h: History)
    requires i < |segs| && SegOk(segs, i, m, h)
    ensures forall n: nat | Release(TIMELINE, n) in segs[i].buf :: n <= segs[i].ctr
    ensures segs[i].ctr == SegStart(segs, i, m) || segs[i].owes || Release(TIMELINE, segs[i].ctr) in segs[i].buf
  {
    var start := SegStart(segs, i, m);
    FlowMarks(Full(segs[i]), Mark(start, start), segs[i].kind, h);
    forall n: nat | Release(TIMELINE, n) in segs[i].buf ensures n <= segs[i].ctr {
      assert Release(TIMELINE, n) in Full(segs[i]);
    }
  }

  lemma {:induction false} SegsBounded(segs: seq<Split>, i: nat, m: nat, h: History)
    requires forall j | 0 <= j < |segs| :: SegOk(segs, j, m, h)
    requires i <= |segs|
    ensures forall j | 0 <= j < i :: segs[j].ctr <= SegStart(segs, i, m)
    ensures m <= SegStart(segs, i, m)
  {
    hide FlowOk, FlowEnd;
    if i == 0 {
    } else {
      SegsBounded(segs, i - 1, m, h);
      assert SegOk(segs, i - 1, m, h);
    }
  }

  /** Walking back from split i: its counter is released by some split, or was submitted. */
  lemma {:induction false} SegsReach(segs: seq<Split>, i: nat, m: nat, h: History)
    requires forall j | 0 <= j < |segs| :: SegOk(segs, j, m, h)
    requires i <= |segs|
    ensures var t := SegStart(segs, i, m);
            t == m || OwedBy(segs, t) || exists j | 0 <= j < |segs| :: Release(TIMELINE, t) in segs[j].buf
  {
    if i == 0 {
    } else {
      SegReleases(segs, i - 1, m, h);
      SegsReach(segs, i - 1, m, h);
    }
  }

  lemma TipReleases(host: Host, h: History, k: Kind)
    requires HostIdle(host, h) && host.mode == Mode(k)
    ensures host.pending ==> Tail(host, h) < host.ctr && Release(TIMELINE, host.ctr) !in Buf(host, k)
    ensures host.pending ==> exists c | c in Buf(host, k) :: c.IsWork() && c.op == host.ctr
    ensures !host.pending ==> Tail(host, h) == host.ctr || Release(TIMELINE, host.ctr) in Buf(host, k)
  {
    var tail := Tail(host, h);
    FlowMarks(Buf(host, k), Mark(tail, tail), k, h);
    FlowGrows(Buf(host, k), Mark(tail, tail), k, h);
  }

  lemma PendingUncovered(s: State, k: Kind)
    requires HostIdle(s.host, s.hist) && s.host.mode == Mode(k) && s.host.pending
    requires s.hist.log == Queued(s.host) && Released(s.hist.submitted, s.hist.sub)
    ensures !Covered(s, s.host.ctr)
  {
    hide FlowOk, FlowEnd;
    var n, segs := s.host.ctr, s.host.backlog;
    assert HostFlow(s.host, s.hist, k);
    TipReleases(s.host, s.hist, k);
    SegsBounded(segs, |segs|, s.hist.sub, s.hist);
    EmittedQueued(s.host, n);
    forall i | 0 <= i < |segs| ensures Release(TIMELINE, n) !in segs[i].buf {
      SegReleases(segs, i, s.hist.sub, s.hist);
    }
  }

  lemma UnpendingCovered(s: State, k: Kind)
    requires HostIdle(s.host, s.hist) && s.host.mode == Mode(k) && !s.host.pending && s.host.ctr >= 1
    requires s.hist.log == Queued(s.host) && Released(s.hist.submitted, s.hist.sub)
    ensures Covered(s, s.host.ctr)
  {
    hide FlowOk, FlowEnd;
    var segs := s.host.backlog;
    assert HostFlow(s.host, s.hist, k);
    TipReleases(s.host, s.hist, k);
    SegsReach(segs, |segs|, s.hist.sub, s.hist);
    EmittedQueued(s.host, s.host.ctr);
  }

  /** timelineNotifyPending holds exactly when the operation numbered timelineCtr has no release,
      neither emitted nor owed by a split; and then that operation lies in the buffer in use. */
  lemma PendingExact(r: Run, i: nat)
    requires IsRun(r) && i < |r.states| && r.states[i].phase.Idle?
    ensures var s := r.states[i];
            && (s.host.pending <==> s.host.ctr >= 1 && !Covered(s, s.host.ctr))
            && (s.host.pending ==>
                  s.host.mode.Mode? && exists c | c in Buf(s.host, s.host.mode.kind) :: c.IsWork() && c.op == s.host.ctr)
  {
    hide Next, GpuSafe, OrderSafe, EventSafe, SignalsSafe, ArgsSafe, Released, Covered;
    var s := r.states[i];
    RunSafe(r, i);
    OneList(r, i);
    RunReleased(r, i);
    match s.host.mode
    case Unset => UnsetCovered(s);
    case Mode(k) =>
      TipReleases(s.host, s.hist, k);
      if s.host.pending { PendingUncovered(s, k); } else if s.host.ctr >= 1 { UnpendingCovered(s, k); }
  }

  lemma UnsetCovered(s: State)
    requires HostIdle(s.host, s.hist) && s.host.mode.Unset? && Released(s.hist.submitted, s.hist.sub)
    ensures !s.host.pending && (s.host.ctr >= 1 ==> Covered(s, s.host.ctr))
  {
  }

  /** Every split of the backlog contains, receives or follows a release of its recorded counter. */
  lemma SplitCovered(r: Run, i: nat, j: nat)
    requires IsRun(r) && i < |r.states| && r.states[i].phase.Idle? && j < |r.states[i].host.backlog|
    ensures var s := r.states[i];
            var n := s.host.backlog[j].ctr;
            n >= 1 ==> Emitted(s.hist.submitted, n)
                       || exists l | 0 <= l <= j :: (s.host.backlog[l].owes && s.host.backlog[l].ctr == n)
                                                    || Release(TIMELINE, n) in s.host.backlog[l].buf
  {
    hide Next, GpuSafe, OrderSafe, EventSafe, SignalsSafe, ArgsSafe;
    var s := r.states[i];
    RunSafe(r, i);
    RunReleased(r, i);
    assert s.host.mode.Mode?;
    assert HostFlow(s.host, s.hist, s.host.mode.kind);
    SegsReachBefore(s.host.backlog, j, s.hist.sub, s.hist);
  }

  lemma {:induction false} SegsReachBefore(segs: seq<Split>, j: nat, m: nat, h: History)
    requires forall l | 0 <= l < |segs| :: SegOk(segs, l, m, h)
    requires j < |segs|
    ensures var n := segs[j].ctr;
            n == m || exists l | 0 <= l <= j :: (segs[l].owes && segs[l].ctr == n) || Release(TIMELINE, n) in segs[l].buf
  {
    SegReleases(segs, j, m, h);
    if j == 0 {
    } else {
      SegsReachBefore(segs, j - 1, m, h);
    }
  }
}
