/** An event's CPU wait ends: once the record has been commenced, its signal is raised. */
module StreamEvents {
  import opened Commands
  import opened Stream
  import opened StreamFlow
  import opened StreamSafety
  import opened StreamSteps
  import opened StreamRuns
  import opened StreamLog
  import opened StreamProgress

  predicate RaisedBy(g: Gpu, c: Command) {
    c.Release? && c.sig != TIMELINE ==> Val(g, c.sig) >= 1
  }

  /** Every event release that was executed has raised its signal. */
  ghost predicate Raised(g: Gpu, k: Kind) {
    forall c | c in Ch(g, k).fetched :: RaisedBy(g, c)
  }

  lemma FetchRaised(g: Gpu, h: History, k: Kind, j: Kind)
    requires GpuSafe(g, h) && GpuEnabled(g, Fetch(k)) && Raised(g, j)
    ensures Raised(Fetched(g, k), j)
  {
    hide Counts, RunningKind;
    var c, g' := Ch(g, k).fifo[0], Fetched(g, k);
    if h.active == Mode(k) {
      assert CmdOk(c, Mark(g.last, Val(g, TIMELINE)), k, h);
    } else {
      QuietHead(g, h, k);
    }
    forall x | x in Ch(g', j).fetched ensures RaisedBy(g', x) {
      if x in Ch(g, j).fetched { assert RaisedBy(g, x); }
    }
  }

  lemma StepRaised(s: State, st: Step, s': State, j: Kind)
    requires Safe(s) && Legal(s, st, s') && Raised(s.gpu, j)
    ensures Raised(s'.gpu, j)
  {
    hide LaunchNext, CopyNext, RecordNext, HostSafe, OrderSafe, EventSafe, SignalsSafe, ArgsSafe;
    match st {
      case LaunchStep(r) => LaunchFrame(s, r, s');
      case CopyStep(r) => CopyFrame(s, r, s');
      case RecordStep => RecordFrame(s);
      case GpuStep(a) =>
        if a.Fetch? { FetchRaised(s.gpu, s.hist, a.kind, j); }
        else { assert Ch(s'.gpu, j).fetched == Ch(s.gpu, j).fetched && s'.gpu.signals == s.gpu.signals; }
      case _ =>
        assert Ch(s'.gpu, j).fetched == Ch(s.gpu, j).fetched && s'.gpu.signals == s.gpu.signals;
    }
    forall c | c in Ch(s'.gpu, j).fetched ensures RaisedBy(s'.gpu, c) {
      if !st.GpuStep? { assert RaisedBy(s.gpu, c); }
    }
  }

  lemma {:induction false} RunRaised(r: Run, i: nat, j: Kind)
    requires IsRun(r) && i < |r.states|
    ensures Raised(r.states[i].gpu, j)
  {
    hide Next, Safe;
    if i == 0 {
    } else {
      RunRaised(r, i - 1, j);
      RunSafe(r, i - 1);
      assert Legal(r.states[i - 1], r.steps[i - 1], r.states[i]);
      StepRaised(r.states[i - 1], r.steps[i - 1], r.states[i], j);
    }
  }

  lemma {:induction false} ProjectMember(ts: seq<Tagged>, t: Tagged)
    requires t in ts
    ensures t.cmd in Project(ts, t.kind)
  {
    if ts[0] != t { ProjectMember(ts[1..], t); }
  }

  /** When the GPU has nothing left to do, every event whose release was submitted is raised. So
      waitForEvent returns for every event that was recorded before a commence. */
  lemma IdleRaised(r: Run, i: nat, k: Kind, sig: nat)
    requires IsRun(r) && i < |r.states| && GpuIdle(r.states[i].gpu)
    requires sig != TIMELINE && Tagged(k, Release(sig, 1)) in r.states[i].hist.submitted
    ensures Val(r.states[i].gpu, sig) >= 1
  {
    hide IsRun;
    var s := r.states[i];
    RunRaised(r, i, k);
    OneList(r, i);
    ProjectMember(s.hist.submitted, Tagged(k, Release(sig, 1)));
    assert ConservedOn(s.gpu, s.hist.submitted, k);
    assert RaisedBy(s.gpu, Release(sig, 1));
  }
}
