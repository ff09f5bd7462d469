/** What holds in every disciplined run of the stream engine, whatever the GPU's timing. */
module StreamRuns {
  import opened Results
  import opened Commands
  import opened Stream
  import opened StreamFlow
  import opened StreamSafety
  import opened StreamSteps

  datatype Run = Run(states: seq<State>, steps: seq<Step>)

  ghost predicate Legal(s: State, st: Step, s': State) {
    Enabled(s, st) && Disciplined(s, st) && s' == Next(s, st)
  }

  ghost predicate IsRun(r: Run) {
    && |r.states| == |r.steps| + 1
    && Initial(r.states[0])
    && forall i | 0 <= i < |r.steps| :: Legal(r.states[i], r.steps[i], r.states[i + 1])
  }

  lemma {:induction false} RunSafe(r: Run, i: nat)
    requires IsRun(r) && i < |r.states|
    ensures Safe(r.states[i])
  {
    hide Next, Enabled, Disciplined, Safe, Initial;
    if i == 0 {
      InitialSafe(r.states[0]);
    } else {
      RunSafe(r, i - 1);
      assert Legal(r.states[i - 1], r.steps[i - 1], r.states[i]);
      StepKeeps(r.states[i - 1], r.steps[i - 1]);
    }
  }

  // ----------------------------------------------------------- stream order

  /** Step st of state s starts the operation numbered n on the GPU. */
  predicate Starts(s: State, st: Step, n: nat) {
    && st.GpuStep? && st.act.Fetch?
    && Ch(s.gpu, st.act.kind).fifo != []
    && Ch(s.gpu, st.act.kind).fifo[0].IsWork()
    && Ch(s.gpu, st.act.kind).fifo[0].op == n
  }

  /** An operation starts only after every earlier operation of the other kind, and every earlier
      synchronous operation, has completed; a synchronous kernel and a copy start only after every
      earlier operation has completed.
      Operations start in the order in which they were enqueued, each on its own channel. */
  lemma StreamOrder(r: Run, i: nat, n: nat)
    requires IsRun(r) && i < |r.steps| && Starts(r.states[i], r.steps[i], n)
    ensures 1 <= n <= |r.states[i].hist.ops|
    ensures r.states[i].hist.ops[n - 1].kind == r.steps[i].act.kind
    ensures forall j | 1 <= j < n ::
              Started(r.states[i].gpu, j)
              && (MustFollow(r.states[i].hist, j, n) ==> j in r.states[i].gpu.done)
    ensures !Started(r.states[i].gpu, n)
  {
    hide Safe, Initial;
    RunSafe(r, i);
    RunSafe(r, i + 1);
    assert Legal(r.states[i], r.steps[i], r.states[i + 1]);
    StartsInTurn(r.states[i], r.steps[i].act.kind, n);
  }

  lemma StartsInTurn(s: State, k: Kind, n: nat)
    requires Safe(s) && GpuEnabled(s.gpu, Fetch(k)) && Ch(s.gpu, k).fifo[0].IsWork() && Ch(s.gpu, k).fifo[0].op == n
    requires Safe(s.(gpu := Fetched(s.gpu, k)))
    ensures 1 <= n <= |s.hist.ops| && s.hist.ops[n - 1].kind == k && !Started(s.gpu, n)
    ensures forall j | 1 <= j < n :: Started(s.gpu, j) && (MustFollow(s.hist, j, n) ==> j in s.gpu.done)
  {
    hide EventSafe, SignalsSafe, HostSafe, ArgsSafe, RunningKind;
    assert s.hist.active == Mode(k) by {
      if Quiet(s.gpu, s.hist, k) { QuietHead(s.gpu, s.hist, k); }
    }
    assert CmdOk(Ch(s.gpu, k).fifo[0], Mark(s.gpu.last, Val(s.gpu, TIMELINE)), k, s.hist);
  }

  // --------------------------------------------------------------- timeline

  /** In every reachable state the timeline value is at most the counter, and it says how far
      the stream has completed. */
  lemma TimelineMeaning(r: Run, i: nat)
    requires IsRun(r) && i < |r.states|
    ensures Val(r.states[i].gpu, TIMELINE) <= r.states[i].host.ctr == |r.states[i].hist.ops|
    ensures forall n: nat | 1 <= n <= Val(r.states[i].gpu, TIMELINE) :: n in r.states[i].gpu.done
    ensures forall n | n in r.states[i].gpu.done :: 1 <= n <= r.states[i].host.ctr
  {
    RunSafe(r, i);
    forall n | n in r.states[i].gpu.done ensures 1 <= n <= r.states[i].host.ctr {
      assert Started(r.states[i].gpu, n);
    }
  }

  lemma StepTimeline(s: State, st: Step)
    requires Safe(s) && Enabled(s, st)
    ensures Val(s.gpu, TIMELINE) <= Val(Next(s, st).gpu, TIMELINE)
    ensures s.gpu.done <= Next(s, st).gpu.done
  {
    StepForward(s, st, Next(s, st));
    if st.GpuStep? && st.act.Fetch? {
      FetchKeepsEvents(s.gpu, s.hist, st.act.kind);
    }
  }

  /** The timeline never goes backwards and completion is never undone. */
  lemma {:induction false} TimelineMonotone(r: Run, i: nat, j: nat)
    requires IsRun(r) && i <= j < |r.states|
    ensures Val(r.states[i].gpu, TIMELINE) <= Val(r.states[j].gpu, TIMELINE)
    ensures r.states[i].gpu.done <= r.states[j].gpu.done
    decreases j
  {
    if i == j {
    } else {
      TimelineMonotone(r, i, j - 1);
      RunSafe(r, j - 1);
      assert Legal(r.states[j - 1], r.steps[j - 1], r.states[j]);
      StepTimeline(r.states[j - 1], r.steps[j - 1]);
    }
  }

  /** When an await returns, the timeline equals the counter and everything ever enqueued is done. */
  lemma AwaitMeaning(r: Run, i: nat)
    requires IsRun(r) && i < |r.steps| && r.steps[i] == AwaitStep
    ensures Val(r.states[i].gpu, TIMELINE) == r.states[i].host.ctr
    ensures forall n: nat | 1 <= n <= |r.states[i].hist.ops| :: n in r.states[i].gpu.done
    ensures r.states[i + 1].host.argsIdx == 0
  {
    RunSafe(r, i);
    assert Legal(r.states[i], r.steps[i], r.states[i + 1]);
    AwaitKeeps(r.states[i]);
  }

  // ------------------------------------------------------------------ events

  lemma {:induction false} RecordedStays(r: Run, i: nat, j: nat, e: nat)
    requires IsRun(r) && i <= j < |r.states| && e in r.states[i].hist.recorded
    ensures e in r.states[j].hist.recorded && r.states[j].hist.recorded[e] == r.states[i].hist.recorded[e]
    decreases j
  {
    hide Next;
    if i == j {
    } else {
      RecordedStays(r, i, j - 1, e);
      RunSafe(r, j - 1);
      assert Legal(r.states[j - 1], r.steps[j - 1], r.states[j]);
      StepForward(r.states[j - 1], r.steps[j - 1], r.states[j]);
    }
  }

  /** waitForEvent returns once the event's signal is at least 1. Whenever that holds, at any
      later point of the run, every operation enqueued before the record has completed. */
  lemma EventWait(r: Run, i: nat, j: nat)
    requires IsRun(r) && i < j < |r.states|
    requires r.steps[i] == RecordStep && r.states[i].host.free != []
    requires Val(r.states[j].gpu, r.states[i].host.free[0]) >= 1
    ensures forall n: nat | 1 <= n <= |r.states[i].hist.ops| :: n in r.states[j].gpu.done
  {
    var e := r.states[i].host.free[0];
    RunSafe(r, i);
    RunSafe(r, j);
    assert Legal(r.states[i], r.steps[i], r.states[i + 1]);
    assert e in r.states[i + 1].hist.recorded && r.states[i + 1].hist.recorded[e] == |r.states[i].hist.ops|;
    RecordedStays(r, i + 1, j, e);
  }

  // ------------------------------------------------------ argument page

  /** The argument block of operation n. */
  predicate HoldsBlock(s: State, n: nat) {
    1 <= n <= |s.hist.ops| && s.hist.ops[n - 1].size > 0 && n !in s.gpu.done
  }

  /** Kernels that are enqueued or running own pairwise disjoint blocks inside the page. */
  lemma ArgBlocksDisjoint(r: Run, i: nat, a: nat, b: nat)
    requires IsRun(r) && i < |r.states| && a < b
    requires HoldsBlock(r.states[i], a) && HoldsBlock(r.states[i], b)
    ensures var ops := r.states[i].hist.ops;
            && ops[a - 1].lo + ops[a - 1].size <= ops[b - 1].lo
            && ops[b - 1].lo + ops[b - 1].size <= r.states[i].host.argsIdx <= KERNARGS_PAGE_SIZE
  {
    var s := r.states[i];
    RunSafe(r, i);
    assert BlockBefore(s.hist.ops[a - 1], s.hist.ops[b - 1]);
    assert BlockIn(s.hist.ops[b - 1], s.host.argsIdx);
  }

  /** The write index goes back only when no kernel that is enqueued or running owns a block. */
  lemma ArgsRecycledWhenFree(r: Run, i: nat)
    requires IsRun(r) && i < |r.steps| && r.states[i + 1].host.argsIdx < r.states[i].host.argsIdx
    ensures r.states[i + 1].host.argsIdx == 0
    ensures forall n: nat :: !HoldsBlock(r.states[i], n)
  {
    var s, st := r.states[i], r.steps[i];
    assert Legal(s, st, r.states[i + 1]);
    RunSafe(r, i);
    StepForward(s, st, r.states[i + 1]);
    AwaitMeaning(r, i);
  }

  /** Every QMD address handed to the hardware is 256-aligned and lies with its 256 bytes inside
      the launch's own block, behind constant bank 0. */
  lemma QmdPlacement(r: Run, i: nat, q: LaunchReq)
    requires IsRun(r) && i < |r.states| && Verdict(r.states[i].host, q) == Success
    ensures var host := r.states[i].host;
            var op := LaunchOp(host, q);
            && QmdAddr(host, q) % 256 == 0
            && host.page + op.lo + q.kernel.constants[0] <= QmdAddr(host, q)
            && QmdAddr(host, q) + 256 <= host.page + op.lo + op.size <= host.page + KERNARGS_PAGE_SIZE
  {
    hide Legal, GpuSafe, OrderSafe, EventSafe, HostSafe, SignalsSafe;
    RunSafe(r, i);
    PageStays(r, i);
    BlockSizeAligned(q.kernel.constants[0]);
  }

  lemma {:induction false} PageStays(r: Run, i: nat)
    requires IsRun(r) && i < |r.states|
    ensures r.states[i].host.page % 256 == 0
  {
    if i == 0 {
    } else {
      PageStays(r, i - 1);
      assert Legal(r.states[i - 1], r.steps[i - 1], r.states[i]);
      StepForward(r.states[i - 1], r.steps[i - 1], r.states[i]);
    }
  }
}
