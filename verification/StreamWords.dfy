/** From runs to words: in every run whose addresses the hardware can take, every command that is
    submitted has words, and the hardware reads them as that command. */
module StreamWords {
  import opened Results
  import opened Bits
  import opened Commands
  import opened Stream
  import opened StreamFlow
  import opened StreamSafety
  import opened StreamSteps
  import opened StreamRuns
  import opened PushBuffer
  import opened Hardware
  import opened CommandWords

  const COPY_SPACE: nat := 0x2_0000_0000_0000

  /** Argument page and signal pool lie below 2^40. */
  predicate Placed(page: nat, pool: nat) {
    && page % 256 == 0 && page + KERNARGS_PAGE_SIZE <= ADDRESS_SPACE
    && pool % 16 == 0 && pool + 16 * MAX_SIGNAL_POOL_SIZE <= ADDRESS_SPACE
  }

  /** Copies are asked for below 2^49, and the engine bindings only set state. */
  predicate Asked(st: Step) {
    && (st.CopyStep? ==> st.copy.src < COPY_SPACE && st.copy.dst < COPY_SPACE)
    && (st.BindStep? ==> SetupOk(st.kind, st.methods))
  }

  predicate AllEncodable(k: Kind, cmds: seq<Command>, pool: nat) {
    forall c | c in cmds :: Encodable(k, c, pool)
  }

  predicate TagsEncodable(ts: seq<Tagged>, pool: nat) {
    forall t | t in ts :: Encodable(t.kind, t.cmd, pool)
  }

  /** Everything enqueued or submitted so far can be encoded. */
  ghost predicate Encoded(h: Host, submitted: seq<Tagged>, pool: nat) {
    && Placed(h.page, pool) && h.ctr < U32
    && AllEncodable(Compute, h.compute, pool) && AllEncodable(Dma, h.dma, pool)
    && (forall i | 0 <= i < |h.backlog| :: SplitEncodable(h.backlog[i], pool))
    && (forall e | e in h.free :: e < MAX_SIGNAL_POOL_SIZE)
    && TagsEncodable(submitted, pool)
  }

  predicate SplitEncodable(sp: Split, pool: nat) {
    AllEncodable(sp.kind, sp.buf, pool) && sp.ctr < U32
  }

  // ----------------------------------------------------------- the commands

  lemma ReleaseEncodable(k: Kind, page: nat, pool: nat, sig: nat, v: nat)
    requires Placed(page, pool) && sig < MAX_SIGNAL_POOL_SIZE && v < U32
    ensures Encodable(k, Release(sig, v), pool)
  {
  }

  lemma AcquireEncodable(page: nat, pool: nat, v: nat)
    requires Placed(page, pool) && v < U32
    ensures Encodable(Compute, Acquire(TIMELINE, v), pool)
  {
  }

  lemma LocalMemEncodable(r: LaunchReq, pool: nat)
    ensures Encodable(Compute, LocalMemCommand(r), pool)
  {
    hide BytesPerTpc;
  }

  // ------------------------------------------------------ the building blocks

  lemma EnqueueEncoded(s: State, k: Kind, c: Command, pool: nat)
    requires Encoded(s.host, s.hist.submitted, pool) && Encodable(k, c, pool)
    ensures Encoded(Enqueue(s, k, [c]).host, Enqueue(s, k, [c]).hist.submitted, pool)
  {
    hide Encodable, Placed, TagsEncodable, SplitEncodable;
  }

  lemma BackloggedEncoded(h: Host, ts: seq<Tagged>, k: Kind, pool: nat)
    requires Encoded(h, ts, pool)
    ensures Encoded(Backlogged(h, k), ts, pool)
  {
    hide Encodable, Placed, TagsEncodable;
    var h' := Backlogged(h, k);
    assert Buf(h, k) != [] ==> SplitEncodable(Split(Buf(h, k), k, h.ctr, h.pending), pool);
    forall i | 0 <= i < |h'.backlog| ensures SplitEncodable(h'.backlog[i], pool) {
      if i < |h.backlog| { assert SplitEncodable(h.backlog[i], pool); }
    }
  }

  lemma SwitchedEncoded(h: Host, ts: seq<Tagged>, k: Kind, pool: nat)
    requires Encoded(h, ts, pool)
    ensures Encoded(SwitchedHost(h, k), ts, pool)
  {
    hide Encodable, Placed, TagsEncodable, AllEncodable, SplitEncodable;
    BackloggedEncoded(h, ts, k.Other(), pool);
  }

  lemma SubmittedEncoded(s: State, k: Kind, cmds: seq<Command>, upto: nat, pool: nat)
    requires Encoded(s.host, s.hist.submitted, pool) && AllEncodable(k, cmds, pool)
    ensures Encoded(Submitted(s, k, cmds, upto).host, Submitted(s, k, cmds, upto).hist.submitted, pool)
  {
    hide Encodable, Placed, SplitEncodable;
    var ts := Submitted(s, k, cmds, upto).hist.submitted;
    forall t | t in ts ensures Encodable(t.kind, t.cmd, pool) {
      if t !in s.hist.submitted {
        var i :| 0 <= i < |cmds| && Tag(k, cmds)[i] == t;
        assert cmds[i] in cmds;
      }
    }
  }

  lemma OwedEncodable(k: Kind, cmds: seq<Command>, page: nat, pool: nat, ctr: nat, owes: bool)
    requires Placed(page, pool) && AllEncodable(k, cmds, pool) && ctr < U32
    ensures AllEncodable(k, cmds + Owed(ctr, owes), pool)
  {
    hide Encodable;
    ReleaseEncodable(k, page, pool, TIMELINE, ctr);
  }

  // ---------------------------------------------------------------- the steps

  lemma PrefixEncoded(s: State, r: LaunchReq, pool: nat)
    requires Encoded(s.host, s.hist.submitted, pool)
    ensures Encoded(LaunchPrefix(s, r).host, LaunchPrefix(s, r).hist.submitted, pool)
  {
    hide Encodable, AllEncodable, TagsEncodable, SplitEncodable, Placed, Enqueue, SwitchedHost, LocalMemCommand;
    SwitchedEncoded(s.host, s.hist.submitted, Compute, pool);
    var s1 := Switched(s, Compute);
    LocalMemEncodable(r, pool);
    EnqueueEncoded(s1.(host := GrownSlm(s1.host, r)), Compute, LocalMemCommand(r), pool);
    var s2 := WithLocalMem(s1, r);
    ReleaseEncodable(Compute, s2.host.page, pool, TIMELINE, s2.host.ctr);
    EnqueueEncoded(s2, Compute, Release(TIMELINE, s2.host.ctr), pool);
    var s3 := Flushed(s2);
    AcquireEncodable(s3.host.page, pool, s3.host.ctr);
    EnqueueEncoded(s3, Compute, Acquire(TIMELINE, s3.host.ctr), pool);
  }

  lemma AcceptedEncoded(s: State, k: Kind, c: Command, op: Op, pool: nat)
    requires Encoded(s.host, s.hist.submitted, pool) && Encodable(k, c, pool) && c.IsWork() && s.host.ctr + 1 < U32
    ensures Encoded(Accepted(s, k, c, op).host, Accepted(s, k, c, op).hist.submitted, pool)
  {
    hide Encodable, Placed, TagsEncodable, SplitEncodable;
    ReleaseEncodable(k, s.host.page, pool, TIMELINE, s.host.ctr + 1);
  }

  lemma LaunchEncoded(s: State, r: LaunchReq, pool: nat)
    requires Encoded(s.host, s.hist.submitted, pool) && s.host.ctr + 1 < U32
    requires Verdict(s.host, r) == Success ==> QmdAddr(s.host, r) % 0x100 == 0 && QmdAddr(s.host, r) < ADDRESS_SPACE
    ensures Encoded(LaunchNext(s, r).host, LaunchNext(s, r).hist.submitted, pool)
  {
    hide AllEncodable, TagsEncodable, SplitEncodable, Placed, LaunchPrefix, Accepted, SwitchedHost;
    SwitchedEncoded(s.host, s.hist.submitted, Compute, pool);
    PrefixEncoded(s, r, pool);
    PrefixFramed(s, r);
    var p := WithArgs(LaunchPrefix(s, r), r);
    assert Encoded(p.host, p.hist.submitted, pool);
    if Verdict(s.host, r) == Success {
      AcceptedEncoded(p, Compute, Launch(s.host.ctr + 1, QmdAddr(s.host, r)), LaunchOp(s.host, r), pool);
    }
  }

  lemma CopyEncoded(s: State, q: CopyReq, pool: nat)
    requires Encoded(s.host, s.hist.submitted, pool) && s.host.ctr + 1 < U32 && q.src < COPY_SPACE && q.dst < COPY_SPACE
    ensures Encoded(CopyNext(s, q).host, CopyNext(s, q).hist.submitted, pool)
  {
    hide AllEncodable, TagsEncodable, SplitEncodable, Placed, Accepted, SwitchedHost;
    SwitchedEncoded(s.host, s.hist.submitted, Dma, pool);
    if CopyStatus(q) == Success {
      var c := Copy(s.host.ctr + 1, q.src, q.dst, q.len);
      assert Encodable(Dma, c, pool);
      assert Switched(s, Dma).host.ctr == s.host.ctr by { SwitchedCounter(s.host, Dma); }
      AcceptedEncoded(Switched(s, Dma), Dma, c, Op(Dma, q.sync, 0, 0), pool);
    }
  }

  lemma SwitchedCounter(h: Host, k: Kind)
    ensures SwitchedHost(h, k).ctr == h.ctr
  {
  }

  lemma RecordEncoded(s: State, pool: nat)
    requires Encoded(s.host, s.hist.submitted, pool)
    ensures Encoded(RecordNext(s).host, RecordNext(s).hist.submitted, pool)
  {
    hide Encodable, AllEncodable, TagsEncodable, SplitEncodable, Placed;
    if s.host.free != [] {
      var sig, k := s.host.free[0], RecordKind(s.host);
      assert sig in s.host.free && forall e | e in s.host.free[1..] :: e in s.host.free;
      ReleaseEncodable(k, s.host.page, pool, sig, 1);
      EnqueueEncoded(s, k, Release(sig, 1), pool);
    }
  }

  lemma SingleEncoded(s: State, pool: nat)
    requires Encoded(s.host, s.hist.submitted, pool)
    ensures Encoded(CommenceSingleNext(s).host, CommenceSingleNext(s).hist.submitted, pool)
  {
    hide Encodable, TagsEncodable, SplitEncodable, Placed;
    if s.host.mode.Mode? {
      var k := s.host.mode.kind;
      var cmds := Buf(s.host, k) + Owed(s.host.ctr, s.host.pending);
      OwedEncodable(k, Buf(s.host, k), s.host.page, pool, s.host.ctr, s.host.pending);
      var s1 := s.(host := Cleared(s.host, k).(pending := false), hist := s.hist.(log := []));
      assert Encoded(s1.host, s1.hist.submitted, pool);
      SubmittedEncoded(s1, k, cmds, s.host.ctr, pool);
    }
  }

  lemma SplitSubmitted(s: State, i: nat, pool: nat)
    requires Encoded(s.host, s.hist.submitted, pool) && i < |s.host.backlog|
    ensures Encoded(SubmitSplit(s, i).host, SubmitSplit(s, i).hist.submitted, pool)
  {
    hide Encodable, AllEncodable, TagsEncodable, Placed;
    var sp := s.host.backlog[i];
    assert SplitEncodable(sp, pool);
    OwedEncodable(sp.kind, sp.buf, s.host.page, pool, sp.ctr, sp.owes);
    SubmittedEncoded(s, sp.kind, Full(sp), sp.ctr, pool);
  }

  lemma BindEncoded(s: State, k: Kind, ms: seq<Method>, pool: nat)
    requires Encoded(s.host, s.hist.submitted, pool) && SetupOk(k, ms) && s.host.ctr + 1 < U32
    ensures Encoded(BindNext(s, k, ms).host, BindNext(s, k, ms).hist.submitted, pool)
  {
    hide TagsEncodable, SplitEncodable, Placed, SetupOk;
    var n := s.host.ctr + 1;
    var s1 := s.(host := s.host.(ctr := n), hist := s.hist.(ops := s.hist.ops + [Op(k, true, 0, 0)]));
    assert Encodable(k, Bind(n, ms), pool);
    ReleaseEncodable(k, s.host.page, pool, TIMELINE, n);
    hide Encodable;
    SubmittedEncoded(s1, k, [Bind(n, ms), Release(TIMELINE, n)], n, pool);
  }

  lemma StepEncoded(s: State, st: Step, pool: nat)
    requires Encoded(s.host, s.hist.submitted, pool) && Enabled(s, st) && Asked(st)
    requires st.LaunchStep? && Verdict(s.host, st.launch) == Success ==>
               QmdAddr(s.host, st.launch) % 0x100 == 0 && QmdAddr(s.host, st.launch) < ADDRESS_SPACE
    ensures Encoded(Next(s, st).host, Next(s, st).hist.submitted, pool)
  {
    hide AllEncodable, TagsEncodable, SplitEncodable, Placed, LaunchNext, CopyNext, RecordNext, CommenceSingleNext,
      BindNext, SubmitSplit, SetupOk, Backlogged;
    match st
    case LaunchStep(r) => LaunchEncoded(s, r, pool);
    case CopyStep(q) => CopyEncoded(s, q, pool);
    case RecordStep => RecordEncoded(s, pool);
    case CommenceSingleStep => SingleEncoded(s, pool);
    case CommenceBacklogStep =>
      BackloggedEncoded(s.host, s.hist.submitted, Compute, pool);
      BackloggedEncoded(Backlogged(s.host, Compute), s.hist.submitted, Dma, pool);
      var s1 := s.(host := Backlogged(Backlogged(s.host, Compute), Dma), hist := s.hist.(log := []));
      BackloggedLength(s.host);
      SplitSubmitted(s1, 0, pool);
    case DrainStep =>
      if s.phase.i + 1 < |s.host.backlog| { SplitSubmitted(s, s.phase.i + 1, pool); }
    case AwaitStep =>
    case BindStep(k, ms) => BindEncoded(s, k, ms, pool);
    case GpuStep(a) =>
  }

  lemma BackloggedLength(h: Host)
    ensures |Backlogged(Backlogged(h, Compute), Dma).backlog| >= |h.backlog|
  {
  }

  // ------------------------------------------------------------------ the runs

  /** In every run, everything enqueued and everything submitted can be encoded. */
  lemma {:induction false} RunEncoded(r: Run, i: nat, pool: nat)
    requires IsRun(r) && i < |r.states| && Placed(r.states[0].host.page, pool)
    requires forall j | 0 <= j < |r.steps| :: Asked(r.steps[j])
    ensures Encoded(r.states[i].host, r.states[i].hist.submitted, pool)
  {
    hide Next, Encodable, Asked, Enabled, Disciplined, Verdict, QmdAddr, LaunchOp;
    if i == 0 {
      assert r.states[0].host.free == InitialFree();
    } else {
      var s, st := r.states[i - 1], r.steps[i - 1];
      RunEncoded(r, i - 1, pool);
      assert Legal(s, st, r.states[i]);
      if st.LaunchStep? && Verdict(s.host, st.launch) == Success {
        VerdictNeedsBank(s.host, st.launch);
        QmdPlacement(r, i - 1, st.launch);
      }
      StepEncoded(s, st, pool);
    }
  }

  lemma VerdictNeedsBank(h: Host, r: LaunchReq)
    ensures Verdict(h, r) == Success ==> r.kernel.constants != []
  {
  }

  lemma {:induction false} ProjectEncodable(ts: seq<Tagged>, k: Kind, pool: nat)
    requires TagsEncodable(ts, pool)
    ensures forall i | 0 <= i < |Project(ts, k)| :: Encodable(k, Project(ts, k)[i], pool)
  {
    hide Encodable;
    if ts == [] {
    } else {
      assert ts[0] in ts;
      assert forall t | t in ts[1..] :: t in ts;
      ProjectEncodable(ts[1..], k, pool);
    }
  }

  /** All that a run ever submits to a channel, as words: the host engine splits them into the methods
      the queue wrote, and running those has exactly the effects of the submitted commands. */
  lemma SubmittedWordsMean(r: Run, i: nat, k: Kind, pool: nat, regs: Regs)
    requires IsRun(r) && i < |r.states| && Placed(r.states[0].host.page, pool)
    requires forall j | 0 <= j < |r.steps| :: Asked(r.steps[j])
    ensures var cmds := Project(r.states[i].hist.submitted, k);
            && Parse(WordsOf(k, cmds, pool)).Methods?
            && RunMethods(k, Parse(WordsOf(k, cmds, pool)).methods, regs).effects == AllMeanings(k, cmds, pool)
  {
    hide Encodable, Parse, RunMethods, WordsOf, AllMeanings, IsRun, Placed;
    RunEncoded(r, i, pool);
    ProjectEncodable(r.states[i].hist.submitted, k, pool);
    WordsMean(k, Project(r.states[i].hist.submitted, k), pool, regs);
  }
}
