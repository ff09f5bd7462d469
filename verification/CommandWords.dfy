/** The words behind the commands of the stream engine: the methods the queue writes for each
    command, and the proof that the hardware reads every command list as what it stands for. */
module CommandWords {
  import opened Bits
  import opened Commands
  import opened Stream
  import opened StreamFlow
  import opened PushBuffer
  import opened Hardware

  /** Signal number sig of the pool; a signal is a value and a time stamp of 8 bytes each. */
  function SignalAddr(pool: nat, sig: nat): nat {
    pool + 16 * sig
  }

  const RELEASE_WORD: nat := 0x310_0001   // RELEASE, WFI, 64-bit payload, time stamp
  const ACQUIRE_WORD: nat := 0x100_0000   // ACQUIRE, 64-bit payload
  const COPY_WORD: nat := 0x182           // non-pipelined transfer between two pitch layouts
  const COPY_RELEASE_WORD: nat := 0x14    // no transfer, flush, four-word semaphore release

  function ReleaseMethods(k: Kind, addr: nat, value: nat): seq<Method> {
    match k
    case Compute => [Method(0, SEM_ADDR_LO, [Lo(addr), Hi(addr), value, 0, RELEASE_WORD]), Method(4, 0x20, [0])]
    case Dma => [Method(4, SET_SEMAPHORE_A, [Hi(addr), Lo(addr), value]), Method(4, LAUNCH_DMA, [COPY_RELEASE_WORD])]
  }

  function AcquireMethods(addr: nat, value: nat): seq<Method> {
    [Method(0, SEM_ADDR_LO, [Lo(addr), Hi(addr), value, 0, ACQUIRE_WORD])]
  }

  function CopyMethods(src: nat, dst: nat, len: nat): seq<Method> {
    [Method(4, OFFSET_IN_UPPER, [Hi(src), Lo(src), Hi(dst), Lo(dst)]),
     Method(4, LINE_LENGTH_IN, [Lo(len)]),
     Method(4, LAUNCH_DMA, [COPY_WORD])]
  }

  function LaunchMethods(qmd: nat): seq<Method> {
    [Method(1, INVALIDATE_SHADER_CACHES_NO_WFI, [0x1011]),
     Method(1, SEND_PCAS_A, [Lo(qmd / 0x100)]),
     Method(1, SEND_SIGNALING_PCAS2_B, [9])]
  }

  function MethodsOf(k: Kind, c: Command, pool: nat): seq<Method> {
    match c
    case Bind(_, ms) => ms
    case Setup(ms) => ms
    case Launch(_, qmd) => LaunchMethods(qmd)
    case Copy(_, src, dst, len) => CopyMethods(src, dst, len)
    case Release(sig, v) => ReleaseMethods(k, SignalAddr(pool, sig), v)
    case Acquire(sig, v) => AcquireMethods(SignalAddr(pool, sig), v)
  }

  function AllMethods(k: Kind, cmds: seq<Command>, pool: nat): seq<Method> {
    if cmds == [] then [] else MethodsOf(k, cmds[0], pool) + AllMethods(k, cmds[1..], pool)
  }

  /** The words of a command list. */
  function WordsOf(k: Kind, cmds: seq<Command>, pool: nat): seq<nat> {
    EncodeAll(AllMethods(k, cmds, pool))
  }

  // ------------------------------------------------------------ what they mean

  function MeaningOf(k: Kind, c: Command, pool: nat): seq<Effect> {
    match c
    case Bind(_, _) => []
    case Setup(_) => []
    case Launch(_, qmd) => [Invalidate(true, true, true), RunKernel(qmd)]
    case Copy(_, src, dst, len) => [Transfer(src, dst, len, false)]
    case Release(sig, v) =>
      if k == Compute then [SemRelease(SignalAddr(pool, sig), v, true, true)]
      else [CopyRelease(SignalAddr(pool, sig), v, true)]
    case Acquire(sig, v) => [SemAcquire(SignalAddr(pool, sig), v)]
  }

  function AllMeanings(k: Kind, cmds: seq<Command>, pool: nat): seq<Effect> {
    if cmds == [] then [] else MeaningOf(k, cmds[0], pool) + AllMeanings(k, cmds[1..], pool)
  }

  predicate SetupOk(k: Kind, ms: seq<Method>) {
    forall i | 0 <= i < |ms| :: InRange(ms[i]) && Passive(k, ms[i].subchannel, ms[i].address, |ms[i].args|)
  }

  /** The addresses the hardware can take: 40 bits for QMDs and compute semaphores, 49 bits for
      the copy engine; 32-bit lengths and values. */
  predicate Encodable(k: Kind, c: Command, pool: nat) {
    && Fits(c, k)
    && match c
       case Bind(_, ms) => SetupOk(k, ms)
       case Setup(ms) => SetupOk(k, ms)
       case Launch(_, qmd) => qmd % 0x100 == 0 && qmd < 0x100_0000_0000
       case Copy(_, src, dst, len) => src < 0x2_0000_0000_0000 && dst < 0x2_0000_0000_0000 && len < U32
       case Release(sig, v) => pool % 16 == 0 && SignalAddr(pool, sig) < 0x100_0000_0000 && v < U32
       case Acquire(sig, v) => pool % 16 == 0 && SignalAddr(pool, sig) < 0x100_0000_0000 && v < U32
  }

  lemma HiLo(v: nat)
    ensures v < U32 * U32 ==> Hi(v) * U32 + Lo(v) == v
    ensures v < 0x100_0000_0000 ==> Hi(v) < 0x100
    ensures v < 0x2_0000_0000_0000 ==> Hi(v) < 0x2_0000
  {
  }

  lemma OneMethod(k: Kind, m: Method, r: Regs)
    ensures RunMethods(k, [m], r) == RunArgs(k, m.subchannel, m.address, m.args, r)
  {
    hide RunArgs;
    assert [m][1..] == [];
  }

  lemma OneWord(k: Kind, sub: nat, a: nat, w: nat, r: Regs)
    ensures RunArgs(k, sub, a, [w], r) == Outcome(r[a := w], Trigger(k, sub, a, w, r[a := w]))
  {
    hide Trigger;
    assert [w][1..] == [];
  }

  /** A burst of plain words followed by one that triggers. */
  lemma BurstThenTrigger(k: Kind, sub: nat, a: nat, args: seq<nat>, w: nat, r: Regs)
    requires Passive(k, sub, a, |args|)
    ensures var r1 := RunArgs(k, sub, a, args, r).regs;
            var x := a + 4 * |args|;
            RunArgs(k, sub, a, args + [w], r) == Outcome(r1[x := w], Trigger(k, sub, x, w, r1[x := w]))
  {
    hide Trigger, RunArgs, Passive;
    var x := a + 4 * |args|;
    RunArgsAppend(k, sub, a, args, [w], r);
    PassiveRun(k, sub, a, args, r);
    OneWord(k, sub, x, w, RunArgs(k, sub, a, args, r).regs);
  }

  /** The five words of a semaphore method on the compute channel. */
  lemma SemMeans(addr: nat, value: nat, w: nat, r: Regs)
    requires addr % 4 == 0 && addr < 0x100_0000_0000 && value < U32
    ensures var e := RunArgs(Compute, 0, SEM_ADDR_LO, [Lo(addr), Hi(addr), value, 0, w], r).effects;
            && (w == RELEASE_WORD ==> e == [SemRelease(addr, value, true, true)])
            && (w == ACQUIRE_WORD ==> e == [SemAcquire(addr, value)])
  {
    hide RunArgs, Hi, Lo, Reg;
    var args := [Lo(addr), Hi(addr), value, 0];
    assert [Lo(addr), Hi(addr), value, 0, w] == args + [w];
    BurstThenTrigger(Compute, 0, SEM_ADDR_LO, args, w, r);
    var r1 := RunArgs(Compute, 0, SEM_ADDR_LO, args, r).regs;
    SemRegs(addr, value, r, r1, w);
    HiLo(addr);
    LoWhole(addr);
  }

  lemma LoWhole(addr: nat)
    requires addr % 4 == 0
    ensures Lo(addr) / 4 * 4 == Lo(addr)
  {
  }

  lemma SemRegs(addr: nat, value: nat, r: Regs, r1: Regs, w: nat)
    requires r1 == RunArgs(Compute, 0, SEM_ADDR_LO, [Lo(addr), Hi(addr), value, 0], r).regs
    ensures var r2 := r1[SEM_EXECUTE := w];
            && Reg(r2, SEM_ADDR_LO) == Lo(addr) && Reg(r2, SEM_ADDR_HI) == Hi(addr)
            && Reg(r2, SEM_PAYLOAD_LO) == value && Reg(r2, SEM_PAYLOAD_HI) == 0
  {
    hide RunArgs, Hi, Lo;
    var args := [Lo(addr), Hi(addr), value, 0];
    Reads(Compute, 0, SEM_ADDR_LO, args, r, SEM_ADDR_LO);
    Reads(Compute, 0, SEM_ADDR_LO, args, r, SEM_ADDR_HI);
    Reads(Compute, 0, SEM_ADDR_LO, args, r, SEM_PAYLOAD_LO);
    Reads(Compute, 0, SEM_ADDR_LO, args, r, SEM_PAYLOAD_HI);
  }

  // ---------------------------------------------------- command by command

  lemma TwoMethods(k: Kind, m: Method, n: Method, r: Regs)
    requires Passive(k, m.subchannel, m.address, |m.args|)
    ensures RunMethods(k, [m, n], r).effects
            == RunArgs(k, n.subchannel, n.address, n.args, RunArgs(k, m.subchannel, m.address, m.args, r).regs).effects
  {
    hide RunArgs, Passive;
    assert [m, n] == [m] + [n];
    RunAppend(k, [m], [n], r);
    OneMethod(k, m, r);
    OneMethod(k, n, RunArgs(k, m.subchannel, m.address, m.args, r).regs);
    PassiveRun(k, m.subchannel, m.address, m.args, r);
  }

  lemma ComputeReleaseMeans(addr: nat, value: nat, r: Regs)
    requires addr % 4 == 0 && addr < 0x100_0000_0000 && value < U32
    ensures RunMethods(Compute, ReleaseMethods(Compute, addr, value), r).effects == [SemRelease(addr, value, true, true)]
  {
    hide RunArgs, Hi, Lo;
    var ms := ReleaseMethods(Compute, addr, value);
    assert ms == [ms[0]] + [ms[1]];
    RunAppend(Compute, [ms[0]], [ms[1]], r);
    OneMethod(Compute, ms[0], r);
    SemMeans(addr, value, RELEASE_WORD, r);
    var r1 := RunArgs(Compute, 0, SEM_ADDR_LO, ms[0].args, r).regs;
    OneMethod(Compute, ms[1], r1);
    PassiveRun(Compute, 4, 0x20, [0], r1);
  }

  lemma AcquireMeans(addr: nat, value: nat, r: Regs)
    requires addr % 4 == 0 && addr < 0x100_0000_0000 && value < U32
    ensures RunMethods(Compute, AcquireMethods(addr, value), r).effects == [SemAcquire(addr, value)]
  {
    hide RunArgs, Hi, Lo;
    OneMethod(Compute, AcquireMethods(addr, value)[0], r);
    SemMeans(addr, value, ACQUIRE_WORD, r);
  }

  lemma CopyReleaseMeans(addr: nat, value: nat, r: Regs)
    requires addr < 0x100_0000_0000 && value < U32
    ensures RunMethods(Dma, ReleaseMethods(Dma, addr, value), r).effects == [CopyRelease(addr, value, true)]
  {
    hide RunArgs, Hi, Lo;
    var args := [Hi(addr), Lo(addr), value];
    TwoMethods(Dma, Method(4, SET_SEMAPHORE_A, args), Method(4, LAUNCH_DMA, [COPY_RELEASE_WORD]), r);
    var r1 := RunArgs(Dma, 4, SET_SEMAPHORE_A, args, r).regs;
    OneWord(Dma, 4, LAUNCH_DMA, COPY_RELEASE_WORD, r1);
    Reads(Dma, 4, SET_SEMAPHORE_A, args, r, SET_SEMAPHORE_A);
    Reads(Dma, 4, SET_SEMAPHORE_A, args, r, SET_SEMAPHORE_B);
    Reads(Dma, 4, SET_SEMAPHORE_A, args, r, SET_SEMAPHORE_PAYLOAD);
    HiLo(addr);
  }

  lemma CopyMeans(src: nat, dst: nat, len: nat, r: Regs)
    requires src < 0x2_0000_0000_0000 && dst < 0x2_0000_0000_0000 && len < U32
    ensures RunMethods(Dma, CopyMethods(src, dst, len), r).effects == [Transfer(src, dst, len, false)]
  {
    hide RunArgs, Hi, Lo, RunMethods;
    var args := [Hi(src), Lo(src), Hi(dst), Lo(dst)];
    var ms := CopyMethods(src, dst, len);
    assert ms == [ms[0]] + [ms[1], ms[2]];
    RunAppend(Dma, [ms[0]], [ms[1], ms[2]], r);
    OneMethod(Dma, ms[0], r);
    PassiveRun(Dma, 4, OFFSET_IN_UPPER, args, r);
    var r1 := RunArgs(Dma, 4, OFFSET_IN_UPPER, args, r).regs;
    TwoMethods(Dma, ms[1], ms[2], r1);
    OneWord(Dma, 4, LINE_LENGTH_IN, Lo(len), r1);
    var r2 := r1[LINE_LENGTH_IN := Lo(len)];
    OneWord(Dma, 4, LAUNCH_DMA, COPY_WORD, r2);
    CopyRegs(src, dst, len, r, r1);
    HiLo(src);
    HiLo(dst);
    HiLo(len);
    assert Hi(len) == 0 by { LowOnly(len); }
  }

  lemma LowOnly(v: nat)
    requires v < U32
    ensures Hi(v) == 0
  {
  }

  lemma CopyRegs(src: nat, dst: nat, len: nat, r: Regs, r1: Regs)
    requires r1 == RunArgs(Dma, 4, OFFSET_IN_UPPER, [Hi(src), Lo(src), Hi(dst), Lo(dst)], r).regs
    ensures var r3 := r1[LINE_LENGTH_IN := Lo(len)][LAUNCH_DMA := COPY_WORD];
            && Reg(r3, OFFSET_IN_UPPER) == Hi(src) && Reg(r3, OFFSET_IN_LOWER) == Lo(src)
            && Reg(r3, OFFSET_OUT_UPPER) == Hi(dst) && Reg(r3, OFFSET_OUT_LOWER) == Lo(dst)
            && Reg(r3, LINE_LENGTH_IN) == Lo(len)
  {
    hide RunArgs, Hi, Lo;
    var args := [Hi(src), Lo(src), Hi(dst), Lo(dst)];
    Reads(Dma, 4, OFFSET_IN_UPPER, args, r, OFFSET_IN_UPPER);
    Reads(Dma, 4, OFFSET_IN_UPPER, args, r, OFFSET_IN_LOWER);
    Reads(Dma, 4, OFFSET_IN_UPPER, args, r, OFFSET_OUT_UPPER);
    Reads(Dma, 4, OFFSET_IN_UPPER, args, r, OFFSET_OUT_LOWER);
  }

  /** The hardware drops what its caches hold and starts the QMD that the 32-bit word names, whatever
      its address was. */
  lemma LaunchStarts(qmd: nat, r: Regs)
    ensures RunMethods(Compute, LaunchMethods(qmd), r).effects
            == [Invalidate(true, true, true), RunKernel(Lo(qmd / 0x100) * 0x100)]
  {
    hide RunArgs, Hi, Lo, RunMethods;
    var ms := LaunchMethods(qmd);
    assert ms == [ms[0]] + [ms[1], ms[2]];
    RunAppend(Compute, [ms[0]], [ms[1], ms[2]], r);
    OneMethod(Compute, ms[0], r);
    OneWord(Compute, 1, INVALIDATE_SHADER_CACHES_NO_WFI, 0x1011, r);
    var r1 := RunArgs(Compute, 1, INVALIDATE_SHADER_CACHES_NO_WFI, [0x1011], r).regs;
    TwoMethods(Compute, ms[1], ms[2], r1);
    OneWord(Compute, 1, SEND_PCAS_A, Lo(qmd / 0x100), r1);
    OneWord(Compute, 1, SEND_SIGNALING_PCAS2_B, 9, r1[SEND_PCAS_A := Lo(qmd / 0x100)]);
  }

  /** It is the QMD that was meant exactly when the address is 256-aligned and below 2^40. */
  lemma LaunchMeansIff(qmd: nat, r: Regs)
    ensures RunMethods(Compute, LaunchMethods(qmd), r).effects == [Invalidate(true, true, true), RunKernel(qmd)]
            <==> qmd % 0x100 == 0 && qmd < 0x100_0000_0000
  {
    hide RunMethods;
    LaunchStarts(qmd, r);
  }

  lemma {:induction false} SetupMeans(k: Kind, ms: seq<Method>, r: Regs)
    requires SetupOk(k, ms)
    ensures RunMethods(k, ms, r).effects == []
    decreases |ms|
  {
    hide RunArgs, Passive, InRange;
    if ms == [] {
    } else {
      var m := ms[0];
      PassiveRun(k, m.subchannel, m.address, m.args, r);
      SetupMeans(k, ms[1..], RunArgs(k, m.subchannel, m.address, m.args, r).regs);
    }
  }

  lemma SignalAligned(pool: nat, sig: nat)
    requires pool % 16 == 0
    ensures SignalAddr(pool, sig) % 4 == 0
  {
    var q := pool / 16;
    assert pool + 16 * sig == 4 * (4 * q + 4 * sig);
  }

  /** The hardware reads the words of one command as that command, whatever its registers held. */
  lemma CommandMeans(k: Kind, c: Command, pool: nat, r: Regs)
    requires Encodable(k, c, pool)
    ensures RunMethods(k, MethodsOf(k, c, pool), r).effects == MeaningOf(k, c, pool)
  {
    hide RunMethods, LaunchMethods, CopyMethods, ReleaseMethods, AcquireMethods, SetupOk, SignalAddr;
    if c.Release? || c.Acquire? { SignalAligned(pool, c.sig); }
    match c
    case Bind(_, ms) => SetupMeans(k, ms, r);
    case Setup(ms) => SetupMeans(k, ms, r);
    case Launch(_, qmd) => LaunchMeansIff(qmd, r);
    case Copy(_, src, dst, len) => CopyMeans(src, dst, len, r);
    case Release(sig, v) =>
      if k == Compute { ComputeReleaseMeans(SignalAddr(pool, sig), v, r); }
      else { CopyReleaseMeans(SignalAddr(pool, sig), v, r); }
    case Acquire(sig, v) => AcquireMeans(SignalAddr(pool, sig), v, r);
  }

  lemma MethodsInRange(k: Kind, c: Command, pool: nat)
    requires Encodable(k, c, pool)
    ensures forall i | 0 <= i < |MethodsOf(k, c, pool)| :: InRange(MethodsOf(k, c, pool)[i])
  {
  }

  lemma {:induction false} AllInRange(k: Kind, cmds: seq<Command>, pool: nat)
    requires forall i | 0 <= i < |cmds| :: Encodable(k, cmds[i], pool)
    ensures forall i | 0 <= i < |AllMethods(k, cmds, pool)| :: InRange(AllMethods(k, cmds, pool)[i])
  {
    hide InRange, Encodable, MethodsOf;
    if cmds == [] {
    } else {
      MethodsInRange(k, cmds[0], pool);
      AllInRange(k, cmds[1..], pool);
    }
  }

  lemma {:induction false} AllMean(k: Kind, cmds: seq<Command>, pool: nat, r: Regs)
    requires forall i | 0 <= i < |cmds| :: Encodable(k, cmds[i], pool)
    ensures RunMethods(k, AllMethods(k, cmds, pool), r).effects == AllMeanings(k, cmds, pool)
    decreases |cmds|
  {
    hide Encodable, MethodsOf, MeaningOf, RunArgs;
    if cmds == [] {
    } else {
      var ms := MethodsOf(k, cmds[0], pool);
      CommandMeans(k, cmds[0], pool, r);
      RunAppend(k, ms, AllMethods(k, cmds[1..], pool), r);
      AllMean(k, cmds[1..], pool, RunMethods(k, ms, r).regs);
    }
  }

  /** A whole submission: its words are split into the methods the queue wrote, and running them
      has exactly the effects its commands stand for, in their order. */
  lemma WordsMean(k: Kind, cmds: seq<Command>, pool: nat, r: Regs)
    requires forall i | 0 <= i < |cmds| :: Encodable(k, cmds[i], pool)
    ensures Parse(WordsOf(k, cmds, pool)).Methods?
    ensures RunMethods(k, Parse(WordsOf(k, cmds, pool)).methods, r).effects == AllMeanings(k, cmds, pool)
  {
    hide Encodable, Parse, RunMethods, InRange;
    AllInRange(k, cmds, pool);
    RoundTrip(AllMethods(k, cmds, pool));
    AllMean(k, cmds, pool, r);
  }

  /** Every kernel is started right after all shader caches were invalidated. */
  predicate FreshStarts(es: seq<Effect>) {
    forall i | 0 <= i < |es| && es[i].RunKernel? :: i > 0 && es[i - 1] == Invalidate(true, true, true)
  }

  lemma {:induction false} MeaningsFresh(k: Kind, cmds: seq<Command>, pool: nat)
    ensures FreshStarts(AllMeanings(k, cmds, pool))
    decreases |cmds|
  {
    if cmds == [] {
    } else {
      MeaningsFresh(k, cmds[1..], pool);
      FreshAppend(MeaningOf(k, cmds[0], pool), AllMeanings(k, cmds[1..], pool));
    }
  }

  lemma FreshAppend(a: seq<Effect>, b: seq<Effect>)
    requires FreshStarts(a) && FreshStarts(b)
    ensures FreshStarts(a + b)
  {
    var es := a + b;
    forall i | 0 <= i < |es| && es[i].RunKernel? ensures i > 0 && es[i - 1] == Invalidate(true, true, true) {
      if i >= |a| { assert b[i - |a|].RunKernel?; }
    }
  }

  /** In the words of any command list, whatever was in the registers: no kernel runs on stale caches. */
  lemma WordsFresh(k: Kind, cmds: seq<Command>, pool: nat, r: Regs)
    requires forall i | 0 <= i < |cmds| :: Encodable(k, cmds[i], pool)
    ensures Parse(WordsOf(k, cmds, pool)).Methods?
    ensures FreshStarts(RunMethods(k, Parse(WordsOf(k, cmds, pool)).methods, r).effects)
  {
    hide Encodable, Parse, RunMethods, WordsOf, FreshStarts, AllMeanings;
    WordsMean(k, cmds, pool, r);
    MeaningsFresh(k, cmds, pool);
  }

  // -------------------------------------------------- the GPU model's rules

  /** When the hardware lets an effect happen on a channel of the GPU model. */
  predicate Ready(g: Gpu, k: Kind, pool: nat, e: Effect) {
    match e
    case SemRelease(_, _, waits, _) => waits ==> Ch(g, k).running == {}
    case SemAcquire(a, v) => a >= pool && Val(g, (a - pool) / 16) == v
    case Invalidate(_, _, _) => true
    case RunKernel(_) => true
    case Transfer(_, _, _, pipelined) => pipelined || Ch(g, k).running == {}
    case CopyRelease(_, _, _) => Ch(g, k).running == {}
    case _ => false
  }

  /** A command may be fetched in the GPU model exactly when its words may take effect: the release
      waits because bit 20 is set, the acquire waits for equality because it is a plain ACQUIRE,
      and the transfer waits because it is non-pipelined. */
  lemma FetchRule(g: Gpu, k: Kind, c: Command, pool: nat)
    requires Encodable(k, c, pool)
    ensures HeadEnabled(g, k, c) <==> forall i | 0 <= i < |MeaningOf(k, c, pool)| :: Ready(g, k, pool, MeaningOf(k, c, pool)[i])
  {
    if c.Acquire? {
      assert MeaningOf(k, c, pool)[0] == SemAcquire(SignalAddr(pool, c.sig), c.value);
    } else if c.Launch? {
      assert HeadEnabled(g, k, c);
    } else if !c.Setup? && !c.Bind? {
      var e := MeaningOf(k, c, pool)[0];
      assert HeadEnabled(g, k, c) <==> Ready(g, k, pool, e);
    }
  }
}
