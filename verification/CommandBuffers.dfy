/** The two command buffers of NvCommandQueue as the words they really hold. Every method appends
    the words of the command of the stream engine that it stands for. */
module CommandBuffers {
  import opened Results
  import opened Bits
  import opened Commands
  import opened Stream
  import opened PushBuffer
  import opened Hardware
  import opened CommandWords

  class CommandBuffers {
    var computeCommandBuffer: seq<nat>
    var dmaCommandBuffer: seq<nat>
    const signalPool: nat

    constructor (pool: nat)
      ensures computeCommandBuffer == [] && dmaCommandBuffer == [] && signalPool == pool
    {
      computeCommandBuffer, dmaCommandBuffer := [], [];
      signalPool := pool;
    }

    function Words(kind: Kind): seq<nat>
      reads this
    {
      if kind == Compute then computeCommandBuffer else dmaCommandBuffer
    }

    method PushBack(w: nat, kind: Kind)
      modifies this
      ensures Words(kind) == old(Words(kind)) + [w] && Words(kind.Other()) == old(Words(kind.Other()))
    {
      match kind {
        case Compute => computeCommandBuffer := computeCommandBuffer + [w];
        case Dma => dmaCommandBuffer := dmaCommandBuffer + [w];
      }
    }

    /** enqueue: the header is appended before the arguments are counted, and stays when the count
        does not match. */
    method Enqueue(header: nat, arguments: seq<nat>, kind: Kind) returns (st: Status)
      modifies this
      ensures st == if header / 0x1_0000 % 0x1000 == |arguments| then Success else InvalidValue
      ensures Words(kind) == old(Words(kind)) + [header % U32] + (if st == Success then arguments else [])
      ensures Words(kind.Other()) == old(Words(kind.Other()))
    {
      PushBack(header % U32, kind);
      if header / 0x1_0000 % 0x1000 != |arguments| {
        return InvalidValue;
      }
      for i := 0 to |arguments|
        invariant Words(kind) == old(Words(kind)) + [header % U32] + arguments[..i]
        invariant Words(kind.Other()) == old(Words(kind.Other()))
      {
        PushBack(arguments[i], kind);
      }
      st := Success;
    }

    /** An enqueue whose header was made for its arguments. */
    method Write(m: Method, kind: Kind)
      requires InRange(m)
      modifies this
      ensures Words(kind) == old(Words(kind)) + Encode(m) && Words(kind.Other()) == old(Words(kind.Other()))
    {
      hide MakeNvMethod;
      HeaderFields(m);
      var st := Enqueue(MakeNvMethod(m.subchannel, m.address, |m.args|, 2), m.args, kind);
    }

    /** Several enqueues in a row. */
    method WriteAll(ms: seq<Method>, kind: Kind)
      requires forall i | 0 <= i < |ms| :: InRange(ms[i])
      modifies this
      ensures Words(kind) == old(Words(kind)) + EncodeAll(ms) && Words(kind.Other()) == old(Words(kind.Other()))
    {
      hide InRange, Encode;
      for i := 0 to |ms|
        invariant Words(kind) == old(Words(kind)) + EncodeAll(ms[..i]) && Words(kind.Other()) == old(Words(kind.Other()))
      {
        Write(ms[i], kind);
        assert ms[..i + 1] == ms[..i] + [ms[i]];
        EncodeAppend(ms[..i], [ms[i]]);
        EncodeOne(ms[i]);
      }
      assert ms[..|ms|] == ms;
    }

    lemma EncodeOne(m: Method)
      ensures EncodeAll([m]) == Encode(m)
    {
      assert [m][1..] == [] && Encode(m) + [] == Encode(m);
    }

    method SignalNotify(sig: nat, target: nat, kind: Kind)
      requires Encodable(kind, Release(sig, target), signalPool)
      modifies this
      ensures Words(kind) == old(Words(kind)) + EncodeAll(MethodsOf(kind, Release(sig, target), signalPool))
      ensures Words(kind.Other()) == old(Words(kind.Other()))
    {
      hide Encodable, Encode, InRange;
      var addr := SignalAddr(signalPool, sig);
      MethodsInRange(kind, Release(sig, target), signalPool);
      match kind {
        case Compute =>
          var ms := [Method(0, SEM_ADDR_LO, [Lo(addr), Hi(addr), target, 0, RELEASE_WORD]), Method(4, 0x20, [0])];
          assert ms == MethodsOf(Compute, Release(sig, target), signalPool);
          WriteAll(ms, kind);
        case Dma =>
          var ms := [Method(4, SET_SEMAPHORE_A, [Hi(addr), Lo(addr), target]), Method(4, LAUNCH_DMA, [COPY_RELEASE_WORD])];
          assert ms == MethodsOf(Dma, Release(sig, target), signalPool);
          WriteAll(ms, kind);
      }
    }

    method SignalWaitGpu(sig: nat, target: nat, seen: nat)
      requires Encodable(Compute, Acquire(sig, target), signalPool)
      modifies this
      ensures Words(Compute) == old(Words(Compute)) +
                if seen == target then [] else EncodeAll(MethodsOf(Compute, Acquire(sig, target), signalPool))
      ensures Words(Dma) == old(Words(Dma))
    {
      hide Encodable, Encode, InRange;
      if seen == target {
        return;
      }
      var addr := SignalAddr(signalPool, sig);
      MethodsInRange(Compute, Acquire(sig, target), signalPool);
      var ms := [Method(0, SEM_ADDR_LO, [Lo(addr), Hi(addr), target, 0, ACQUIRE_WORD])];
      assert ms == MethodsOf(Compute, Acquire(sig, target), signalPool);
      WriteAll(ms, Compute);
    }

    /** The words of gpuMemcpy. */
    method EnqueueCopy(dst: nat, src: nat, numBytes: nat)
      requires Encodable(Dma, Copy(0, src, dst, numBytes), signalPool)
      modifies this
      ensures Words(Dma) == old(Words(Dma)) + EncodeAll(MethodsOf(Dma, Copy(0, src, dst, numBytes), signalPool))
      ensures Words(Compute) == old(Words(Compute))
    {
      hide Encodable, Encode, InRange;
      MethodsInRange(Dma, Copy(0, src, dst, numBytes), signalPool);
      var ms := [Method(4, OFFSET_IN_UPPER, [Hi(src), Lo(src), Hi(dst), Lo(dst)]),
                 Method(4, LINE_LENGTH_IN, [Lo(numBytes)]),
                 Method(4, LAUNCH_DMA, [0x2 + 0x80 + 0x100])];
      assert ms == MethodsOf(Dma, Copy(0, src, dst, numBytes), signalPool);
      WriteAll(ms, Dma);
    }

    /** The words with which launchFunction starts a QMD. */
    method EnqueueLaunch(qmdAddr: nat)
      requires Encodable(Compute, Launch(0, qmdAddr), signalPool)
      modifies this
      ensures Words(Compute) == old(Words(Compute)) + EncodeAll(MethodsOf(Compute, Launch(0, qmdAddr), signalPool))
      ensures Words(Dma) == old(Words(Dma))
    {
      hide Encodable, Encode, InRange;
      MethodsInRange(Compute, Launch(0, qmdAddr), signalPool);
      var ms := [Method(1, 0x1698, [0x1000 + 0x10 + 0x1]),
                 Method(1, SEND_PCAS_A, [qmdAddr / 0x100 % U32]),
                 Method(1, SEND_SIGNALING_PCAS2_B, [9])];
      assert ms == MethodsOf(Compute, Launch(0, qmdAddr), signalPool);
      WriteAll(ms, Compute);
    }
  }

  /** Whatever a well-formed buffer held before, a release appended to it is read as that release
      after everything else. */
  lemma NotifyKeepsReading(k: Kind, ws: seq<nat>, sig: nat, v: nat, pool: nat, r: Regs)
    requires Parse(ws).Methods? && Encodable(k, Release(sig, v), pool)
    ensures var ms := MethodsOf(k, Release(sig, v), pool);
            && Parse(ws + EncodeAll(ms)) == Methods(Parse(ws).methods + ms)
            && RunMethods(k, Parse(ws).methods + ms, r).effects
               == RunMethods(k, Parse(ws).methods, r).effects + MeaningOf(k, Release(sig, v), pool)
  {
    hide Encodable, Parse, RunMethods, InRange, MethodsOf;
    var c := Release(sig, v);
    MethodsInRange(k, c, pool);
    RoundTrip(MethodsOf(k, c, pool));
    ParseConcat(ws, EncodeAll(MethodsOf(k, c, pool)));
    RunAppend(k, Parse(ws).methods, MethodsOf(k, c, pool), r);
    CommandMeans(k, c, pool, RunMethods(k, Parse(ws).methods, r).regs);
  }

  // ------------------------------------------------- the set-up sequences

  const LOCAL_MEM_WINDOW: nat := 0xff00_0000
  const SHARED_MEM_WINDOW: nat := 0xfe00_0000

  function ComputeSetup(computeClass: nat): seq<Method> {
    [Method(1, 0x0, [computeClass]),
     Method(1, 0x7b0, [Hi(LOCAL_MEM_WINDOW), Lo(LOCAL_MEM_WINDOW)]),
     Method(1, 0x2a0, [Hi(SHARED_MEM_WINDOW), Lo(SHARED_MEM_WINDOW)])]
  }

  function CopySetup(copyClass: nat): seq<Method> {
    [Method(4, 0x0, [copyClass])]
  }

  /** None of the set-up sequences can start, copy, release or acquire anything. */
  lemma SetupsHarmless(computeClass: nat, copyClass: nat, va: nat, bytesPerTpc: nat, r: Regs)
    requires computeClass < U32 && copyClass < U32
    ensures RunMethods(Compute, ComputeSetup(computeClass), r).effects == []
    ensures RunMethods(Dma, CopySetup(copyClass), r).effects == []
    ensures RunMethods(Compute, LocalMemSetup(va, bytesPerTpc), r).effects == []
  {
    hide RunMethods;
    SetupMeans(Compute, ComputeSetup(computeClass), r);
    SetupMeans(Dma, CopySetup(copyClass), r);
    SetupMeans(Compute, LocalMemSetup(va, bytesPerTpc), r);
  }

  lemma PairRegister(a: nat, v: nat, tail: seq<nat>, r: Regs)
    requires v < U64
    ensures var r' := RunArgs(Compute, 1, a, [Hi(v), Lo(v)] + tail, r).regs;
            Reg(r', a) * U32 + Reg(r', a + 4) == v
  {
    hide RunArgs, Hi, Lo;
    Reads(Compute, 1, a, [Hi(v), Lo(v)] + tail, r, a);
    Reads(Compute, 1, a, [Hi(v), Lo(v)] + tail, r, a + 4);
    HiLo(v);
  }

  /** After the local-memory set-up of a launch the registers hold, high half first, the address of the
      new memory and the bytes per texture cluster that its size asks for. */
  lemma LocalMemRegisters(q: LaunchReq, r: Regs)
    requires q.slm.At? && q.slm.va < U64 && BytesPerTpc(RoundUp(q.kernel.localMem, 32)) < U64
    ensures LocalMemCommand(q).Setup?
    ensures var r' := RunMethods(Compute, LocalMemCommand(q).methods, r).regs;
            && Reg(r', 0x790) * 0x1_0000_0000 + Reg(r', 0x794) == q.slm.va
            && Reg(r', 0x2e4) * 0x1_0000_0000 + Reg(r', 0x2e8) == BytesPerTpc(RoundUp(q.kernel.localMem, 32))
  {
    hide RunMethods, RunArgs, Hi, Lo, BytesPerTpc, RoundUp;
    var va, bytes := q.slm.va, BytesPerTpc(RoundUp(q.kernel.localMem, 32));
    var ms := LocalMemSetup(va, bytes);
    assert ms == [ms[0]] + [ms[1]];
    RunAppend(Compute, [ms[0]], [ms[1]], r);
    OneMethod(Compute, ms[0], r);
    var r1 := RunArgs(Compute, 1, 0x790, ms[0].args, r).regs;
    OneMethod(Compute, ms[1], r1);
    assert ms[0].args == [Hi(va), Lo(va)] + [];
    PairRegister(0x790, va, [], r);
    assert ms[1].args == [Hi(bytes), Lo(bytes)] + [0x40];
    PairRegister(0x2e4, bytes, [0x40], r1);
    Reads(Compute, 1, 0x2e4, ms[1].args, r1, 0x790);
    Reads(Compute, 1, 0x2e4, ms[1].args, r1, 0x794);
  }

  /** After the compute set-up the registers hold the class and the two windows that a kernel is told
      about in its block. */
  lemma WindowRegisters(computeClass: nat, r: Regs)
    ensures var r' := RunMethods(Compute, ComputeSetup(computeClass), r).regs;
            && Reg(r', 0) == computeClass
            && Reg(r', 0x7b0) * 0x1_0000_0000 + Reg(r', 0x7b4) == 0xff00_0000
            && Reg(r', 0x2a0) * 0x1_0000_0000 + Reg(r', 0x2a4) == 0xfe00_0000
  {
    hide RunMethods, RunArgs, Hi, Lo;
    var ms := ComputeSetup(computeClass);
    assert ms == [ms[0]] + ([ms[1]] + [ms[2]]);
    RunAppend(Compute, [ms[0]], [ms[1]] + [ms[2]], r);
    OneMethod(Compute, ms[0], r);
    var r1 := RunArgs(Compute, 1, 0, ms[0].args, r).regs;
    RunAppend(Compute, [ms[1]], [ms[2]], r1);
    OneMethod(Compute, ms[1], r1);
    var r2 := RunArgs(Compute, 1, 0x7b0, ms[1].args, r1).regs;
    OneMethod(Compute, ms[2], r2);
    assert ms[1].args == [Hi(LOCAL_MEM_WINDOW), Lo(LOCAL_MEM_WINDOW)] + [];
    assert ms[2].args == [Hi(SHARED_MEM_WINDOW), Lo(SHARED_MEM_WINDOW)] + [];
    PairRegister(0x7b0, LOCAL_MEM_WINDOW, [], r1);
    PairRegister(0x2a0, SHARED_MEM_WINDOW, [], r2);
    Reads(Compute, 1, 0, ms[0].args, r, 0);
    Reads(Compute, 1, 0x7b0, ms[1].args, r1, 0);
    Reads(Compute, 1, 0x2a0, ms[2].args, r2, 0);
    Reads(Compute, 1, 0x2a0, ms[2].args, r2, 0x7b0);
    Reads(Compute, 1, 0x2a0, ms[2].args, r2, 0x7b4);
  }
}
