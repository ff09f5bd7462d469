/** What one call puts into the buffers, in terms of its own arguments: the operands of a copy, the
    address of a launch's QMD, the local memory it gets, and the status of every call. */
module StreamOperands {
  import opened Results
  import opened Bits
  import opened Commands
  import opened Stream
  import opened StreamSteps
  import opened StreamOvertake
  import KernArgs
  import LaunchBlock
  import QmdLaunch
  import QmdFields
  import Qmd

  // ------------------------------------------------------------------- copies

  /** A copy is refused exactly for a null address or a length of at least 2^32 - 1, and then changes
      nothing. Otherwise, whatever is queued, the DMA buffer grows by one transfer of q.len bytes from
      q.src to q.dst, and by its release when the copy is synchronous. */
  lemma CopyEnqueues(s: State, q: CopyReq)
    ensures var s', n := CopyNext(s, q), s.host.ctr + 1;
            if q.dst == 0 || q.src == 0 || q.len >= 0xffff_ffff then
              CopyStatus(q) == InvalidValue && s' == s
            else
              && CopyStatus(q) == Success
              && s'.host.dma == s.host.dma + [Copy(n, q.src, q.dst, q.len)] + (if q.sync then [Release(TIMELINE, n)] else [])
              && s'.host.ctr == n && s'.host.pending == !q.sync
              && s'.hist.ops == s.hist.ops + [Op(Dma, q.sync, 0, 0)] && s'.hist.submitted == s.hist.submitted
  {
    hide Tag, Dangle;
    var n, c := s.host.ctr + 1, Copy(s.host.ctr + 1, q.src, q.dst, q.len);
    assert Switched(s, Dma).host.dma == s.host.dma && Switched(s, Dma).host.ctr == s.host.ctr;
    assert s.host.dma + [c, Release(TIMELINE, n)] == s.host.dma + [c] + [Release(TIMELINE, n)];
  }

  // ----------------------------------------------------------------- launches

  /** Where a launch starts its QMD: behind constant bank 0 in the block it takes. */
  function QmdAt(h: Host, r: LaunchReq): nat
    requires r.kernel.constants != []
  {
    h.page + h.argsIdx + LaunchBlock.QmdOffset(r.kernel.constants[0])
  }

  /** What an accepted launch writes ahead of itself: the local memory it was given, and when it is
      synchronous the release still owed on its channel and the wait for everything enqueued before. */
  function Ahead(s: State, r: LaunchReq): seq<Command> {
    var owes := s.host.pending && (s.host.dma == [] || s.host.mode != Mode(Dma));
    (if r.kernel.localMem > s.host.slm then [LocalMemCommand(r)] else [])
    + (if r.sync && owes then [Release(TIMELINE, s.host.ctr)] else [])
    + (if r.sync && Val(s.gpu, TIMELINE) != s.host.ctr then [Acquire(TIMELINE, s.host.ctr)] else [])
  }

  lemma PrefixBuffer(s: State, r: LaunchReq)
    requires !LocalMemFails(s.host, r)
    ensures var p := LaunchPrefix(s, r); p.host.compute == s.host.compute + Ahead(s, r) && Framed(s, p)
  {
    hide Tag, Dangle, LocalMemCommand;
    PrefixFramed(s, r);
    var s1 := Switched(s, Compute);
    assert s1.host.compute == s.host.compute && s1.host.ctr == s.host.ctr && s1.host.slm == s.host.slm;
    var owes := s.host.pending && (s.host.dma == [] || s.host.mode != Mode(Dma));
    assert s1.host.pending == owes;
    var s2 := WithLocalMem(s1, r);
    assert s2.host.pending == owes && s2.host.ctr == s.host.ctr && s2.gpu == s.gpu;
    var a := if r.kernel.localMem > s.host.slm then [LocalMemCommand(r)] else [];
    assert s2.host.compute == s.host.compute + a;
    OrderedBuffer(s2, r.sync);
    JoinThree(s.host.compute, a,
              if r.sync && owes then [Release(TIMELINE, s.host.ctr)] else [],
              if r.sync && Val(s.gpu, TIMELINE) != s.host.ctr then [Acquire(TIMELINE, s.host.ctr)] else []);
  }

  lemma OrderedBuffer(s: State, sync: bool)
    ensures Ordered(s, sync).host.compute ==
            s.host.compute + (if sync && s.host.pending then [Release(TIMELINE, s.host.ctr)] else [])
            + (if sync && Val(s.gpu, TIMELINE) != s.host.ctr then [Acquire(TIMELINE, s.host.ctr)] else [])
  {
    hide Tag, Dangle;
  }

  lemma JoinThree<T>(a: seq<T>, b: seq<T>, c: seq<T>, d: seq<T>)
    ensures a + b + c + d == a + (b + c + d)
  {
  }

  /** In every state: an accepted launch takes the next block of the argument page, and the compute
      buffer grows by the ordering commands, by the start of the QMD behind bank 0 of that block, and
      by its release when it is synchronous. */
  lemma LaunchEnqueues(s: State, r: LaunchReq)
    requires LaunchStatus(s, r) == Success
    ensures r.kernel.constants != []
    ensures var s', n, const0 := LaunchNext(s, r), s.host.ctr + 1, r.kernel.constants[0];
            var op := Op(Compute, r.sync, s.host.argsIdx, LaunchBlock.QmdOffset(const0) + 2048);
            && s'.hist.ops == s.hist.ops + [op] && s'.hist.submitted == s.hist.submitted
            && s'.host.compute == s.host.compute + Ahead(s, r)
                                  + [Launch(n, s.host.page + op.lo + LaunchBlock.QmdOffset(const0))]
                                  + (if r.sync then [Release(TIMELINE, n)] else [])
            && s'.host.ctr == n && s'.host.pending == !r.sync && s'.host.argsIdx == op.lo + op.size
            && s'.host.slm == if r.kernel.localMem > s.host.slm then RoundUp(r.kernel.localMem, 32) else s.host.slm
  {
    hide LaunchPrefix, Ahead, Verdict, Tag, Dangle;
    VerdictTakes(s.host, r);
    PrefixBuffer(s, r);
    PrefixSlm(s, r);
    LaunchBlock.Offsets(r.kernel.constants[0]);
    var p := WithArgs(LaunchPrefix(s, r), r);
    var n, c := s.host.ctr + 1, Launch(s.host.ctr + 1, QmdAt(s.host, r));
    assert LaunchNext(s, r) == Accepted(p, Compute, c, LaunchOp(s.host, r));
    assert p.host.compute + [c, Release(TIMELINE, n)] == p.host.compute + [c] + [Release(TIMELINE, n)];
  }

  lemma VerdictTakes(h: Host, r: LaunchReq)
    requires Verdict(h, r) == Success
    ensures r.kernel.constants != [] && AllocatedArgs(h, r)
  {
  }

  lemma PrefixSlm(s: State, r: LaunchReq)
    ensures LaunchPrefix(s, r).host.slm == if r.kernel.localMem > s.host.slm then RoundUp(r.kernel.localMem, 32) else s.host.slm
  {
    hide Tag, Dangle;
  }

  /** A block that FillBlock left for the launch: the address the launch starts is the address of its
      QMD, whose bank 0 points back at the block. */
  lemma StartsItsQmd(s: State, r: LaunchReq, block: seq<nat>, shape: QmdLaunch.Shape, constants: seq<QmdLaunch.Constant>)
    requires LaunchStatus(s, r) == Success && r.kernel.constants != [] && QmdLaunch.BanksOk(constants)
    requires 4 * |block| == LaunchBlock.QmdOffset(r.kernel.constants[0]) + 2048
    requires var at, q := s.host.page + s.host.argsIdx, LaunchBlock.QmdOffset(r.kernel.constants[0]) / 4;
             q + 64 <= |block| && block[q..q + 64] == QmdLaunch.Assembled(shape, constants, at)
    ensures var s' := LaunchNext(s, r);
            var op := s'.hist.ops[|s'.hist.ops| - 1];
            var last := s'.host.compute[|s'.host.compute| - (if r.sync then 2 else 1)];
            && last.Launch? && last.op == s'.host.ctr && op.kind == Compute
            && s.host.page + op.lo <= last.qmd && (last.qmd - s.host.page - op.lo) % 4 == 0
            && last.qmd + 256 <= s.host.page + op.lo + op.size
            && var word := (last.qmd - s.host.page - op.lo) / 4;
               && word + 64 <= |block|
               && block[word..word + 64] == QmdLaunch.Assembled(shape, constants, s.host.page + op.lo)
               && QmdFields.Shows(block[word..word + 64], 415, 384, shape.gridX)
               && QmdFields.Shows(block[word..word + 64], 1055, 1024, s.host.page + op.lo)
               && QmdFields.Shows(block[word..word + 64], 1072, 1056, (s.host.page + op.lo) / 0x1_0000_0000)
  {
    hide LaunchNext, LaunchStatus, Ahead, QmdLaunch.Assembled, LaunchBlock.QmdOffset, QmdFields.Shows;
    LaunchEnqueues(s, r);
    LaunchBlock.Offsets(r.kernel.constants[0]);
    QmdFields.GridShows(shape, constants, s.host.page + s.host.argsIdx);
    QmdFields.ArgumentsShow(shape, constants, s.host.page + s.host.argsIdx);
  }

  // ------------------------------------------------------------------- statuses

  /** The status of every launch, by the checks in their order. An accepted one has its arguments, its
      local memory and a bank 0, its block fits the page, it passes the size check, every one of its
      parameters can be packed, and its dimensions are within the limits. */
  lemma LaunchStatusIs(s: State, r: LaunchReq, params: seq<seq<Byte>>)
    requires |params| == |r.kernel.paramSizes| && forall i | 0 <= i < |params| :: |params[i]| == r.kernel.paramSizes[i]
    ensures LaunchStatus(s, r) ==
            if r.numParams != |params| then InvalidValue
            else if r.kernel.localMem > s.host.slm && r.slm == Stale then InvalidValue
            else if r.kernel.localMem > s.host.slm && (r.slm == NotReleased || r.slm == NotAllocated) then Unknown
            else if r.kernel.constants == [] then InvalidImage
            else if s.host.argsIdx + LaunchBlock.QmdOffset(r.kernel.constants[0]) + 2048 > 0x100_0000 then OutOfResources
            else if !LaunchBlock.CheckPasses(r.kernel.constants[0], params) then InvalidImage
            else if exists i :: 0 <= i < |params| && !KernArgs.SizeOk(|params[i]|) then InvalidValue
            else if !r.fits then OutOfResources
            else Success
  {
    hide RoundUp;
    SizesAgree(r.kernel.paramSizes, params);
    if r.kernel.constants != [] { LaunchBlock.Offsets(r.kernel.constants[0]); }
  }

  lemma SizesAgree(sizes: seq<nat>, params: seq<seq<Byte>>)
    requires |params| == |sizes| && forall i | 0 <= i < |params| :: |params[i]| == sizes[i]
    ensures (exists p | p in sizes :: !KernArgs.SizeOk(p)) <==> (exists i :: 0 <= i < |params| && !KernArgs.SizeOk(|params[i]|))
  {
    if p :| p in sizes && !KernArgs.SizeOk(p) {
      var i :| 0 <= i < |sizes| && sizes[i] == p;
      assert !KernArgs.SizeOk(|params[i]|);
    }
    if i :| 0 <= i < |params| && !KernArgs.SizeOk(|params[i]|) {
      assert sizes[i] in sizes && !KernArgs.SizeOk(sizes[i]);
    }
  }

  // ---------------------------------------------------------------- local memory

  /** m is the least multiple of a that is at least n. */
  predicate LeastMultiple(m: nat, n: nat, a: nat) {
    a > 0 && m % a == 0 && n <= m < n + a
  }

  lemma RoundUpLeast(n: nat, a: nat)
    requires a > 0
    ensures LeastMultiple(RoundUp(n, a), n, a)
  {
    LaunchBlock.RoundsUp(n, a);
    var q, x := (n + a - 1) / a, (n + a - 1) % a;
    assert n + a - 1 == q * a + x;
  }

  lemma LeastUnique(m: nat, k: nat, n: nat, a: nat)
    requires LeastMultiple(m, n, a) && LeastMultiple(k, n, a)
    ensures m == k
  {
    assert m == m / a * a && k == k / a * a;
    assert (m / a - k / a) * a == m - k;
    Times(m / a - k / a, a);
  }

  /** Whatever a function asks for: the memory per thread afterwards is enough for it, grows only when
      it was not, and then to the next multiple of 32. */
  lemma GrownIsEnough(h: Host, r: LaunchReq)
    ensures var slm := GrownSlm(h, r).slm;
            && slm >= r.kernel.localMem && slm >= h.slm
            && (r.kernel.localMem <= h.slm ==> slm == h.slm)
            && (r.kernel.localMem > h.slm ==> LeastMultiple(slm, r.kernel.localMem, 32))
  {
    RoundUpLeast(r.kernel.localMem, 32);
  }

  /** The bytes per texture cluster: 96 warps of 32 threads, each warp's share in multiples of 0x200 and
      the whole in multiples of 0x8000. */
  lemma ClusterBytes(perThread: nat, warp: nat)
    requires LeastMultiple(warp, 32 * perThread, 0x200)
    ensures LeastMultiple(BytesPerTpc(perThread), 96 * warp, 0x8000)
  {
    RoundUpLeast(perThread * 32, 0x200);
    LeastUnique(RoundUp(perThread * 32, 0x200), warp, 32 * perThread, 0x200);
    RoundUpLeast(warp * 48 * 2, 0x8000);
  }
}
