/** The finished QMD bit by bit: where each piece of the launch stands in its 64 words. */
module QmdFields {
  import opened Bits
  import opened Qmd
  import opened QmdLaunch

  /** Bits hi down to lo of the 64 words, all of one word, hold v cut to their number. */
  predicate Shows(q: seq<nat>, hi: nat, lo: nat, v: nat) {
    && |q| == 64 && lo <= hi && lo / 32 == hi / 32 < 64
    && q[lo / 32] / Pow2(lo % 32) % Pow2(hi - lo + 1) == v % Pow2(hi - lo + 1)
  }

  lemma GetShows(q: seq<nat>, hi: nat, lo: nat, v: nat)
    requires |q| == QMD_WORDS && Field(hi, lo).Ok() && FldGet(q, Field(hi, lo)) == v % Pow2(hi - lo + 1)
    ensures Shows(q, hi, lo, v)
  {
    hide And, ShiftRight, Mask, Pow2;
    var w, s, n := q[lo / 32], lo % 32, hi - lo + 1;
    RightDivides(w, s);
    MaskMod(ShiftRight(w, s), n);
  }

  lemma RankNames(n: Name)
    requires !n.IsBank()
    ensures Rank(n) < |FIXED_NAMES| && FIXED_NAMES[Rank(n)] == n
  {
  }

  lemma FixedShows(p: Shape, cs: seq<Constant>, kernargs: nat, n: Name, hi: nat, lo: nat, v: nat)
    requires BanksOk(cs) && !n.IsBank() && Extent(n) == Field(hi, lo)
    requires FixedValue(n, p) % Pow2(hi - lo + 1) == v % Pow2(hi - lo + 1)
    ensures Shows(Assembled(p, cs, kernargs), hi, lo, v)
  {
    hide Extent, FixedValue, Assembled, FldGet, Pow2, Shows, Rank;
    RankNames(n);
    FixedFieldsHold(p, cs, kernargs, Rank(n));
    GetShows(Assembled(p, cs, kernargs), hi, lo, v);
  }

  lemma Halves(v: nat)
    ensures Lo(v) % Pow2(32) == v % Pow2(32)
    ensures Hi(v) % Pow2(17) == v / 0x1_0000_0000 % Pow2(17)
    ensures Hi(v) % Pow2(32) == v / 0x1_0000_0000 % Pow2(32)
  {
    hide Pow2;
    SmallPowers();
    CutTwice(v / U32, 17, 32);
    CutTwice(v / U32, 32, 32);
    CutTwice(v, 32, 32);
  }

  lemma IdentityShows(p: Shape, cs: seq<Constant>, kernargs: nat)
    requires BanksOk(cs)
    ensures var q := Assembled(p, cs, kernargs);
            && Shows(q, 133, 128, 0x3F)
            && Shows(q, 134, 134, 1)
            && Shows(q, 186, 186, 1)
            && Shows(q, 187, 187, 1)
            && Shows(q, 188, 188, 1)
            && Shows(q, 189, 189, 1)
  {
    hide Assembled, Shows, Pow2, Hi, Lo;
    FixedShows(p, cs, kernargs, QmdGroupId, 133, 128, 0x3F);
    FixedShows(p, cs, kernargs, SmGlobalCachingEnable, 134, 134, 1);
    FixedShows(p, cs, kernargs, InvalidateTextureHeaderCache, 186, 186, 1);
    FixedShows(p, cs, kernargs, InvalidateTextureSamplerCache, 187, 187, 1);
    FixedShows(p, cs, kernargs, InvalidateTextureDataCache, 188, 188, 1);
    FixedShows(p, cs, kernargs, InvalidateShaderDataCache, 189, 189, 1);
  }

  lemma CachingShows(p: Shape, cs: seq<Constant>, kernargs: nat)
    requires BanksOk(cs)
    ensures var q := Assembled(p, cs, kernargs);
            && Shows(q, 378, 378, 1)
            && Shows(q, 382, 382, 1)
            && Shows(q, 369, 368, 1)
            && Shows(q, 583, 580, 3)
            && Shows(q, 1074, 1074, 1)
  {
    hide Assembled, Shows, Pow2, Hi, Lo;
    FixedShows(p, cs, kernargs, ApiVisibleCallLimit, 378, 378, 1);
    FixedShows(p, cs, kernargs, SamplerIndex, 382, 382, 1);
    FixedShows(p, cs, kernargs, CwdMembarType, 369, 368, 1);
    FixedShows(p, cs, kernargs, QmdMajorVersion, 583, 580, 3);
    FixedShows(p, cs, kernargs, ConstantBuffer0Invalidate, 1074, 1074, 1);
  }

  lemma SharedMemoryShows(p: Shape, cs: seq<Constant>, kernargs: nat)
    requires BanksOk(cs)
    ensures var q := Assembled(p, cs, kernargs);
            && Shows(q, 561, 544, p.sharedMemSize)
            && Shows(q, 567, 562, p.smemConfig)
            && Shows(q, 574, 569, 0x1A)
  {
    hide Assembled, Shows, Pow2, Hi, Lo;
    FixedShows(p, cs, kernargs, SharedMemorySize, 561, 544, p.sharedMemSize);
    FixedShows(p, cs, kernargs, MinSmConfig, 567, 562, p.smemConfig);
    FixedShows(p, cs, kernargs, MaxSmConfig, 574, 569, 0x1A);
  }

  lemma ResourcesShow(p: Shape, cs: seq<Constant>, kernargs: nat)
    requires BanksOk(cs)
    ensures var q := Assembled(p, cs, kernargs);
            && Shows(q, 656, 648, p.registers)
            && Shows(q, 662, 657, p.smemConfig)
            && Shows(q, 767, 763, 1)
            && Shows(q, 1623, 1600, p.slmPerThread)
  {
    hide Assembled, Shows, Pow2, Hi, Lo;
    FixedShows(p, cs, kernargs, RegisterCount, 656, 648, p.registers);
    FixedShows(p, cs, kernargs, TargetSmConfig, 662, 657, p.smemConfig);
    FixedShows(p, cs, kernargs, BarrierCount, 767, 763, 1);
    FixedShows(p, cs, kernargs, ShaderLocalMemoryHighSize, 1623, 1600, p.slmPerThread);
  }

  lemma CodeShows(p: Shape, cs: seq<Constant>, kernargs: nat)
    requires BanksOk(cs)
    ensures var q := Assembled(p, cs, kernargs);
            && Shows(q, 1649, 1641, p.functionSize / 0x100)
            && Shows(q, 1567, 1536, p.functionVa)
            && Shows(q, 1584, 1568, p.functionVa / 0x1_0000_0000)
  {
    hide Assembled, Shows, Pow2, Hi, Lo;
    Halves(p.functionVa);
    FixedShows(p, cs, kernargs, ProgramPrefetchSize, 1649, 1641, p.functionSize / 0x100);
    FixedShows(p, cs, kernargs, ProgramAddressLower, 1567, 1536, p.functionVa);
    FixedShows(p, cs, kernargs, ProgramAddressUpper, 1584, 1568, p.functionVa / 0x1_0000_0000);
  }

  lemma PrefetchShows(p: Shape, cs: seq<Constant>, kernargs: nat)
    requires BanksOk(cs)
    ensures var q := Assembled(p, cs, kernargs);
            && Shows(q, 1663, 1656, 0x89)
            && Shows(q, 287, 256, p.functionVa / 0x100)
            && Shows(q, 1640, 1632, p.functionVa / 0x100_0000_0000)
  {
    hide Assembled, Shows, Pow2, Hi, Lo;
    FixedShows(p, cs, kernargs, SassVersion, 1663, 1656, 0x89);
    FixedShows(p, cs, kernargs, PrefetchAddrLower, 287, 256, p.functionVa / 0x100);
    FixedShows(p, cs, kernargs, PrefetchAddrUpper, 1640, 1632, p.functionVa / 0x100_0000_0000);
  }

  lemma GridShows(p: Shape, cs: seq<Constant>, kernargs: nat)
    requires BanksOk(cs)
    ensures var q := Assembled(p, cs, kernargs);
            && Shows(q, 415, 384, p.gridX)
            && Shows(q, 431, 416, p.gridY)
            && Shows(q, 463, 448, p.gridZ)
  {
    hide Assembled, Shows, Pow2, Hi, Lo;
    FixedShows(p, cs, kernargs, CtaRasterWidth, 415, 384, p.gridX);
    FixedShows(p, cs, kernargs, CtaRasterHeight, 431, 416, p.gridY);
    FixedShows(p, cs, kernargs, CtaRasterDepth, 463, 448, p.gridZ);
  }

  lemma BlockShows(p: Shape, cs: seq<Constant>, kernargs: nat)
    requires BanksOk(cs)
    ensures var q := Assembled(p, cs, kernargs);
            && Shows(q, 607, 592, p.blockX)
            && Shows(q, 623, 608, p.blockY)
            && Shows(q, 639, 624, p.blockZ)
  {
    hide Assembled, Shows, Pow2, Hi, Lo;
    FixedShows(p, cs, kernargs, CtaThreadDimension0, 607, 592, p.blockX);
    FixedShows(p, cs, kernargs, CtaThreadDimension1, 623, 608, p.blockY);
    FixedShows(p, cs, kernargs, CtaThreadDimension2, 639, 624, p.blockZ);
  }

  /** Every field that does not belong to a constant bank, by its bits and the launch's own data. */
  lemma FieldsShow(p: Shape, cs: seq<Constant>, kernargs: nat)
    requires BanksOk(cs)
    ensures var q := Assembled(p, cs, kernargs);
            // group, caching and invalidation, call limit, sampler, barrier kind, version
            && Shows(q, 133, 128, 0x3F)
            && Shows(q, 134, 134, 1)
            && Shows(q, 186, 186, 1)
            && Shows(q, 187, 187, 1)
            && Shows(q, 188, 188, 1)
            && Shows(q, 189, 189, 1)
            && Shows(q, 378, 378, 1)
            && Shows(q, 382, 382, 1)
            && Shows(q, 369, 368, 1)
            && Shows(q, 583, 580, 3)
            && Shows(q, 1074, 1074, 1)
            // shared memory, registers, barriers, local memory
            && Shows(q, 561, 544, p.sharedMemSize)
            && Shows(q, 567, 562, p.smemConfig)
            && Shows(q, 574, 569, 0x1A)
            && Shows(q, 656, 648, p.registers)
            && Shows(q, 662, 657, p.smemConfig)
            && Shows(q, 767, 763, 1)
            && Shows(q, 1623, 1600, p.slmPerThread)
            // code: prefetch size, address, machine version, prefetch address
            && Shows(q, 1649, 1641, p.functionSize / 0x100)
            && Shows(q, 1567, 1536, p.functionVa)
            && Shows(q, 1584, 1568, p.functionVa / 0x1_0000_0000)
            && Shows(q, 1663, 1656, 0x89)
            && Shows(q, 287, 256, p.functionVa / 0x100)
            && Shows(q, 1640, 1632, p.functionVa / 0x100_0000_0000)
            // grid and block
            && Shows(q, 415, 384, p.gridX)
            && Shows(q, 431, 416, p.gridY)
            && Shows(q, 463, 448, p.gridZ)
            && Shows(q, 607, 592, p.blockX)
            && Shows(q, 623, 608, p.blockY)
            && Shows(q, 639, 624, p.blockZ)
  {
    hide Assembled, Shows;
    IdentityShows(p, cs, kernargs);
    CachingShows(p, cs, kernargs);
    SharedMemoryShows(p, cs, kernargs);
    ResourcesShow(p, cs, kernargs);
    CodeShows(p, cs, kernargs);
    PrefetchShows(p, cs, kernargs);
    GridShows(p, cs, kernargs);
    BlockShows(p, cs, kernargs);
  }

  // ------------------------------------------------------------ constant banks

  lemma {:induction false} LastBankIs(cs: seq<Constant>, nr: nat, i: nat)
    requires i < |cs| && cs[i].constNr == nr && forall j | i < j < |cs| :: cs[j].constNr != nr
    ensures LastBank(cs, nr) == Entry(cs[i])
    decreases |cs|
  {
    if i < |cs| - 1 { LastBankIs(cs[..|cs| - 1], nr, i); }
  }

  lemma BankOkAt(q: seq<nat>, nr: nat)
    requires |q| == QMD_WORDS && nr < 8
    ensures Field(640 + nr, 640 + nr).Ok() && Get(q, ConstantBufferValid(nr)) == FldGet(q, Field(640 + nr, 640 + nr))
    ensures var f := Field(1087 + 64 * nr, 1075 + 64 * nr); f.Ok() && Get(q, ConstantBufferSize(nr)) == FldGet(q, f)
    ensures var f := Field(1072 + 64 * nr, 1056 + 64 * nr); f.Ok() && Get(q, ConstantBufferAddrUpper(nr)) == FldGet(q, f)
    ensures var f := Field(1055 + 64 * nr, 1024 + 64 * nr); f.Ok() && Get(q, ConstantBufferAddrLower(nr)) == FldGet(q, f)
  {
    hide FldGet;
  }

  /** A bank by its bits: the last entry of the list for it, if there is one ... */
  lemma BankShows(p: Shape, cs: seq<Constant>, kernargs: nat, i: nat)
    requires BanksOk(cs) && i < |cs| && forall j | i < j < |cs| :: cs[j].constNr != cs[i].constNr
    ensures var q, nr := Assembled(p, cs, kernargs), cs[i].constNr;
            && Shows(q, 640 + nr, 640 + nr, 1)
            && Shows(q, 1087 + 64 * nr, 1075 + 64 * nr, cs[i].size)
            && (nr != 0 ==> Shows(q, 1055 + 64 * nr, 1024 + 64 * nr, cs[i].address))
            && (nr != 0 ==> Shows(q, 1072 + 64 * nr, 1056 + 64 * nr, cs[i].address / 0x1_0000_0000))
  {
    hide Assembled, FldGet, Get, Pow2, Shows, Hi, Lo;
    var q, nr := Assembled(p, cs, kernargs), cs[i].constNr;
    LastBankIs(cs, nr, i);
    BanksHold(p, cs, kernargs, nr);
    BankOkAt(q, nr);
    SmallPowers();
    Halves(cs[i].address);
    LoIsCut(cs[i].address);
    GetShows(q, 640 + nr, 640 + nr, 1);
    GetShows(q, 1087 + 64 * nr, 1075 + 64 * nr, cs[i].size);
    if nr != 0 {
      GetShows(q, 1055 + 64 * nr, 1024 + 64 * nr, cs[i].address);
      GetShows(q, 1072 + 64 * nr, 1056 + 64 * nr, cs[i].address / 0x1_0000_0000);
    }
  }

  lemma LoIsCut(v: nat)
    ensures Lo(v) == v % U32
  {
  }

  /** ... and otherwise it is invalid and empty. */
  lemma AbsentBankShows(p: Shape, cs: seq<Constant>, kernargs: nat, nr: nat)
    requires BanksOk(cs) && nr < 8 && forall j | 0 <= j < |cs| :: cs[j].constNr != nr
    ensures var q := Assembled(p, cs, kernargs);
            Shows(q, 640 + nr, 640 + nr, 0) && Shows(q, 1087 + 64 * nr, 1075 + 64 * nr, 0)
  {
    hide Assembled, FldGet, Get, Pow2, Shows;
    var q := Assembled(p, cs, kernargs);
    BanksHold(p, cs, kernargs, nr);
    BankOkAt(q, nr);
    SmallPowers();
    GetShows(q, 640 + nr, 640 + nr, 0);
    GetShows(q, 1087 + 64 * nr, 1075 + 64 * nr, 0);
  }

  /** The address of bank 0 is the argument pointer, whatever the list says. */
  lemma ArgumentsShow(p: Shape, cs: seq<Constant>, kernargs: nat)
    requires BanksOk(cs)
    ensures var q := Assembled(p, cs, kernargs);
            Shows(q, 1055, 1024, kernargs) && Shows(q, 1072, 1056, kernargs / 0x1_0000_0000)
  {
    hide Assembled, FldGet, Get, Pow2, Shows, Hi, Lo;
    var q := Assembled(p, cs, kernargs);
    ArgumentHalves(p, cs, kernargs);
    BankOkAt(q, 0);
    SmallPowers();
    Halves(kernargs);
    LoIsCut(kernargs);
    GetShows(q, 1055, 1024, kernargs);
    GetShows(q, 1072, 1056, kernargs / 0x1_0000_0000);
  }
}
