/** The QMD that launchFunction assembles: which fields it sets, in which order, and what they
    hold in the end. */
module QmdLaunch {
  import opened Bits
  import opened Qmd

  /** The fields of QMD version 3.0 that a launch sets. */
  datatype Name =
    | QmdGroupId | SmGlobalCachingEnable
    | InvalidateTextureHeaderCache | InvalidateTextureSamplerCache | InvalidateTextureDataCache | InvalidateShaderDataCache
    | ApiVisibleCallLimit | SamplerIndex | CwdMembarType | QmdMajorVersion | ConstantBuffer0Invalidate
    | SharedMemorySize | MinSmConfig | MaxSmConfig | RegisterCount | TargetSmConfig | BarrierCount
    | ShaderLocalMemoryHighSize | ProgramPrefetchSize | ProgramAddressLower | ProgramAddressUpper | SassVersion
    | PrefetchAddrLower | PrefetchAddrUpper
    | CtaRasterWidth | CtaRasterHeight | CtaRasterDepth
    | CtaThreadDimension0 | CtaThreadDimension1 | CtaThreadDimension2
    | ConstantBufferValid(i: nat) | ConstantBufferAddrLower(i: nat) | ConstantBufferAddrUpper(i: nat) | ConstantBufferSize(i: nat)
  {
    predicate IsBank() {
      ConstantBufferValid? || ConstantBufferAddrLower? || ConstantBufferAddrUpper? || ConstantBufferSize?
    }

    predicate Ok() {
      IsBank() ==> i < 8
    }
  }

  function Extent(n: Name): Field {
    match n
    case QmdGroupId => Field(133, 128)
    case SmGlobalCachingEnable => Field(134, 134)
    case InvalidateTextureHeaderCache => Field(186, 186)
    case InvalidateTextureSamplerCache => Field(187, 187)
    case InvalidateTextureDataCache => Field(188, 188)
    case InvalidateShaderDataCache => Field(189, 189)
    case ApiVisibleCallLimit => Field(378, 378)
    case SamplerIndex => Field(382, 382)
    case CwdMembarType => Field(369, 368)
    case QmdMajorVersion => Field(583, 580)
    case ConstantBuffer0Invalidate => Field(1074, 1074)
    case SharedMemorySize => Field(561, 544)
    case MinSmConfig => Field(567, 562)
    case MaxSmConfig => Field(574, 569)
    case RegisterCount => Field(656, 648)
    case TargetSmConfig => Field(662, 657)
    case BarrierCount => Field(767, 763)
    case ShaderLocalMemoryHighSize => Field(1623, 1600)
    case ProgramPrefetchSize => Field(1649, 1641)
    case ProgramAddressLower => Field(1567, 1536)
    case ProgramAddressUpper => Field(1584, 1568)
    case SassVersion => Field(1663, 1656)
    case PrefetchAddrLower => Field(287, 256)
    case PrefetchAddrUpper => Field(1640, 1632)
    case CtaRasterWidth => Field(415, 384)
    case CtaRasterHeight => Field(431, 416)
    case CtaRasterDepth => Field(463, 448)
    case CtaThreadDimension0 => Field(607, 592)
    case CtaThreadDimension1 => Field(623, 608)
    case CtaThreadDimension2 => Field(639, 624)
    case ConstantBufferValid(i) => Field(640 + i, 640 + i)
    case ConstantBufferAddrLower(i) => Field(1055 + i * 64, 1024 + i * 64)
    case ConstantBufferAddrUpper(i) => Field(1072 + i * 64, 1056 + i * 64)
    case ConstantBufferSize(i) => Field(1087 + i * 64, 1075 + i * 64)
  }

  lemma ExtentOk(n: Name)
    requires n.Ok()
    ensures Extent(n).Ok()
  {
  }

  /** No two fields share a bit. */
  lemma NamesSeparate(a: Name, b: Name)
    requires a.Ok() && b.Ok() && a != b
    ensures Separate(Extent(a), Extent(b))
  {
    hide Extent;
    if a.IsBank() && b.IsBank() { BanksSeparate(a, b); }
    else if a.IsBank() { BankApart(a, b); }
    else if b.IsBank() { BankApart(b, a); }
    else { PlainSeparate(a, b); }
  }

  lemma BanksSeparate(a: Name, b: Name)
    requires a.Ok() && b.Ok() && a.IsBank() && b.IsBank() && a != b
    ensures Separate(Extent(a), Extent(b))
  {
  }

  lemma BankApart(a: Name, b: Name)
    requires a.Ok() && a.IsBank() && !b.IsBank()
    ensures Separate(Extent(a), Extent(b))
  {
  }

  lemma PlainSeparate(a: Name, b: Name)
    requires !a.IsBank() && !b.IsBank() && a != b
    ensures Separate(Extent(a), Extent(b))
  {
  }

  // ---------------------------------------------------------- what is written

  /** What launchFunction knows when it assembles the QMD. */
  datatype Shape = Shape(gridX: nat, gridY: nat, gridZ: nat, blockX: nat, blockY: nat, blockZ: nat,
                         sharedMemSize: nat, smemConfig: nat, registers: nat, slmPerThread: nat,
                         functionSize: nat, functionVa: nat)

  datatype Constant = Constant(constNr: nat, address: nat, size: nat)

  /** The fields that do not depend on the constant banks, in the order of their writes. */
  const FIXED_NAMES: seq<Name> := [
    QmdGroupId, SmGlobalCachingEnable, InvalidateTextureHeaderCache, InvalidateTextureSamplerCache,
    InvalidateTextureDataCache, InvalidateShaderDataCache, ApiVisibleCallLimit, SamplerIndex, CwdMembarType,
    QmdMajorVersion, ConstantBuffer0Invalidate, SharedMemorySize, MinSmConfig, MaxSmConfig, RegisterCount,
    TargetSmConfig, BarrierCount, ShaderLocalMemoryHighSize, ProgramPrefetchSize, ProgramAddressLower,
    ProgramAddressUpper, SassVersion, PrefetchAddrLower, PrefetchAddrUpper, CtaRasterWidth, CtaRasterHeight,
    CtaRasterDepth, CtaThreadDimension0, CtaThreadDimension1, CtaThreadDimension2]

  function FixedValue(n: Name, p: Shape): nat {
    match n
    case QmdGroupId => 0x3F
    case QmdMajorVersion => 3
    case SharedMemorySize => p.sharedMemSize
    case MinSmConfig => p.smemConfig
    case MaxSmConfig => 0x1A
    case RegisterCount => p.registers
    case TargetSmConfig => p.smemConfig
    case ShaderLocalMemoryHighSize => p.slmPerThread
    case ProgramPrefetchSize => p.functionSize / 0x100
    case ProgramAddressLower => Lo(p.functionVa)
    case ProgramAddressUpper => Hi(p.functionVa)
    case SassVersion => 0x89
    case PrefetchAddrLower => p.functionVa / 0x100
    case PrefetchAddrUpper => p.functionVa / 0x100_0000_0000
    case CtaRasterWidth => p.gridX
    case CtaRasterHeight => p.gridY
    case CtaRasterDepth => p.gridZ
    case CtaThreadDimension0 => p.blockX
    case CtaThreadDimension1 => p.blockY
    case CtaThreadDimension2 => p.blockZ
    case _ => 1
  }

  /** A write to a named field. */
  datatype NamedWrite = NamedWrite(name: Name, value: nat)

  function Resolve(ws: seq<NamedWrite>): (r: seq<Write>)
    ensures |r| == |ws| && forall i | 0 <= i < |r| :: r[i] == Write(Extent(ws[i].name), ws[i].value)
  {
    seq(|ws|, i requires 0 <= i < |ws| => Write(Extent(ws[i].name), ws[i].value))
  }

  function FixedWrites(p: Shape): (r: seq<NamedWrite>)
    ensures |r| == |FIXED_NAMES| && forall i | 0 <= i < |r| :: r[i] == NamedWrite(FIXED_NAMES[i], FixedValue(FIXED_NAMES[i], p))
  {
    seq(|FIXED_NAMES|, i requires 0 <= i < |FIXED_NAMES| => NamedWrite(FIXED_NAMES[i], FixedValue(FIXED_NAMES[i], p)))
  }

  function BankWrites(c: Constant): seq<NamedWrite> {
    [NamedWrite(ConstantBufferAddrUpper(c.constNr), Hi(c.address)),
     NamedWrite(ConstantBufferAddrLower(c.constNr), Lo(c.address)),
     NamedWrite(ConstantBufferSize(c.constNr), c.size),
     NamedWrite(ConstantBufferValid(c.constNr), 1)]
  }

  function AllBankWrites(cs: seq<Constant>): seq<NamedWrite> {
    if cs == [] then [] else AllBankWrites(cs[..|cs| - 1]) + BankWrites(cs[|cs| - 1])
  }

  function ParamWrites(kernargs: nat): seq<NamedWrite> {
    [NamedWrite(ConstantBufferAddrUpper(0), Hi(kernargs)), NamedWrite(ConstantBufferAddrLower(0), Lo(kernargs))]
  }

  function QmdWrites(p: Shape, cs: seq<Constant>, kernargs: nat): seq<NamedWrite> {
    FixedWrites(p) + AllBankWrites(cs) + ParamWrites(kernargs)
  }

  predicate NamesOk(ws: seq<NamedWrite>) {
    forall i | 0 <= i < |ws| :: ws[i].name.Ok()
  }

  predicate BanksOk(cs: seq<Constant>) {
    forall i | 0 <= i < |cs| :: cs[i].constNr < 8
  }

  lemma {:induction false} BankNamesOk(cs: seq<Constant>)
    requires BanksOk(cs)
    ensures NamesOk(AllBankWrites(cs))
    ensures forall i | 0 <= i < |AllBankWrites(cs)| :: AllBankWrites(cs)[i].name.IsBank()
  {
    if cs == [] {
    } else {
      BankNamesOk(cs[..|cs| - 1]);
    }
  }

  lemma QmdNamesOk(p: Shape, cs: seq<Constant>, kernargs: nat)
    requires BanksOk(cs)
    ensures NamesOk(QmdWrites(p, cs, kernargs)) && AllOk(Resolve(QmdWrites(p, cs, kernargs)))
  {
    hide Extent;
    BankNamesOk(cs);
    FixedNamesPlain();
    var ws := QmdWrites(p, cs, kernargs);
    forall i | 0 <= i < |ws| ensures ws[i].name.Ok() && Resolve(ws)[i].field.Ok() {
      ExtentOk(ws[i].name);
    }
  }

  lemma FixedNamesPlain()
    ensures forall i | 0 <= i < |FIXED_NAMES| :: !FIXED_NAMES[i].IsBank()
  {
  }

  // -------------------------------------------------------- what they leave

  /** The last value written under a name. */
  function LastNamed(ws: seq<NamedWrite>, n: Name): Last {
    if ws == [] then Never
    else
      var k := |ws| - 1;
      if ws[k].name == n then Last(ws[k].value) else LastNamed(ws[..k], n)
  }

  lemma {:induction false} LastResolved(ws: seq<NamedWrite>, n: Name)
    requires NamesOk(ws) && n.Ok()
    ensures LastWrite(Resolve(ws), Extent(n)) == LastNamed(ws, n)
  {
    hide Extent;
    if ws == [] {
    } else {
      var k := |ws| - 1;
      assert Resolve(ws)[..k] == Resolve(ws[..k]);
      LastResolved(ws[..k], n);
      if ws[k].name != n {
        NamesSeparate(ws[k].name, n);
        ExtentOk(n);
        ExtentOk(ws[k].name);
      }
    }
  }

  /** Every field of the finished QMD holds the last value written to it, cut to its width. */
  lemma NamedFieldHolds(ws: seq<NamedWrite>, n: Name)
    requires NamesOk(ws) && n.Ok() && AllOk(Resolve(ws)) && Extent(n).Ok()
    ensures FldGet(Apply(Blank(), Resolve(ws)), Extent(n)) ==
            match LastNamed(ws, n) case Never => 0 case Last(v) => v % Pow2(Extent(n).Width())
  {
    hide Extent, FldGet, Apply, Pow2;
    forall i | 0 <= i < |ws| ensures Resolve(ws)[i].field == Extent(n) || Separate(Resolve(ws)[i].field, Extent(n)) {
      if ws[i].name != n { NamesSeparate(ws[i].name, n); }
    }
    FieldHolds(Resolve(ws), Extent(n));
    LastResolved(ws, n);
  }

  lemma {:induction false} LastNamedAppend(a: seq<NamedWrite>, b: seq<NamedWrite>, n: Name)
    ensures LastNamed(a + b, n) == if LastNamed(b, n) == Never then LastNamed(a, n) else LastNamed(b, n)
    decreases |b|
  {
    if b == [] {
      assert a + b == a;
    } else {
      assert (a + b)[..|a + b| - 1] == a + b[..|b| - 1];
      LastNamedAppend(a, b[..|b| - 1], n);
    }
  }

  lemma LastSnoc(ws: seq<NamedWrite>, w: NamedWrite, n: Name)
    ensures LastNamed(ws + [w], n) == if w.name == n then Last(w.value) else LastNamed(ws, n)
  {
    assert (ws + [w])[..|ws|] == ws;
  }

  lemma {:induction false} NeverNamed(ws: seq<NamedWrite>, n: Name)
    requires forall i | 0 <= i < |ws| :: ws[i].name != n
    ensures LastNamed(ws, n) == Never
  {
    if ws == [] {
    } else {
      NeverNamed(ws[..|ws| - 1], n);
    }
  }

  /** The last entry for a bank, if the list has one. */
  datatype Entry = NoEntry | Entry(constant: Constant)

  function LastBank(cs: seq<Constant>, nr: nat): (r: Entry)
    ensures r.NoEntry? <==> forall i | 0 <= i < |cs| :: cs[i].constNr != nr
  {
    if cs == [] then NoEntry
    else if cs[|cs| - 1].constNr == nr then Entry(cs[|cs| - 1])
    else LastBank(cs[..|cs| - 1], nr)
  }

  /** The value that entry writes under a name. */
  function BankValue(c: Constant, n: Name): nat {
    match n
    case ConstantBufferAddrUpper(_) => Hi(c.address)
    case ConstantBufferAddrLower(_) => Lo(c.address)
    case ConstantBufferSize(_) => c.size
    case _ => 1
  }

  lemma OneBank(c: Constant, n: Name)
    requires n.IsBank()
    ensures LastNamed(BankWrites(c), n) == if c.constNr == n.i then Last(BankValue(c, n)) else Never
  {
    hide LastNamed;
    var w := BankWrites(c);
    assert w == [] + [w[0]] + [w[1]] + [w[2]] + [w[3]];
    LastSnoc([] + [w[0]] + [w[1]] + [w[2]], w[3], n);
    LastSnoc([] + [w[0]] + [w[1]], w[2], n);
    LastSnoc([] + [w[0]], w[1], n);
    LastSnoc([], w[0], n);
    NeverNamed([], n);
  }

  lemma {:induction false} BankLast(cs: seq<Constant>, n: Name)
    requires n.IsBank()
    ensures LastNamed(AllBankWrites(cs), n) ==
            match LastBank(cs, n.i) case NoEntry => Never case Entry(c) => Last(BankValue(c, n))
  {
    hide BankValue, BankWrites;
    if cs == [] {
    } else {
      var k := |cs| - 1;
      BankLast(cs[..k], n);
      LastNamedAppend(AllBankWrites(cs[..k]), BankWrites(cs[k]), n);
      OneBank(cs[k], n);
    }
  }

  lemma ParamLast(kernargs: nat, n: Name)
    requires n.IsBank()
    ensures LastNamed(ParamWrites(kernargs), n) ==
            if n == ConstantBufferAddrUpper(0) then Last(Hi(kernargs))
            else if n == ConstantBufferAddrLower(0) then Last(Lo(kernargs)) else Never
  {
    hide LastNamed;
    var w := ParamWrites(kernargs);
    assert w == [] + [w[0]] + [w[1]];
    LastSnoc([] + [w[0]], w[1], n);
    LastSnoc([], w[0], n);
    NeverNamed([], n);
  }

  /** What the finished writes hold for a bank field: the argument pointer for the address of bank
      0, otherwise whatever the last entry for the bank says. */
  lemma QmdBankLast(p: Shape, cs: seq<Constant>, kernargs: nat, n: Name)
    requires n.IsBank()
    ensures LastNamed(QmdWrites(p, cs, kernargs), n) ==
            if n == ConstantBufferAddrUpper(0) then Last(Hi(kernargs))
            else if n == ConstantBufferAddrLower(0) then Last(Lo(kernargs))
            else match LastBank(cs, n.i) case NoEntry => Never case Entry(c) => Last(BankValue(c, n))
  {
    hide BankValue, ParamWrites, AllBankWrites;
    FixedNamesPlain();
    NeverNamed(FixedWrites(p), n);
    LastNamedAppend(FixedWrites(p), AllBankWrites(cs), n);
    LastNamedAppend(FixedWrites(p) + AllBankWrites(cs), ParamWrites(kernargs), n);
    BankLast(cs, n);
    ParamLast(kernargs, n);
  }

  /** The finished QMD. */
  function Assembled(p: Shape, cs: seq<Constant>, kernargs: nat): (q: seq<nat>)
    requires BanksOk(cs)
    ensures |q| == QMD_WORDS
  {
    QmdNamesOk(p, cs, kernargs);
    Apply(Blank(), Resolve(QmdWrites(p, cs, kernargs)))
  }

  function Get(q: seq<nat>, n: Name): nat
    requires n.Ok() && |q| == QMD_WORDS
  {
    ExtentOk(n);
    FldGet(q, Extent(n))
  }

  lemma Widths(i: nat)
    requires i < 8
    ensures Extent(ConstantBufferAddrLower(i)).Ok() && Pow2(Extent(ConstantBufferAddrLower(i)).Width()) == U32
    ensures Extent(ConstantBufferAddrUpper(i)).Ok() && Pow2(Extent(ConstantBufferAddrUpper(i)).Width()) == 0x2_0000
    ensures Extent(ConstantBufferSize(i)).Ok() && Pow2(Extent(ConstantBufferSize(i)).Width()) == 0x2000
    ensures Extent(ConstantBufferValid(i)).Ok() && Pow2(Extent(ConstantBufferValid(i)).Width()) == 2
  {
    hide Pow2, Extent;
    SmallPowers();
    ExtentOk(ConstantBufferAddrLower(i));
    ExtentOk(ConstantBufferAddrUpper(i));
    ExtentOk(ConstantBufferSize(i));
    ExtentOk(ConstantBufferValid(i));
    BankWidths(i);
  }

  lemma BankWidths(i: nat)
    ensures var f := Extent(ConstantBufferAddrLower(i)); f.hi - f.lo + 1 == 32
    ensures var f := Extent(ConstantBufferAddrUpper(i)); f.hi - f.lo + 1 == 17
    ensures var f := Extent(ConstantBufferSize(i)); f.hi - f.lo + 1 == 13
    ensures var f := Extent(ConstantBufferValid(i)); f.hi - f.lo + 1 == 1
  {
  }

  lemma SmallPowers()
    ensures Pow2(1) == 2 && Pow2(13) == 0x2000 && Pow2(17) == 0x2_0000 && Pow2(32) == U32
  {
    assert Pow2(8) == 0x100 && Pow2(16) == 0x1_0000 && Pow2(24) == 0x100_0000;
  }

  lemma ArgumentHalves(p: Shape, cs: seq<Constant>, kernargs: nat)
    requires BanksOk(cs)
    ensures var q := Assembled(p, cs, kernargs);
            && Get(q, ConstantBufferAddrUpper(0)) == Hi(kernargs) % 0x2_0000
            && Get(q, ConstantBufferAddrLower(0)) == Lo(kernargs)
  {
    hide Extent, FldGet, Apply, QmdWrites, LastNamed, Pow2;
    QmdNamesOk(p, cs, kernargs);
    var ws := QmdWrites(p, cs, kernargs);
    Widths(0);
    NamedFieldHolds(ws, ConstantBufferAddrUpper(0));
    NamedFieldHolds(ws, ConstantBufferAddrLower(0));
    QmdBankLast(p, cs, kernargs, ConstantBufferAddrUpper(0));
    QmdBankLast(p, cs, kernargs, ConstantBufferAddrLower(0));
  }

  /** Constant buffer 0 is the argument block, whatever the list of constants says. */
  lemma ArgumentsAreBankZero(p: Shape, cs: seq<Constant>, kernargs: nat)
    requires BanksOk(cs) && kernargs < 0x2_0000_0000_0000
    ensures var q := Assembled(p, cs, kernargs);
            Get(q, ConstantBufferAddrUpper(0)) * U32 + Get(q, ConstantBufferAddrLower(0)) == kernargs
  {
    hide Extent, Get, Assembled;
    ArgumentHalves(p, cs, kernargs);
  }

  /** A bank is valid exactly when the list has an entry for it, and then it has the size of the
      last such entry; every bank but 0 also has that entry's address. */
  lemma BanksHold(p: Shape, cs: seq<Constant>, kernargs: nat, nr: nat)
    requires BanksOk(cs) && nr < 8
    ensures var q := Assembled(p, cs, kernargs);
            match LastBank(cs, nr)
            case NoEntry => Get(q, ConstantBufferValid(nr)) == 0 && Get(q, ConstantBufferSize(nr)) == 0
            case Entry(c) =>
              && Get(q, ConstantBufferValid(nr)) == 1
              && Get(q, ConstantBufferSize(nr)) == c.size % 0x2000
              && (nr != 0 ==> Get(q, ConstantBufferAddrUpper(nr)) == Hi(c.address) % 0x2_0000)
              && (nr != 0 ==> Get(q, ConstantBufferAddrLower(nr)) == Lo(c.address))
  {
    hide Extent, FldGet, Apply, QmdWrites, LastNamed, Pow2;
    QmdNamesOk(p, cs, kernargs);
    var ws := QmdWrites(p, cs, kernargs);
    Widths(nr);
    NamedFieldHolds(ws, ConstantBufferAddrUpper(nr));
    NamedFieldHolds(ws, ConstantBufferAddrLower(nr));
    NamedFieldHolds(ws, ConstantBufferSize(nr));
    NamedFieldHolds(ws, ConstantBufferValid(nr));
    QmdBankLast(p, cs, kernargs, ConstantBufferAddrUpper(nr));
    QmdBankLast(p, cs, kernargs, ConstantBufferAddrLower(nr));
    QmdBankLast(p, cs, kernargs, ConstantBufferSize(nr));
    QmdBankLast(p, cs, kernargs, ConstantBufferValid(nr));
  }

  function Rank(n: Name): nat {
    match n
    case QmdGroupId => 0
    case SmGlobalCachingEnable => 1
    case InvalidateTextureHeaderCache => 2
    case InvalidateTextureSamplerCache => 3
    case InvalidateTextureDataCache => 4
    case InvalidateShaderDataCache => 5
    case ApiVisibleCallLimit => 6
    case SamplerIndex => 7
    case CwdMembarType => 8
    case QmdMajorVersion => 9
    case ConstantBuffer0Invalidate => 10
    case SharedMemorySize => 11
    case MinSmConfig => 12
    case MaxSmConfig => 13
    case RegisterCount => 14
    case TargetSmConfig => 15
    case BarrierCount => 16
    case ShaderLocalMemoryHighSize => 17
    case ProgramPrefetchSize => 18
    case ProgramAddressLower => 19
    case ProgramAddressUpper => 20
    case SassVersion => 21
    case PrefetchAddrLower => 22
    case PrefetchAddrUpper => 23
    case CtaRasterWidth => 24
    case CtaRasterHeight => 25
    case CtaRasterDepth => 26
    case CtaThreadDimension0 => 27
    case CtaThreadDimension1 => 28
    case CtaThreadDimension2 => 29
    case _ => 30
  }

  lemma FixedNamesDistinct(i: nat, j: nat)
    requires i < |FIXED_NAMES| && j < |FIXED_NAMES| && FIXED_NAMES[i] == FIXED_NAMES[j]
    ensures i == j
  {
    hide Rank;
    RankAt(i);
    RankAt(j);
  }

  lemma RankAt(i: nat)
    requires i < |FIXED_NAMES|
    ensures Rank(FIXED_NAMES[i]) == i
  {
    if i < 10 {
    } else if i < 20 {
    } else {
    }
  }

  lemma {:induction false} OnlyWrite(ws: seq<NamedWrite>, k: nat, n: Name)
    requires k < |ws| && ws[k].name == n && forall i | 0 <= i < |ws| && i != k :: ws[i].name != n
    ensures LastNamed(ws, n) == Last(ws[k].value)
  {
    if k < |ws| - 1 { OnlyWrite(ws[..|ws| - 1], k, n); }
  }

  /** Every other field holds its own value, cut to the field's width. */
  lemma FixedFieldsHold(p: Shape, cs: seq<Constant>, kernargs: nat, k: nat)
    requires BanksOk(cs) && k < |FIXED_NAMES|
    ensures FIXED_NAMES[k].Ok() && Extent(FIXED_NAMES[k]).Ok()
    ensures Get(Assembled(p, cs, kernargs), FIXED_NAMES[k])
            == FixedValue(FIXED_NAMES[k], p) % Pow2(Extent(FIXED_NAMES[k]).Width())
  {
    hide Extent, FldGet, Apply, Pow2, FixedValue, LastNamed;
    var n, ws := FIXED_NAMES[k], QmdWrites(p, cs, kernargs);
    FixedNamesPlain();
    QmdNamesOk(p, cs, kernargs);
    BankNamesOk(cs);
    ExtentOk(n);
    NamedFieldHolds(ws, n);
    NeverNamed(AllBankWrites(cs), n);
    NeverNamed(ParamWrites(kernargs), n);
    LastNamedAppend(FixedWrites(p), AllBankWrites(cs), n);
    LastNamedAppend(FixedWrites(p) + AllBankWrites(cs), ParamWrites(kernargs), n);
    forall i | 0 <= i < |FIXED_NAMES| && i != k ensures FixedWrites(p)[i].name != n {
      if FIXED_NAMES[i] == n { FixedNamesDistinct(i, k); }
    }
    OnlyWrite(FixedWrites(p), k, n);
  }

  /** A bit that belongs to none of the named fields stays zero. */
  lemma UnwrittenBits(p: Shape, cs: seq<Constant>, kernargs: nat, b: nat)
    requires BanksOk(cs) && b < 32 * QMD_WORDS
    requires forall n: Name | n.Ok() :: Separate(Extent(n), Field(b, b))
    ensures FldGet(Assembled(p, cs, kernargs), Field(b, b)) == 0
  {
    hide Extent, FldGet, Apply, QmdWrites, Pow2;
    QmdNamesOk(p, cs, kernargs);
    var ws, f := QmdWrites(p, cs, kernargs), Field(b, b);
    forall i | 0 <= i < |ws| ensures Separate(Resolve(ws)[i].field, f) {
      assert ws[i].name.Ok();
    }
    FieldHolds(Resolve(ws), f);
    NeverWritten(Resolve(ws), f);
  }

  lemma {:induction false} NeverWritten(ws: seq<Write>, f: Field)
    requires f.lo <= f.hi && forall i | 0 <= i < |ws| :: Separate(ws[i].field, f)
    ensures LastWrite(ws, f) == Never
  {
    if ws == [] {
    } else {
      assert ws[|ws| - 1].field != f;
      NeverWritten(ws[..|ws| - 1], f);
    }
  }

  // --------------------------------------------------------------- in place

  /** One use of the set macro on the array. */
  method SetField(qmd: array<nat>, n: Name, value: nat)
    requires qmd.Length == QMD_WORDS && n.Ok() && Extent(n).Ok()
    modifies qmd
    ensures qmd[..] == FldSet(old(qmd[..]), Extent(n), value)
  {
    hide Merge;
    var f := Extent(n);
    qmd[f.Word()] := Merge(qmd[f.Word()], f.Shift(), f.Width(), value);
  }

  /** A run of set macros. */
  method SetFields(qmd: array<nat>, ws: seq<NamedWrite>)
    requires qmd.Length == QMD_WORDS && NamesOk(ws) && AllOk(Resolve(ws))
    modifies qmd
    ensures qmd[..] == Apply(old(qmd[..]), Resolve(ws))
  {
    hide Extent, FldSet;
    ghost var q := qmd[..];
    assert Resolve(ws)[..0] == [];
    for i := 0 to |ws|
      invariant qmd[..] == Apply(q, Resolve(ws)[..i])
    {
      ExtentOk(ws[i].name);
      SetField(qmd, ws[i].name, ws[i].value);
      ghost var done := Resolve(ws)[..i + 1];
      assert done[..i] == Resolve(ws)[..i] && done[i] == Write(Extent(ws[i].name), ws[i].value);
    }
    assert Resolve(ws)[..|ws|] == Resolve(ws);
  }

  /** The QMD assembly of launchFunction: the fixed fields, one loop over the constant banks, and
      last the argument pointer. */
  method AssembleQmd(p: Shape, constants: seq<Constant>, kernargs: nat) returns (qmd: array<nat>)
    requires BanksOk(constants)
    ensures fresh(qmd) && qmd[..] == Assembled(p, constants, kernargs)
  {
    hide Apply, Extent, FixedWrites, BankWrites, ParamWrites;
    qmd := new nat[QMD_WORDS](_ => 0);
    assert qmd[..] == Blank();
    ghost var fixed := FixedWrites(p);
    WritesOk(p, constants, kernargs);
    SetFields(qmd, FixedWrites(p));
    assert fixed + AllBankWrites(constants[..0]) == fixed;
    for i := 0 to |constants|
      invariant AllOk(Resolve(fixed + AllBankWrites(constants[..i])))
      invariant qmd[..] == Apply(Blank(), Resolve(fixed + AllBankWrites(constants[..i])))
    {
      BankOk(constants[i]);
      SetFields(qmd, BankWrites(constants[i]));
      ghost var before := fixed + AllBankWrites(constants[..i]);
      assert constants[..i + 1][..i] == constants[..i];
      assert fixed + AllBankWrites(constants[..i + 1]) == before + BankWrites(constants[i]);
      ResolveAppend(before, BankWrites(constants[i]));
    }
    assert constants[..|constants|] == constants;
    SetFields(qmd, ParamWrites(kernargs));
    ResolveAppend(fixed + AllBankWrites(constants), ParamWrites(kernargs));
  }

  lemma WritesOk(p: Shape, cs: seq<Constant>, kernargs: nat)
    requires BanksOk(cs)
    ensures NamesOk(FixedWrites(p)) && AllOk(Resolve(FixedWrites(p)))
    ensures NamesOk(ParamWrites(kernargs)) && AllOk(Resolve(ParamWrites(kernargs)))
  {
    hide Extent;
    FixedNamesPlain();
    forall i | 0 <= i < |FIXED_NAMES| ensures FixedWrites(p)[i].name.Ok() && Extent(FIXED_NAMES[i]).Ok() {
      ExtentOk(FIXED_NAMES[i]);
    }
    ExtentOk(ConstantBufferAddrUpper(0));
    ExtentOk(ConstantBufferAddrLower(0));
  }

  lemma BankOk(c: Constant)
    requires c.constNr < 8
    ensures NamesOk(BankWrites(c)) && AllOk(Resolve(BankWrites(c)))
  {
    hide Extent;
    var ws := BankWrites(c);
    forall i | 0 <= i < |ws| ensures ws[i].name.Ok() && Resolve(ws)[i].field.Ok() {
      ExtentOk(ws[i].name);
    }
  }

  lemma ResolveAppend(a: seq<NamedWrite>, b: seq<NamedWrite>)
    requires AllOk(Resolve(a)) && AllOk(Resolve(b))
    ensures Resolve(a + b) == Resolve(a) + Resolve(b) && AllOk(Resolve(a + b))
    ensures Apply(Blank(), Resolve(a + b)) == Apply(Apply(Blank(), Resolve(a)), Resolve(b))
  {
    hide Extent, Apply;
    assert Resolve(a + b) == Resolve(a) + Resolve(b);
    ApplyAppend(Blank(), Resolve(a), Resolve(b));
  }
}
