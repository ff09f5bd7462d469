/** One launch's block of the argument page: the driver's constants, the packed parameters behind
    them, and the QMD behind constant bank 0. */
module LaunchBlock {
  import opened Results
  import opened Bits
  import opened KernArgs
  import Stream
  import QmdLaunch
  import Qmd

  const CONST_WORDS: nat := 88

  /** Byte offset of the QMD. */
  function QmdOffset(const0: nat): nat {
    RoundUp(const0, 256)
  }

  /** The QMD begins at the first multiple of 256 behind bank 0, and the block reserves 2048 bytes for it. */
  lemma Offsets(const0: nat)
    ensures const0 <= QmdOffset(const0) < const0 + 256 && QmdOffset(const0) % 256 == 0
    ensures Stream.BlockSize(const0) == QmdOffset(const0) + 2048
    ensures QmdOffset(const0) / 4 * 4 == QmdOffset(const0)
  {
    RoundsUp(const0, 256);
    Quarter(QmdOffset(const0));
  }

  lemma RoundsUp(n: nat, a: nat)
    requires a > 0
    ensures n <= RoundUp(n, a) < n + a && RoundUp(n, a) % a == 0
  {
    var q, r := (n + a - 1) / a, (n + a - 1) % a;
    assert n + a - 1 == q * a + r;
    DivMod(q, 0, a);
  }

  lemma Quarter(n: nat)
    requires n % 256 == 0
    ensures n / 4 * 4 == n
  {
    assert n == 4 * (64 * (n / 256));
  }

  /** The first words of constant bank 0. */
  function ConstBuf0(p: QmdLaunch.Shape): (ws: seq<nat>)
    ensures |ws| == CONST_WORDS
  {
    [p.blockX, p.blockY, p.blockZ, p.gridX, p.gridY, p.gridZ,
     0xfe00_0000, 0, 0xff00_0000, 0, 0xfffdc0, 0] + seq(76, i => 0)
  }

  /** The bytes that the parameters take: each size rounded up to whole words. */
  function ParameterBytes(params: seq<seq<Byte>>): nat {
    if params == [] then 0
    else ParameterBytes(params[..|params| - 1]) + RoundUp(|params[|params| - 1]|, 4)
  }

  lemma {:induction false} FlatBytes(params: seq<seq<Byte>>)
    ensures 4 * |Flat(params)| == ParameterBytes(params)
  {
    if params == [] {
    } else {
      FlatBytes(params[..|params| - 1]);
    }
  }

  /** Constants and parameters end before the QMD begins. */
  predicate Covers(const0: nat, params: seq<seq<Byte>>) {
    4 * CONST_WORDS + ParameterBytes(params) <= QmdOffset(const0)
  }

  /** They end before the block does. */
  predicate Fits(const0: nat, params: seq<seq<Byte>>) {
    4 * CONST_WORDS + ParameterBytes(params) <= Stream.BlockSize(const0)
  }

  /** launchFunction's own check on the parameters. */
  predicate CheckPasses(const0: nat, params: seq<seq<Byte>>) {
    && 4 * CONST_WORDS < Stream.BlockSize(const0)
    && 4 * CONST_WORDS + 8 * |params| < Stream.BlockSize(const0)
  }

  predicate InQmd(const0: nat, word: nat) {
    QmdOffset(const0) / 4 <= word < QmdOffset(const0) / 4 + Qmd.QMD_WORDS
  }

  /** Whatever passes the check: no word of the constants and the parameters lies under the QMD exactly
      when bank 0, rounded up, covers them all. */
  lemma ClearOfQmdIff(const0: nat, params: seq<seq<Byte>>)
    requires CheckPasses(const0, params)
    ensures (forall k: nat | k < CONST_WORDS + |Flat(params)| :: !InQmd(const0, k)) <==> Covers(const0, params)
  {
    hide Flat, ParameterBytes;
    FlatBytes(params);
    Offsets(const0);
    var q := QmdOffset(const0) / 4;
    assert InQmd(const0, q);
  }

  /** The same for the parameters alone, which also miss the QMD when there are none or when the QMD
      lies under the constants. */
  lemma ParametersClearIff(const0: nat, params: seq<seq<Byte>>)
    requires CheckPasses(const0, params)
    ensures (forall k: nat | CONST_WORDS <= k < CONST_WORDS + |Flat(params)| :: !InQmd(const0, k))
            <==> Covers(const0, params) || ParameterBytes(params) == 0 || const0 == 0
  {
    hide Flat, ParameterBytes;
    FlatBytes(params);
    Offsets(const0);
    var q := QmdOffset(const0) / 4;
    if const0 > 0 {
      assert q >= 64;
      assert q < CONST_WORDS ==> InQmd(const0, CONST_WORDS);
      assert InQmd(const0, q);
    }
  }

  /** Whatever passes the check: every parameter word lies inside the block exactly when they end by
      its size ... */
  lemma InsideBlockIff(const0: nat, params: seq<seq<Byte>>)
    requires CheckPasses(const0, params)
    ensures (forall k: nat | CONST_WORDS <= k < CONST_WORDS + |Flat(params)| :: 4 * k + 4 <= Stream.BlockSize(const0))
            <==> Fits(const0, params)
  {
    hide Flat, ParameterBytes;
    FlatBytes(params);
    Offsets(const0);
    var last := CONST_WORDS + |Flat(params)| - 1;
    if |Flat(params)| > 0 && forall k: nat | CONST_WORDS <= k < CONST_WORDS + |Flat(params)| :: 4 * k + 4 <= Stream.BlockSize(const0) {
      assert 4 * last + 4 <= Stream.BlockSize(const0);
    }
  }

  /** ... which the check guarantees as long as no parameter is longer than 8 bytes. */
  lemma {:induction false} SmallParameters(params: seq<seq<Byte>>)
    requires forall i | 0 <= i < |params| :: |params[i]| <= 8
    ensures ParameterBytes(params) <= 8 * |params|
  {
    if params == [] {
    } else {
      SmallParameters(params[..|params| - 1]);
    }
  }

  lemma CheckKeepsInside(const0: nat, params: seq<seq<Byte>>)
    requires CheckPasses(const0, params) && forall i | 0 <= i < |params| :: |params[i]| <= 8
    ensures Fits(const0, params)
  {
    hide ParameterBytes;
    SmallParameters(params);
  }

  function Zeros(n: nat): (r: seq<Byte>)
    ensures |r| == n
  {
    seq(n, i => 0)
  }

  /** One array parameter of 8192 bytes passes the check and runs past the whole block. */
  lemma ArrayRunsPast()
    ensures CheckPasses(352, [Zeros(8192)]) && !Fits(352, [Zeros(8192)])
  {
    assert [Zeros(8192)][..0] == [];
    Offsets(352);
  }

  /** A bank that declares its own parameters always covers them. */
  lemma DeclaredBankCovers(const0: nat, params: seq<seq<Byte>>)
    requires 4 * CONST_WORDS + ParameterBytes(params) <= const0
    ensures Covers(const0, params) && Fits(const0, params)
  {
    Offsets(const0);
  }

  lemma {:induction false} BytesOfPointers(n: nat)
    ensures ParameterBytes(Pointers(n)) == 8 * n
  {
    if n == 0 {
    } else {
      assert Pointers(n)[..n - 1] == Pointers(n - 1);
      BytesOfPointers(n - 1);
    }
  }

  function Pointers(n: nat): (r: seq<seq<Byte>>)
    ensures |r| == n && forall i | 0 <= i < n :: |r[i]| == 8
  {
    seq(n, i => [0, 0, 0, 0, 0, 0, 0, 0])
  }

  /** Thirty pointers pass the check with a bank of 352 bytes and reach the QMD. */
  lemma CheckTooWeak()
    ensures CheckPasses(352, Pointers(30)) && !Covers(352, Pointers(30))
  {
    BytesOfPointers(30);
    Offsets(352);
  }

  method CopyInto(block: array<nat>, at: nat, words: seq<nat>)
    requires at + |words| <= block.Length
    modifies block
    ensures block[at..at + |words|] == words
    ensures block[..at] == old(block[..at]) && block[at + |words|..] == old(block[at + |words|..])
  {
    for i := 0 to |words|
      invariant block[at..at + i] == words[..i]
      invariant block[..at] == old(block[..at]) && block[at + i..] == old(block[at + i..])
    {
      block[at + i] := words[i];
    }
  }

  lemma Untouched(was: seq<nat>, now: seq<nat>, a: nat, b: nat, lo: nat, hi: nat)
    requires |was| == |now| && a <= b <= |was| && lo <= hi <= |was| && (b <= lo || hi <= a)
    requires now[..lo] == was[..lo] && now[hi..] == was[hi..]
    ensures now[a..b] == was[a..b]
  {
    forall k | a <= k < b ensures now[k] == was[k] {
      if k < lo { assert now[..lo][k] == was[..lo][k]; }
      else { assert now[hi..][k - hi] == was[hi..][k - hi]; }
    }
  }

  /** What a kernel finds at the start of its block: the block's dimensions, the grid's, the windows of
      shared and local memory, low half first, and zeros. */
  predicate DriverWords(block: seq<nat>, shape: QmdLaunch.Shape) {
    && |block| >= 64
    && block[0] == shape.blockX && block[1] == shape.blockY && block[2] == shape.blockZ
    && block[3] == shape.gridX && block[4] == shape.gridY && block[5] == shape.gridZ
    && block[6] == 0xfe00_0000 && block[7] == 0
    && block[8] == 0xff00_0000 && block[9] == 0
    && block[10] == 0xfffdc0 && block[11] == 0
    && forall k | 12 <= k < 64 :: block[k] == 0
  }

  /** Storing the QMD leaves the constants alone, except for those it lies over. */
  lemma ConstantsStay(was: seq<nat>, now: seq<nat>, const0: nat, shape: QmdLaunch.Shape, params: seq<seq<Byte>>)
    requires QmdOffset(const0) / 4 + Qmd.QMD_WORDS <= |now| && |now| == |was| >= CONST_WORDS
    requires was[..CONST_WORDS] == ConstBuf0(shape)
    requires var q := QmdOffset(const0) / 4; now[..q] == was[..q]
    ensures const0 > 0 ==> DriverWords(now, shape)
    ensures Covers(const0, params) ==> forall k | 12 <= k < 88 :: now[k] == 0
  {
    hide ParameterBytes, QmdOffset;
    Offsets(const0);
    var q := QmdOffset(const0) / 4;
    assert const0 > 0 ==> q >= 64;
    forall k | 0 <= k < q && k < CONST_WORDS ensures now[k] == ConstBuf0(shape)[k] {
      assert now[k] == now[..q][k] == was[..q][k] == was[k] == was[..CONST_WORDS][k];
    }
  }

  /** What launchFunction leaves in the block: the QMD, and around it every word of the constants and
      the parameters; all of them when bank 0 covers them. */
  method FillBlock(block: array<nat>, const0: nat, shape: QmdLaunch.Shape, params: seq<seq<Byte>>,
                   constants: seq<QmdLaunch.Constant>, va: nat) returns (st: Status)
    requires 4 * block.Length == Stream.BlockSize(const0) && Fits(const0, params)
    requires QmdLaunch.BanksOk(constants)
    modifies block
    ensures st == Success <==> forall i | 0 <= i < |params| :: SizeOk(|params[i]|)
    ensures QmdOffset(const0) / 4 + Qmd.QMD_WORDS <= block.Length
    ensures st == Success ==>
              var n, q := CONST_WORDS + |Flat(params)|, QmdOffset(const0) / 4;
              && n <= block.Length
              && block[q..q + Qmd.QMD_WORDS] == QmdLaunch.Assembled(shape, constants, va)
              && (forall k | 0 <= k < n && !InQmd(const0, k) :: block[k] == (ConstBuf0(shape) + Flat(params))[k])
              && (Covers(const0, params) ==> block[..n] == ConstBuf0(shape) + Flat(params))
    ensures st == Success && const0 > 0 ==> DriverWords(block[..], shape)
    ensures st == Success && Covers(const0, params) ==> forall k | 12 <= k < 88 :: block[k] == 0
  {
    hide Flat, ParameterBytes, SizeOk, ConstBuf0, QmdLaunch.Assembled, QmdOffset;
    FlatBytes(params);
    Offsets(const0);
    var q := QmdOffset(const0) / 4;
    ghost var n := CONST_WORDS + |Flat(params)|;
    CopyInto(block, 0, ConstBuf0(shape));
    ghost var first := block[..];
    st := Pack(block, CONST_WORDS, params);
    if st != Success {
      return;
    }
    ghost var second := block[..];
    Untouched(first, second, 0, CONST_WORDS, CONST_WORDS, n);
    assert second[..n] == second[0..CONST_WORDS] + second[CONST_WORDS..n] == ConstBuf0(shape) + Flat(params);
    var qmd := QmdLaunch.AssembleQmd(shape, constants, va);
    assert block[..] == second;
    CopyInto(block, q, qmd[..]);
    Around(second, block[..], const0, n);
    ConstantsStay(second, block[..], const0, shape, params);
  }

  lemma Around(was: seq<nat>, now: seq<nat>, const0: nat, n: nat)
    requires |was| == |now| && n <= |was| && QmdOffset(const0) / 4 + Qmd.QMD_WORDS <= |was|
    requires var q := QmdOffset(const0) / 4; now[..q] == was[..q] && now[q + Qmd.QMD_WORDS..] == was[q + Qmd.QMD_WORDS..]
    ensures forall k | 0 <= k < n && !InQmd(const0, k) :: now[k] == was[..n][k]
    ensures n <= QmdOffset(const0) / 4 ==> now[..n] == was[..n]
  {
    var q := QmdOffset(const0) / 4;
    forall k | 0 <= k < n && !InQmd(const0, k) ensures now[k] == was[..n][k] {
      if k < q { assert now[..q][k] == was[..q][k]; }
      else { assert now[q + Qmd.QMD_WORDS..][k - q - Qmd.QMD_WORDS] == was[q + Qmd.QMD_WORDS..][k - q - Qmd.QMD_WORDS]; }
    }
  }
}
