/** How a module's image is rebuilt: sections with an address stay where they are, the others are
    appended behind them, each aligned to at least 128 bytes. */
module Image {
  import opened Bits

  const FORCE_SECTION_ALIGN: nat := 128

  datatype Section = Section(progbits: bool, address: nat, align: nat, data: seq<Byte>) {
    predicate Fixed() { progbits && address != 0 }
    predicate Appended() { progbits && address == 0 }
    function End(): nat { address + |data| }
  }

  function Max(a: nat, b: nat): nat {
    if a > b then a else b
  }

  // --------------------------------------------------------------- padding

  /** ((align - size) % align) in 64-bit unsigned arithmetic. */
  function Padding(align: nat, size: nat): nat
    requires align > 0
  {
    (align - size) % U64 % align
  }

  /** The padding reaches a multiple of the alignment exactly when nothing wraps around or the
      alignment divides 2^64. */
  lemma PaddingIff(align: nat, size: nat)
    requires 0 < align < U64 && size < U64
    ensures (size + Padding(align, size)) % align == 0 <==> size <= align || U64 % align == 0
  {
    var x := (align - size) % U64;
    var q, r := x / align, x % align;
    assert x == q * align + r;
    assert size + x == q * align + (size + r);
    ModShift(q, size + r, align);
    if size <= align {
      assert size + x == 1 * align + 0;
    } else {
      assert x == U64 + align - size;
      assert size + x == 1 * align + U64;
      ModShift(1, U64, align);
    }
    ModShift(1, 0, align);
  }

  predicate PowerOfTwo(a: nat) {
    exists k: nat | k < 32 :: a == Pow2(k)
  }

  /** sh_addralign: zero, or a power of two that fits 32 bits. */
  predicate AlignOk(a: nat) {
    a == 0 || PowerOfTwo(a)
  }

  lemma Divides(k: nat, n: nat)
    requires k <= n
    ensures Pow2(n) % Pow2(k) == 0 && Pow2(n) >= Pow2(k)
  {
    hide Pow2;
    Pow2Add(n - k, k);
    ModShift(Pow2(n - k), 0, Pow2(k));
    assert (Pow2(n - k) - 1) * Pow2(k) >= 0;
  }

  lemma {:induction false} Pow2Add(a: nat, b: nat)
    ensures Pow2(a + b) == Pow2(a) * Pow2(b)
  {
    if a == 0 {
    } else {
      Pow2Add(a - 1, b);
      assert Pow2(a) * Pow2(b) == 2 * (Pow2(a - 1) * Pow2(b));
    }
  }

  /** The section's alignment, cut to 32 bits, or 128 if that is more. */
  function EffectiveAlign(a: nat): (r: nat)
    ensures r > 0
  {
    Max(a % U32, FORCE_SECTION_ALIGN)
  }

  lemma PowersFit(k: nat)
    requires k < 32
    ensures Pow2(k) < U32
  {
    Pow64();
    Divides(k, 31);
    assert Pow2(32) == 2 * Pow2(31);
  }

  lemma EffectiveOk(a: nat)
    requires AlignOk(a)
    ensures exists k: nat | 7 <= k < 32 :: EffectiveAlign(a) == Pow2(k) && (a == 0 || exists j: nat | j <= k :: a == Pow2(j))
  {
    assert Pow2(7) == 128;
    if a != 0 {
      var k: nat :| k < 32 && a == Pow2(k);
      PowersFit(k);
    }
    assert a % U32 == a;
    if a > 128 {
      var k: nat :| k < 32 && a == Pow2(k);
      if k < 7 { Divides(k, 7); }
    } else if a != 0 {
      var k: nat :| k < 32 && a == Pow2(k);
      assert Pow2(8) == 256;
      if k > 7 { Divides(8, k); }
    }
  }

  /** A multiple of the effective alignment is a multiple of the section's own and of 128. */
  lemma BothAligned(a: nat, x: nat)
    requires AlignOk(a) && x % EffectiveAlign(a) == 0
    ensures x % FORCE_SECTION_ALIGN == 0 && (a > 0 ==> x % a == 0)
  {
    EffectiveOk(a);
    var k: nat :| 7 <= k < 32 && EffectiveAlign(a) == Pow2(k) && (a == 0 || exists j: nat | j <= k :: a == Pow2(j));
    assert Pow2(7) == 128;
    MultipleOf(x, 7, k);
    if a > 0 {
      var j: nat :| j <= k && a == Pow2(j);
      MultipleOf(x, j, k);
    }
  }

  lemma MultipleOf(x: nat, j: nat, k: nat)
    requires j <= k && x % Pow2(k) == 0
    ensures x % Pow2(j) == 0
  {
    hide Pow2;
    var q := x / Pow2(k);
    Pow2Add(k - j, j);
    assert x == q * (Pow2(k - j) * Pow2(j)) == (q * Pow2(k - j)) * Pow2(j);
    ModShift(q * Pow2(k - j), 0, Pow2(j));
  }

  lemma PaddingAligns(a: nat, size: nat)
    requires AlignOk(a)
    ensures EffectiveAlign(a) > 0 && (size + Padding(EffectiveAlign(a), size)) % EffectiveAlign(a) == 0
  {
    hide Pow2, Padding, AlignOk, EffectiveAlign;
    EffectiveOk(a);
    var k: nat :| 7 <= k < 32 && EffectiveAlign(a) == Pow2(k);
    Divides(k, 64);
    Divides(k, 32);
    Pow64();
    DividingPadding(EffectiveAlign(a), size);
  }

  lemma DividingPadding(align: nat, size: nat)
    requires 0 < align < U64 && U64 % align == 0
    ensures (size + Padding(align, size)) % align == 0
  {
    var x := (align - size) % U64;
    var m: nat := -((align - size) / U64);
    var d, q, r := U64 / align, x / align, x % align;
    assert U64 == d * align && x == q * align + r;
    assert size + x == align + m * U64;
    assert m * U64 == (m * d) * align;
    ModShift(q, size + r, align);
    ModShift(1 + m * d, 0, align);
    assert q * align + (size + r) == (1 + m * d) * align + 0;
  }

  lemma Pow64()
    ensures Pow2(64) == U64 && Pow2(32) == U32
  {
    assert Pow2(8) == 0x100 && Pow2(16) == 0x1_0000 && Pow2(24) == 0x100_0000 && Pow2(32) == 0x1_0000_0000;
    hide Pow2;
    Pow2Add(32, 32);
  }

  // ---------------------------------------------------------------- rebuild

  /** Where the sections end up: the fixed ones below `fixedEnd`, the others above it. */
  ghost predicate Rebuilt(was: seq<Section>, now: seq<Section>, n: nat, image: seq<Byte>, fixedEnd: nat)
    requires n <= |was| == |now|
  {
    && fixedEnd <= |image|
    && (forall i | 0 <= i < |was| :: now[i] == was[i].(address := now[i].address))
    && (forall i | 0 <= i < |was| :: was[i].Fixed() ==> now[i] == was[i] && was[i].End() <= fixedEnd)
    && (forall i | 0 <= i < |was| :: !was[i].progbits || n <= i ==> now[i] == was[i])
    && (forall i | 0 <= i < n && was[i].progbits :: now[i].End() <= |image| && (NotOverwritten(was, i, n) ==> Holds(image, now[i])))
    && (forall i | 0 <= i < n :: was[i].Appended() ==>
          fixedEnd <= now[i].address && (AlignOk(was[i].align) ==> now[i].address % EffectiveAlign(was[i].align) == 0))
    && (forall i, j | 0 <= i < j < n :: was[i].Appended() && was[j].Appended() ==> now[i].End() <= now[j].address)
  }

  predicate Holds(image: seq<Byte>, s: Section) {
    s.End() <= |image| && image[s.address..s.End()] == s.data
  }

  predicate FixedPair(a: Section, b: Section) {
    a.End() <= b.address || b.End() <= a.address
  }

  /** None of the next sections, up to n, is put over section i. */
  predicate NotOverwritten(sections: seq<Section>, i: nat, n: nat)
    requires i < n <= |sections|
  {
    forall j | i < j < n && sections[i].Fixed() && sections[j].Fixed() :: FixedPair(sections[i], sections[j])
  }

  /** Sections with an address do not overlap. */
  predicate FixedApart(sections: seq<Section>) {
    forall i, j | 0 <= i < j < |sections| && sections[i].Fixed() && sections[j].Fixed() ::
      FixedPair(sections[i], sections[j])
  }

  function Zeros(n: nat): (z: seq<Byte>)
    ensures |z| == n
  {
    seq(n, i => 0)
  }

  /** The end of the last section with an address. */
  method FixedEnd(sections: seq<Section>) returns (end: nat)
    ensures forall i | 0 <= i < |sections| && sections[i].Fixed() :: sections[i].End() <= end
    ensures end == 0 || exists i | 0 <= i < |sections| :: sections[i].Fixed() && sections[i].End() == end
  {
    end := 0;
    for i := 0 to |sections|
      invariant forall j | 0 <= j < i && sections[j].Fixed() :: sections[j].End() <= end
      invariant end == 0 || exists j | 0 <= j < i :: sections[j].Fixed() && sections[j].End() == end
    {
      if sections[i].Fixed() {
        end := Max(end, sections[i].End());
      }
    }
  }

  method CopyData(image: seq<Byte>, at: nat, data: seq<Byte>) returns (r: seq<Byte>)
    requires at + |data| <= |image|
    ensures r == image[..at] + data + image[at + |data|..]
  {
    r := image;
    for i := 0 to |data|
      invariant r == image[..at] + data[..i] + image[at + i..]
    {
      r := r[at + i := data[i]];
    }
  }

  lemma KeepsOthers(image: seq<Byte>, at: nat, data: seq<Byte>, t: Section)
    requires at + |data| <= |image| && Holds(image, t) && (t.End() <= at || at + |data| <= t.address)
    ensures Holds(image[..at] + data + image[at + |data|..], t)
  {
    var r := image[..at] + data + image[at + |data|..];
    assert r[t.address..t.End()] == image[t.address..t.End()];
  }

  lemma FixedPlaced(was: seq<Section>, now: seq<Section>, i: nat, image: seq<Byte>, image': seq<Byte>, fixedEnd: nat)
    requires i < |was| == |now| && Rebuilt(was, now, i, image, fixedEnd) && was[i].Fixed()
    requires image' == image[..was[i].address] + was[i].data + image[was[i].End()..]
    ensures Rebuilt(was, now, i + 1, image', fixedEnd)
  {
    hide Holds, EffectiveAlign, AlignOk;
    forall j | 0 <= j < i + 1 && was[j].progbits && NotOverwritten(was, j, i + 1) ensures Holds(image', now[j]) {
      if j < i {
        assert NotOverwritten(was, j, i);
        assert was[j].Fixed() ==> FixedPair(was[j], was[i]);
        KeepsOthers(image, was[i].address, was[i].data, now[j]);
      } else {
        HoldsCopied(image, image', was[i]);
      }
    }
  }

  lemma HoldsCopied(image: seq<Byte>, image': seq<Byte>, s: Section)
    requires s.End() <= |image| && image' == image[..s.address] + s.data + image[s.End()..]
    ensures Holds(image', s)
  {
  }

  lemma AppendedPlaced(was: seq<Section>, now: seq<Section>, i: nat, image: seq<Byte>, pad: nat, image': seq<Byte>,
                       now': seq<Section>, fixedEnd: nat)
    requires i < |was| == |now| && Rebuilt(was, now, i, image, fixedEnd) && was[i].Appended()
    requires AlignOk(was[i].align) ==> (|image| + pad) % EffectiveAlign(was[i].align) == 0
    requires image' == image + Zeros(pad) + was[i].data
    requires now' == now[i := now[i].(address := |image'| - |was[i].data|)]
    ensures Rebuilt(was, now', i + 1, image', fixedEnd)
  {
    hide Holds, EffectiveAlign, AlignOk;
    forall j | 0 <= j < i + 1 && was[j].progbits && NotOverwritten(was, j, i + 1) ensures Holds(image', now'[j]) {
      assert j < i ==> NotOverwritten(was, j, i);
      HoldsMore(image, Zeros(pad), was[i].data, now'[j]);
    }
  }

  lemma HoldsMore(image: seq<Byte>, pad: seq<Byte>, data: seq<Byte>, s: Section)
    requires Holds(image, s) || (s.data == data && s.address == |image| + |pad|)
    ensures Holds(image + pad + data, s)
  {
    if Holds(image, s) {
      assert (image + pad + data)[s.address..s.End()] == image[s.address..s.End()];
    }
  }

  /** The image loop of libreCuModuleLoadData, for any sections: an overlapped section may be overwritten
      by a later one, and an odd alignment is not kept. */
  method Rebuild(sections: seq<Section>) returns (image: seq<Byte>, placed: seq<Section>)
    ensures |placed| == |sections|
    ensures exists fixedEnd: nat :: Rebuilt(sections, placed, |sections|, image, fixedEnd)
  {
    hide Padding, AlignOk;
    placed := sections;
    var fixedEnd := FixedEnd(sections);
    image := Zeros(fixedEnd);
    for i := 0 to |sections|
      invariant |placed| == |sections| && Rebuilt(sections, placed, i, image, fixedEnd)
    {
      image, placed := PlaceSection(sections, placed, i, image, fixedEnd);
    }
  }

  /** One turn of that loop. */
  method PlaceSection(ghost sections: seq<Section>, placed: seq<Section>, i: nat, image: seq<Byte>, ghost fixedEnd: nat)
    returns (image': seq<Byte>, placed': seq<Section>)
    requires i < |sections| == |placed| && Rebuilt(sections, placed, i, image, fixedEnd)
    ensures |placed'| == |sections| && Rebuilt(sections, placed', i + 1, image', fixedEnd)
  {
    hide Padding, AlignOk;
    var s := placed[i];
    image', placed' := image, placed;
    if !s.progbits {
      return;
    }
    if s.address != 0 {
      image' := CopyData(image, s.address, s.data);
      FixedPlaced(sections, placed, i, image, image', fixedEnd);
    } else {
      var align := EffectiveAlign(s.align);
      if AlignOk(s.align) { PaddingAligns(s.align, |image|); }
      image' := image + Zeros(Padding(align, |image|));
      image' := image' + s.data;
      placed' := placed[i := s.(address := |image'| - |s.data|)];
      AppendedPlaced(sections, placed, i, image, Padding(align, |image|), image', placed', fixedEnd);
    }
  }

  // ----------------------------------------------------- what it amounts to

  /** Every program section's bytes lie at its final address; sections that had none are aligned to
      their own alignment and to 128 and overlap no other section. */
  lemma RebuiltLayout(was: seq<Section>, now: seq<Section>, image: seq<Byte>, fixedEnd: nat, i: nat)
    requires |was| == |now| && i < |was| && was[i].progbits && AlignOk(was[i].align)
    requires Rebuilt(was, now, |was|, image, fixedEnd) && FixedApart(was)
    ensures now[i].data == was[i].data && now[i].End() <= |image|
    ensures image[now[i].address..now[i].End()] == was[i].data
    ensures was[i].address != 0 ==> now[i].address == was[i].address
    ensures was[i].address == 0 ==>
              now[i].address % FORCE_SECTION_ALIGN == 0 && (was[i].align > 0 ==> now[i].address % was[i].align == 0)
    ensures forall j | 0 <= j < |was| && j != i && was[j].progbits ::
              now[i].End() <= now[j].address || now[j].End() <= now[i].address
  {
    hide EffectiveAlign, AlignOk;
    if was[i].Appended() { BothAligned(was[i].align, now[i].address); }
    forall j | 0 <= j < |was| && j != i && was[j].progbits
      ensures now[i].End() <= now[j].address || now[j].End() <= now[i].address
    {
      if was[i].Appended() && was[j].Appended() {
        assert if i < j then now[i].End() <= now[j].address else now[j].End() <= now[i].address;
      } else if was[i].Fixed() && was[j].Fixed() {
        assert if i < j then FixedPair(was[i], was[j]) else FixedPair(was[j], was[i]);
      }
    }
  }
}
