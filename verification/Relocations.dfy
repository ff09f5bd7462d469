/** Relocations of a module: how the loader collects them from the symbol table, and how it patches
    the rebuilt image with them. */
module Relocations {
  import opened Results
  import opened Bits
  import opened Image

  const FULL: nat := 0x2    // the 64-bit address
  const LOW: nat := 0x38    // its low half, in the second word of an instruction
  const HIGH: nat := 0x39   // its high half, likewise

  datatype RelocInfo = RelocInfo(offset: nat, symOffset: nat, typ: nat) {

    /** The bytes it patches. */
    function Start(): nat {
      if typ == LOW || typ == HIGH then offset + 4 else offset
    }

    function Width(): nat {
      if typ == FULL then 8 else if typ == LOW || typ == HIGH then 4 else 0
    }

    /** The number it writes for a module at `base`. */
    function Value(base: nat): nat {
      var va := (base + symOffset) % U64;
      if typ == FULL then va else if typ == LOW then va % U32 else va / U32
    }

    predicate Covers(k: nat) {
      Start() <= k < Start() + Width()
    }
  }

  /** n little-endian bytes. */
  function Bytes(v: nat, n: nat): (bs: seq<Byte>)
    ensures |bs| == n
  {
    if n == 0 then [] else [v % 256] + Bytes(v / 256, n - 1)
  }

  function Number(bs: seq<Byte>): nat {
    if bs == [] then 0 else bs[0] + 256 * Number(bs[1..])
  }

  function Limit(n: nat): nat {
    if n == 0 then 1 else 256 * Limit(n - 1)
  }

  lemma {:induction false} NumberOfBytes(v: nat, n: nat)
    requires v < Limit(n)
    ensures Number(Bytes(v, n)) == v
  {
    if n == 0 {
    } else {
      NumberOfBytes(v / 256, n - 1);
      assert Bytes(v, n)[1..] == Bytes(v / 256, n - 1);
    }
  }

  // -------------------------------------------------------------- collecting

  datatype Symbol = Symbol(section: nat, value: nat)
  datatype Entry = Entry(offset: nat, symbol: nat, typ: nat, addend: int)

  /** The entries of one relocation section, for the target section at `targetOff`. The addend of an
      entry is not used. */
  method Collect(entries: seq<Entry>, targetOff: nat, symbols: seq<Symbol>, sections: seq<Section>)
    returns (st: Status, relocs: seq<RelocInfo>)
    requires forall i | 0 <= i < |symbols| :: symbols[i].section < |sections|
    ensures st == Success <==> forall i | 0 <= i < |entries| :: entries[i].symbol < |symbols|
    ensures st == Success ==> |relocs| == |entries| && forall i | 0 <= i < |entries| ::
              relocs[i].offset == targetOff + entries[i].offset && relocs[i].typ == entries[i].typ
              && var sym := symbols[entries[i].symbol]; relocs[i].symOffset == sections[sym.section].address + sym.value
  {
    relocs := [];
    for i := 0 to |entries|
      invariant |relocs| == i && forall j | 0 <= j < i :: entries[j].symbol < |symbols|
      invariant forall j | 0 <= j < i ::
                  relocs[j].offset == targetOff + entries[j].offset && relocs[j].typ == entries[j].typ
                  && var sym := symbols[entries[j].symbol]; relocs[j].symOffset == sections[sym.section].address + sym.value
    {
      if entries[i].symbol >= |symbols| {
        return InvalidImage, relocs;
      }
      var sym := symbols[entries[i].symbol];
      relocs := relocs + [RelocInfo(targetOff + entries[i].offset, sections[sym.section].address + sym.value, entries[i].typ)];
    }
    st := Success;
  }

  // ----------------------------------------------------------------- patching

  /** Every window lies inside the image. */
  predicate WindowsInside(relocs: seq<RelocInfo>, size: nat) {
    forall i | 0 <= i < |relocs| && relocs[i].offset < size :: relocs[i].Start() + relocs[i].Width() <= size
  }

  /** None of the next relocations, up to n, patches what relocation i patches. */
  predicate NotRepatched(relocs: seq<RelocInfo>, i: nat, n: nat)
    requires i < n <= |relocs|
  {
    forall j | i < j < n :: WindowsApart(relocs[i], relocs[j])
  }

  predicate WindowsApart(a: RelocInfo, b: RelocInfo) {
    a.Width() == 0 || b.Width() == 0 || a.Start() + a.Width() <= b.Start() || b.Start() + b.Width() <= a.Start()
  }

  predicate Patched(image: seq<Byte>, r: RelocInfo, base: nat) {
    r.Start() + r.Width() <= |image| && (r.Width() > 0 ==> image[r.Start()..r.Start() + r.Width()] == Bytes(r.Value(base), r.Width()))
  }

  method Store(image: array<Byte>, at: nat, v: nat, n: nat)
    requires at + n <= image.Length
    modifies image
    ensures image[at..at + n] == Bytes(v, n)
    ensures forall k | 0 <= k < image.Length && (k < at || at + n <= k) :: image[k] == old(image[k])
  {
    var rest := v;
    for i := 0 to n
      invariant image[at..at + i] + Bytes(rest, n - i) == Bytes(v, n)
      invariant forall k | 0 <= k < image.Length && (k < at || at + i <= k) :: image[k] == old(image[k])
    {
      ghost var tail := Bytes(rest, n - i);
      assert tail == [rest % 256] + Bytes(rest / 256, n - i - 1);
      image[at + i] := rest % 256;
      assert image[at..at + i + 1] == image[at..at + i] + [rest % 256];
      rest := rest / 256;
    }
  }

  /** The patch loop at the end of the module load. It stops at the first offset outside the image;
      otherwise every window that no later one meets holds its address part, and every byte outside
      all windows is what it was. */
  method ApplyRelocations(image: array<Byte>, relocs: seq<RelocInfo>, base: nat) returns (st: Status)
    requires WindowsInside(relocs, image.Length)
    modifies image
    ensures st == Success <==> forall i | 0 <= i < |relocs| :: relocs[i].offset < image.Length
    ensures st == Success ==> forall i | 0 <= i < |relocs| && NotRepatched(relocs, i, |relocs|) :: Patched(image[..], relocs[i], base)
    ensures forall k | 0 <= k < image.Length && (forall i | 0 <= i < |relocs| :: !relocs[i].Covers(k)) ::
              image[k] == old(image[k])
  {
    hide Bytes, RelocInfo.Value, Patched, WindowsApart;
    for i := 0 to |relocs|
      invariant forall j | 0 <= j < i :: relocs[j].offset < image.Length
      invariant forall j | 0 <= j < i && NotRepatched(relocs, j, i) :: Patched(image[..], relocs[j], base)
      invariant forall k | 0 <= k < image.Length && (forall j | 0 <= j < |relocs| :: !relocs[j].Covers(k)) ::
                  image[k] == old(image[k])
    {
      if relocs[i].offset >= image.Length {
        return InvalidImage;
      }
      ghost var was := image[..];
      ApplyOne(image, relocs[i], base);
      forall j | 0 <= j < i && NotRepatched(relocs, j, i + 1) ensures Patched(image[..], relocs[j], base) {
        assert WindowsApart(relocs[j], relocs[i]) && NotRepatched(relocs, j, i);
        StaysPatched(was, image[..], relocs[j], relocs[i], base);
      }
    }
    st := Success;
  }

  method ApplyOne(image: array<Byte>, r: RelocInfo, base: nat)
    requires r.Start() + r.Width() <= image.Length
    modifies image
    ensures Patched(image[..], r, base)
    ensures forall k | 0 <= k < image.Length && !r.Covers(k) :: image[k] == old(image[k])
  {
    hide Bytes;
    var va := (base + r.symOffset) % U64;
    match r.typ {
      case 0x2 => Store(image, r.offset, va, 8);
      case 0x38 => Store(image, r.offset + 4, va % U32, 4);
      case 0x39 => Store(image, r.offset + 4, va / U32, 4);
      case _ =>
    }
  }

  lemma StaysPatched(was: seq<Byte>, now: seq<Byte>, r: RelocInfo, other: RelocInfo, base: nat)
    requires Patched(was, r, base) && WindowsApart(r, other) && |was| == |now|
    requires forall k | 0 <= k < |now| && !other.Covers(k) :: now[k] == was[k]
    ensures Patched(now, r, base)
  {
    hide Bytes, RelocInfo.Value;
    var a, b := r.Start(), r.Start() + r.Width();
    assert now[a..b] == was[a..b];
  }

  // ------------------------------------------------------------ what it means

  lemma Limits()
    ensures Limit(4) == U32 && Limit(8) == U64
  {
    assert Limit(2) == 0x1_0000 && Limit(4) == U32 && Limit(6) == 0x1_0000_0000_0000;
  }

  /** A full relocation leaves the address of its symbol; a low and a high one recombine to it. */
  lemma PatchedAddress(image: seq<Byte>, full: RelocInfo, low: RelocInfo, high: RelocInfo, base: nat)
    requires Patched(image, full, base) && Patched(image, low, base) && Patched(image, high, base)
    requires full.typ == 0x2 && low.typ == 0x38 && high.typ == 0x39 && low.symOffset == high.symOffset
    requires base + full.symOffset < U64 && base + low.symOffset < U64
    ensures Number(image[full.offset..full.offset + 8]) == base + full.symOffset
    ensures Number(image[low.offset + 4..low.offset + 8]) + U32 * Number(image[high.offset + 4..high.offset + 8])
            == base + low.symOffset
  {
    hide Bytes, Number, Limit;
    Limits();
    NumberOfBytes(full.Value(base), 8);
    NumberOfBytes(low.Value(base), 4);
    NumberOfBytes(high.Value(base), 4);
  }

  /** In the rebuilt image that address is where the symbol's own byte lies: the placed section puts
      byte `value` of its data there. */
  lemma PointsAtSymbol(was: seq<Section>, now: seq<Section>, image: seq<Byte>, fixedEnd: nat, sym: Symbol)
    requires |was| == |now| && sym.section < |was| && was[sym.section].progbits
    requires Rebuilt(was, now, |was|, image, fixedEnd) && NotOverwritten(was, sym.section, |was|) && sym.value < |was[sym.section].data|
    ensures now[sym.section].address + sym.value < |image|
    ensures image[now[sym.section].address + sym.value] == was[sym.section].data[sym.value]
  {
    var s := now[sym.section];
    assert Holds(image, s);
    assert image[s.address..s.End()][sym.value] == s.data[sym.value];
  }
}
