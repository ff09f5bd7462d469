/** Kernel parameters on both sides of a launch: the loader derives their sizes from offsets, and
    launchFunction packs their bytes as words behind the driver's constants. */
module KernArgs {
  import opened Results
  import opened Bits

  // ------------------------------------------------------------- the loader

  datatype ParamInfo = ParamInfo(index: nat, offset: nat, size: nat)

  /** The size the loader gives to parameter i, in 16 bits. */
  function DerivedSize(params: seq<ParamInfo>, total: nat, i: nat): nat
    requires i < |params|
  {
    var next := if i + 1 < |params| then params[i + 1].offset else total;
    (next - params[i].offset) % U16
  }

  /** The loop over the sorted parameters at the end of the module load. */
  method DeriveSizes(sorted: seq<ParamInfo>, total: nat) returns (params: seq<ParamInfo>)
    ensures |params| == |sorted|
    ensures forall i | 0 <= i < |params| :: params[i] == sorted[i].(size := DerivedSize(sorted, total, i))
  {
    params := sorted;
    for i := 0 to |sorted|
      invariant |params| == |sorted|
      invariant forall j | 0 <= j < i :: params[j] == sorted[j].(size := DerivedSize(sorted, total, j))
      invariant forall j | i <= j < |sorted| :: params[j] == sorted[j]
    {
      var current := params[i];
      if i + 1 < |params| {
        current := current.(size := (params[i + 1].offset - current.offset) % U16);
      } else {
        current := current.(size := (total - current.offset) % U16);
      }
      params := params[i := current];
    }
  }

  /** Sorting by distinct indices has only one result, whatever algorithm does it. */
  ghost predicate SortOf(r: seq<ParamInfo>, params: seq<ParamInfo>) {
    multiset(r) == multiset(params) && forall i, j | 0 <= i < j < |r| :: r[i].index < r[j].index
  }

  lemma {:induction false} SortUnique(a: seq<ParamInfo>, b: seq<ParamInfo>)
    requires SortOf(a, b) && SortOf(b, a)
    ensures a == b
  {
    if a == [] {
      assert |multiset(b)| == |multiset(a)| == 0;
    } else {
      SameHeads(a, b);
      assert a == [a[0]] + a[1..] && b == [b[0]] + b[1..];
      SortUnique(a[1..], b[1..]);
    }
  }

  lemma SameHeads(a: seq<ParamInfo>, b: seq<ParamInfo>)
    requires SortOf(a, b) && SortOf(b, a) && a != []
    ensures b != [] && a[0] == b[0] && SortOf(a[1..], b[1..]) && SortOf(b[1..], a[1..])
  {
    assert a[0] in multiset(b);
    assert b[0] in multiset(a);
    var i :| 0 <= i < |b| && b[i] == a[0];
    var j :| 0 <= j < |a| && a[j] == b[0];
    assert i == 0;
    Tail(a);
    Tail(b);
  }

  lemma Tail(a: seq<ParamInfo>)
    requires a != []
    ensures multiset(a[1..]) == multiset(a) - multiset{a[0]}
  {
    assert a == [a[0]] + a[1..];
  }

  // ------------------------------------------------------------- the packer

  function At(p: seq<Byte>, k: nat): Byte {
    if k < |p| then p[k] else 0
  }

  function WordOf(p: seq<Byte>, k: nat): (w: nat)
    ensures w < U32
  {
    At(p, 4 * k) + 0x100 * At(p, 4 * k + 1) + 0x1_0000 * At(p, 4 * k + 2) + 0x100_0000 * At(p, 4 * k + 3)
  }

  function WordCount(size: nat): nat {
    (size + 3) / 4
  }

  /** The little-endian words of a parameter; a short one is extended with zeros. */
  function Words(p: seq<Byte>): (ws: seq<nat>)
    ensures |ws| == WordCount(|p|)
    ensures forall k | 0 <= k < |ws| :: ws[k] == WordOf(p, k)
  {
    seq(WordCount(|p|), k requires 0 <= k => WordOf(p, k))
  }

  function Flat(params: seq<seq<Byte>>): seq<nat> {
    if params == [] then [] else Flat(params[..|params| - 1]) + Words(params[|params| - 1])
  }

  predicate SizeOk(size: nat) {
    size == 1 || size == 2 || size % 4 == 0
  }

  /** A little-endian load of n bytes. */
  function Load(p: seq<Byte>, n: nat): nat
    requires n <= |p|
  {
    if n == 0 then 0 else p[0] + 0x100 * Load(p[1..], n - 1)
  }

  lemma Load4(p: seq<Byte>)
    requires |p| >= 4
    ensures Load(p, 4) == WordOf(p, 0)
  {
    assert p[1..][0] == p[1] && p[1..][1..][0] == p[2] && p[1..][1..][1..][0] == p[3];
    assert Load(p[1..], 3) == p[1] + 0x100 * Load(p[1..][1..], 2);
    assert Load(p[1..][1..], 2) == p[2] + 0x100 * Load(p[1..][1..][1..], 1);
    assert Load(p[1..][1..][1..], 1) == p[3];
  }

  lemma Load8(p: seq<Byte>)
    requires |p| == 8
    ensures Load(p, 8) % U32 == WordOf(p, 0) && Load(p, 8) / U32 == WordOf(p, 1)
  {
    var q := p[1..][1..][1..][1..];
    assert q == p[4..];
    Load4(q);
    assert WordOf(q, 0) == WordOf(p, 1);
    assert Load(p, 8) == p[0] + 0x100 * (p[1] + 0x100 * (p[2] + 0x100 * (p[3] + 0x100 * Load(q, 4)))) by {
      assert Load(p, 8) == p[0] + 0x100 * Load(p[1..], 7);
      assert Load(p[1..], 7) == p[1] + 0x100 * Load(p[1..][1..], 6);
      assert Load(p[1..][1..], 6) == p[2] + 0x100 * Load(p[1..][1..][1..], 5);
      assert Load(p[1..][1..][1..], 5) == p[3] + 0x100 * Load(q, 4);
    }
    assert Load(p, 8) == WordOf(p, 1) * U32 + WordOf(p, 0);
    DivMod(WordOf(p, 1), WordOf(p, 0), U32);
  }

  lemma LoadShort(p: seq<Byte>)
    requires |p| == 1 || |p| == 2
    ensures Load(p, |p|) == WordOf(p, 0)
  {
    if |p| == 2 {
      assert Load(p, 2) == p[0] + 0x100 * Load(p[1..], 1) && Load(p[1..], 1) == p[1];
    }
  }

  /** One turn of the packing loop: the words of one parameter from index j on. */
  method PackOne(buf: array<nat>, j: nat, p: seq<Byte>) returns (st: Status, next: nat)
    requires j + WordCount(|p|) <= buf.Length
    modifies buf
    ensures st == if SizeOk(|p|) then Success else InvalidValue
    ensures st == Success ==> next == j + WordCount(|p|) && buf[j..next] == Words(p)
    ensures st != Success ==> next == j
    ensures buf[..j] == old(buf[..j]) && buf[next..] == old(buf[next..])
  {
    hide WordOf, Load;
    next := j;
    match |p| {
      case 8 =>
        Load8(p);
        var value := Load(p, 8);
        buf[j] := value % U32;
        buf[j + 1] := value / U32;
        next := j + 2;
      case 4 =>
        Load4(p);
        buf[j] := Load(p, 4);
        next := j + 1;
      case 2 =>
        LoadShort(p);
        buf[j] := Load(p, 2);
        next := j + 1;
      case 1 =>
        LoadShort(p);
        buf[j] := Load(p, 1);
        next := j + 1;
      case _ =>
        if |p| % 4 != 0 {
          return InvalidValue, next;
        }
        next := PackWords(buf, j, p);
    }
    st := Success;
  }

  /** A parameter of whole words. */
  method PackWords(buf: array<nat>, j: nat, p: seq<Byte>) returns (next: nat)
    requires |p| % 4 == 0 && j + |p| / 4 <= buf.Length
    modifies buf
    ensures next == j + |p| / 4 && buf[j..next] == Words(p)
    ensures buf[..j] == old(buf[..j]) && buf[next..] == old(buf[next..])
  {
    next := j;
    for k := 0 to |p| / 4
      invariant next == j + k
      invariant forall i | 0 <= i < k :: buf[j + i] == WordOf(p, i)
      invariant buf[..j] == old(buf[..j]) && buf[next..] == old(buf[next..])
    {
      WordAt(p, k);
      buf[next] := Load(p[4 * k..], 4);
      next := next + 1;
    }
  }

  lemma WordAt(p: seq<Byte>, k: nat)
    requires 4 * k + 4 <= |p|
    ensures Load(p[4 * k..], 4) == WordOf(p, k)
  {
    Load4(p[4 * k..]);
  }

  lemma FlatSnoc(params: seq<seq<Byte>>, i: nat)
    requires i < |params|
    ensures Flat(params[..i + 1]) == Flat(params[..i]) + Words(params[i])
  {
    assert params[..i + 1][..i] == params[..i];
  }

  lemma {:induction false} FlatGrows(params: seq<seq<Byte>>, i: nat)
    requires i <= |params|
    ensures |Flat(params[..i])| <= |Flat(params)|
    decreases |params| - i
  {
    if i < |params| {
      FlatSnoc(params, i);
      FlatGrows(params, i + 1);
    } else {
      assert params[..i] == params;
    }
  }

  /** The packing loop of launchFunction, from word index `start` on. It stops at the first size it
      cannot pack; everything outside the packed words stays as it was. */
  method Pack(buf: array<nat>, start: nat, params: seq<seq<Byte>>) returns (st: Status)
    requires start + |Flat(params)| <= buf.Length
    modifies buf
    ensures st == Success <==> forall i | 0 <= i < |params| :: SizeOk(|params[i]|)
    ensures st == Success ==> buf[start..start + |Flat(params)|] == Flat(params)
    ensures buf[..start] == old(buf[..start])
    ensures buf[start + |Flat(params)|..] == old(buf[start + |Flat(params)|..])
  {
    hide SizeOk, Words;
    var j := start;
    var end := start + |Flat(params)|;
    assert params[..0] == [];
    for i := 0 to |params|
      invariant forall k | 0 <= k < i :: SizeOk(|params[k]|)
      invariant j == start + |Flat(params[..i])| <= end
      invariant buf[start..j] == Flat(params[..i])
      invariant buf[..start] == old(buf[..start]) && buf[end..] == old(buf[end..])
    {
      FlatSnoc(params, i);
      FlatGrows(params, i + 1);
      ghost var was := buf[..];
      var next;
      st, next := PackOne(buf, j, params[i]);
      PackedOn(was, buf[..], start, j, next, end);
      if st != Success {
        return;
      }
      j := next;
    }
    assert params[..|params|] == params;
    st := Success;
  }

  lemma PackedOn(was: seq<nat>, now: seq<nat>, start: nat, j: nat, next: nat, end: nat)
    requires |was| == |now| && start <= j <= next <= end <= |now|
    requires now[..j] == was[..j] && now[next..] == was[next..]
    ensures now[start..j] == was[start..j] && now[..start] == was[..start] && now[end..] == was[end..]
    ensures now[start..next] == was[start..j] + now[j..next]
  {
    assert now[start..j] == now[..j][start..] && was[start..j] == was[..j][start..];
    assert now[..start] == now[..j][..start] && was[..start] == was[..j][..start];
    assert now[end..] == now[next..][end - next..] && was[end..] == was[next..][end - next..];
  }

  // ------------------------------------------------- loader and packer agree

  /** The word cursor of the packer when it reaches parameter i. */
  function Cursor(sizes: seq<nat>, i: nat): nat
    requires i <= |sizes|
  {
    if i == 0 then 0 else Cursor(sizes, i - 1) + WordCount(sizes[i - 1])
  }

  lemma {:induction false} CursorFlat(params: seq<seq<Byte>>, sizes: seq<nat>, i: nat)
    requires |sizes| == |params| && i <= |params|
    requires forall k | 0 <= k < |params| :: |params[k]| == sizes[k]
    ensures |Flat(params[..i])| == Cursor(sizes, i)
  {
    if i > 0 {
      CursorFlat(params, sizes, i - 1);
      FlatSnoc(params, i - 1);
    } else {
      assert params[..0] == [];
    }
  }

  /** What the compiler promises about a parameter layout: offsets start at zero, never decrease
      and end within the total, which fits 16 bits. */
  predicate Layout(params: seq<ParamInfo>, total: nat) {
    && total < U16
    && (params != [] ==> params[0].offset == 0 && params[|params| - 1].offset <= total)
    && (forall i | 0 < i < |params| :: params[i - 1].offset <= params[i].offset)
  }

  function Sizes(params: seq<ParamInfo>, total: nat): (r: seq<nat>)
    ensures |r| == |params| && forall i | 0 <= i < |r| :: r[i] == DerivedSize(params, total, i)
  {
    seq(|params|, i requires 0 <= i < |params| => DerivedSize(params, total, i))
  }

  function Sum(xs: seq<nat>, i: nat): nat
    requires i <= |xs|
  {
    if i == 0 then 0 else Sum(xs, i - 1) + xs[i - 1]
  }

  lemma {:induction false} OffsetsBelow(params: seq<ParamInfo>, total: nat, i: nat)
    requires Layout(params, total) && i < |params|
    ensures params[i].offset <= total
    decreases |params| - i
  {
    if i + 1 < |params| { OffsetsBelow(params, total, i + 1); }
  }

  /** The derived sizes telescope: up to parameter i they sum to its offset, and to the total. */
  lemma {:induction false} SizesTelescope(params: seq<ParamInfo>, total: nat, i: nat)
    requires Layout(params, total) && i <= |params| && params != []
    ensures Sum(Sizes(params, total), i) == if i < |params| then params[i].offset else total
  {
    if i == 0 {
    } else {
      SizesTelescope(params, total, i - 1);
      OffsetsBelow(params, total, i - 1);
      if i < |params| { OffsetsBelow(params, total, i); }
    }
  }

  /** The packer puts every parameter where the loader's layout has it exactly when all offsets are
      multiples of four. */
  lemma AgreeIff(params: seq<ParamInfo>, total: nat)
    requires Layout(params, total)
    ensures (forall i | 0 <= i < |params| :: PlacedRight(params, total, i))
            <==> (forall i | 0 <= i < |params| :: params[i].offset % 4 == 0)
  {
    hide Cursor, Layout;
    if forall i | 0 <= i < |params| :: params[i].offset % 4 == 0 {
      forall i | 0 <= i < |params| ensures PlacedRight(params, total, i) {
        Aligned(params, total, i);
      }
    }
    if forall i | 0 <= i < |params| :: PlacedRight(params, total, i) {
      forall i | 0 <= i < |params| ensures params[i].offset % 4 == 0 {
        assert PlacedRight(params, total, i);
      }
    }
  }

  predicate PlacedRight(params: seq<ParamInfo>, total: nat, i: nat)
    requires i < |params|
  {
    4 * Cursor(Sizes(params, total), i) == params[i].offset
  }

  lemma WordCountExact(d: nat)
    requires d % 4 == 0
    ensures 4 * WordCount(d) == d
  {
  }

  lemma {:induction false} Aligned(params: seq<ParamInfo>, total: nat, i: nat)
    requires Layout(params, total) && i < |params|
    requires forall j | 0 <= j < |params| :: params[j].offset % 4 == 0
    ensures 4 * Cursor(Sizes(params, total), i) == params[i].offset
  {
    hide WordCount;
    if i == 0 {
    } else {
      Aligned(params, total, i - 1);
      OffsetsBelow(params, total, i - 1);
      OffsetsBelow(params, total, i);
      WordCountExact(params[i].offset - params[i - 1].offset);
    }
  }

  // ------------------------------------------------------------- byte by byte

  /** Byte k of a sequence of little-endian words. */
  function ByteAt(ws: seq<nat>, k: nat): nat
    requires k / 4 < |ws|
  {
    var w := ws[k / 4];
    match k % 4
    case 0 => w % 0x100
    case 1 => w / 0x100 % 0x100
    case 2 => w / 0x1_0000 % 0x100
    case _ => w / 0x100_0000 % 0x100
  }

  lemma ByteOfWord(a: Byte, b: Byte, c: Byte, d: Byte)
    ensures var w := a + 0x100 * b + 0x1_0000 * c + 0x100_0000 * d;
            && w % 0x100 == a && w / 0x100 % 0x100 == b
            && w / 0x1_0000 % 0x100 == c && w / 0x100_0000 % 0x100 == d
  {
    var w := a + 0x100 * b + 0x1_0000 * c + 0x100_0000 * d;
    var x, y := b + 0x100 * c + 0x1_0000 * d, c + 0x100 * d;
    assert w / 0x100 == x && w % 0x100 == a by { assert w == 0x100 * x + a; }
    assert w / 0x1_0000 == y by { assert w == 0x1_0000 * y + (a + 0x100 * b); }
    assert w / 0x100_0000 == d by { assert w == 0x100_0000 * d + (a + 0x100 * b + 0x1_0000 * c); }
    assert x % 0x100 == b by { assert x == 0x100 * y + b; }
    assert y % 0x100 == c;
  }

  lemma ByteOfWords(p: seq<Byte>, k: nat)
    requires k < |p|
    ensures k / 4 < |Words(p)| && ByteAt(Words(p), k) == p[k]
  {
    var q := k / 4;
    assert k == 4 * q + k % 4;
    ByteOfWord(At(p, 4 * q), At(p, 4 * q + 1), At(p, 4 * q + 2), At(p, 4 * q + 3));
  }

  lemma {:induction false} FlatSlice(params: seq<seq<Byte>>, i: nat)
    requires i < |params|
    ensures var at := |Flat(params[..i])|;
            at + |Words(params[i])| <= |Flat(params)| && Flat(params)[at..at + |Words(params[i])|] == Words(params[i])
    decreases |params|
  {
    hide Words;
    var n := |params| - 1;
    if i < n {
      FlatSlice(params[..n], i);
      assert params[..n][..i] == params[..i];
    }
  }

  /** After a successful packing, byte k of parameter i lies at its offset behind the first byte of
      the parameter area. */
  lemma PackedBytes(infos: seq<ParamInfo>, total: nat, params: seq<seq<Byte>>, i: nat, k: nat)
    requires Layout(infos, total) && |params| == |infos| && i < |infos|
    requires forall j | 0 <= j < |infos| :: infos[j].offset % 4 == 0
    requires forall j | 0 <= j < |params| :: |params[j]| == DerivedSize(infos, total, j)
    requires k < |params[i]|
    ensures (infos[i].offset + k) / 4 < |Flat(params)|
    ensures ByteAt(Flat(params), infos[i].offset + k) == params[i][k]
  {
    hide Words, Flat;
    var at := |Flat(params[..i])|;
    CursorFlat(params, Sizes(infos, total), i);
    Aligned(infos, total, i);
    FlatSlice(params, i);
    ByteOfWords(params[i], k);
    assert Flat(params)[at + k / 4] == Words(params[i])[k / 4];
    assert (infos[i].offset + k) / 4 == at + k / 4 && (infos[i].offset + k) % 4 == k % 4;
  }
}
