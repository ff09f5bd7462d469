/** The driver's bookkeeping of device memory in one context: a bump allocator for virtual
    addresses, the map of live allocations, and the sorted index of those mapped to the CPU. */
module Memory {
  import opened Results
  import opened Bits

  const UVM_HEAP_START: nat := 0x10_0000_0000
  const SMALL_PAGE: nat := 4096
  const HUGE_PAGE: nat := 0x20_0000

  /** Addresses lo up to, not including, hi. */
  datatype Range = Range(lo: nat, hi: nat) {
    predicate Has(a: nat) { lo <= a < hi }
  }

  predicate Apart(a: Range, b: Range) {
    a.hi <= b.lo || b.hi <= a.lo
  }

  /** A live allocation: its range, and whether the CPU sees it. */
  datatype Alloc = Alloc(range: Range, mapped: bool)

  predicate Sorted(rs: seq<Range>) {
    && (forall i | 0 <= i < |rs| :: rs[i].lo < rs[i].hi)
    && (forall i, j | 0 <= i < j < |rs| :: rs[i].hi <= rs[j].lo)
  }

  lemma RoundUpCovers(n: nat, a: nat)
    requires a > 0
    ensures n <= RoundUp(n, a) < n + a && RoundUp(n, a) % a == 0
  {
    var q := (n + a - 1) / a;
    assert n + a - 1 == q * a + (n + a - 1) % a;
    DivMod(q, 0, a);
  }

  lemma NextMultiple(x: nat, a: nat)
    requires a > 0
    ensures (x + (a - x % a)) % a == 0
  {
    var q := x / a;
    assert x == q * a + x % a;
    assert x + (a - x % a) == (q + 1) * a;
    DivMod(q + 1, 0, a);
  }

  // ----------------------------------------------------------- the invariant

  /** Everything lies in the heap below the next address, and no two ranges meet. */
  ghost predicate Placed(top: nat, live: map<nat, Alloc>, leaked: set<Range>) {
    && UVM_HEAP_START <= top
    && (forall a | a in live :: live[a].range.lo == a && UVM_HEAP_START <= a < live[a].range.hi <= top)
    && (forall a, b | a in live && b in live && a != b :: Apart(live[a].range, live[b].range))
    && (forall r | r in leaked :: UVM_HEAP_START <= r.lo < r.hi <= top)
    && (forall r, a | r in leaked && a in live :: Apart(r, live[a].range))
  }

  /** The index is the sorted list of the live CPU-mapped ranges, plus the leaked ones. */
  ghost predicate Indexed(index: seq<Range>, live: map<nat, Alloc>, leaked: set<Range>) {
    && Sorted(index)
    && (forall r | r in index :: r in leaked || (r.lo in live && live[r.lo] == Alloc(r, true)))
    && (forall a | a in live && live[a].mapped :: live[a].range in index)
    && (forall r | r in leaked :: r in index)
  }

  lemma NewOnTop(top: nat, index: seq<Range>, live: map<nat, Alloc>, leaked: set<Range>, r: Range)
    requires Placed(top, live, leaked) && Indexed(index, live, leaked) && top <= r.lo < r.hi
    ensures r.lo !in live && r !in leaked && Sorted(index + [r])
    ensures Placed(r.hi, live, leaked)
  {
    forall x | x in index ensures x.hi <= top {
      if x !in leaked { assert x.lo in live; }
    }
  }

  lemma PlaceLive(top: nat, live: map<nat, Alloc>, leaked: set<Range>, r: Range, mapped: bool)
    requires Placed(top, live, leaked) && top <= r.lo < r.hi
    ensures Placed(r.hi, live[r.lo := Alloc(r, mapped)], leaked)
  {
    var live' := live[r.lo := Alloc(r, mapped)];
    forall a, b | a in live' && b in live' && a != b ensures Apart(live'[a].range, live'[b].range) {
      if a in live && b in live && a != r.lo && b != r.lo { assert Apart(live[a].range, live[b].range); }
    }
  }

  lemma PlaceLeaked(top: nat, live: map<nat, Alloc>, leaked: set<Range>, r: Range)
    requires Placed(top, live, leaked) && top <= r.lo < r.hi
    ensures Placed(r.hi, live, leaked + {r})
  {
  }

  lemma IndexGrows(index: seq<Range>, live: map<nat, Alloc>, leaked: set<Range>, r: Range)
    requires Indexed(index, live, leaked) && r.lo !in live && Sorted(index + [r])
    ensures Indexed(index, live[r.lo := Alloc(r, false)], leaked)
    ensures Indexed(index + [r], live[r.lo := Alloc(r, true)], leaked)
    ensures Indexed(index + [r], live, leaked + {r})
  {
    assert forall x :: x in index + [r] <==> x in index || x == r;
  }

  /** Any index entry that holds a live address is that allocation's own entry. */
  lemma Holder(top: nat, index: seq<Range>, live: map<nat, Alloc>, leaked: set<Range>, a: nat, r: Range)
    requires Placed(top, live, leaked) && Indexed(index, live, leaked) && a in live && r in index && r.Has(a)
    ensures r !in leaked && live[a] == Alloc(r, true)
  {
    assert live[a].range.Has(a);
    assert r in leaked ==> Apart(r, live[a].range);
    assert r.lo in live && r.lo != a ==> Apart(live[r.lo].range, live[a].range);
  }

  lemma OwnStart(top: nat, live: map<nat, Alloc>, leaked: set<Range>, a: nat)
    requires Placed(top, live, leaked) && a in live
    ensures live[a].range.lo == a
  {
  }

  lemma PlacedShrinks(top: nat, live: map<nat, Alloc>, leaked: set<Range>, a: nat)
    requires Placed(top, live, leaked)
    ensures Placed(top, live - {a}, leaked)
  {
  }

  /** The last entry that holds the address, taken out. */
  function Without(index: seq<Range>, a: nat): seq<Range> {
    if index == [] then []
    else
      var n := |index| - 1;
      if index[n].Has(a) then index[..n] else Without(index[..n], a) + [index[n]]
  }

  lemma {:induction false} WithoutAt(index: seq<Range>, a: nat, i: nat)
    requires i < |index| && index[i].Has(a) && forall j | i < j < |index| :: !index[j].Has(a)
    ensures Without(index, a) == index[..i] + index[i + 1..]
  {
    var n := |index| - 1;
    if i < n {
      WithoutAt(index[..n], a, i);
      assert index[..n][..i] + index[..n][i + 1..] + [index[n]] == index[..i] + index[i + 1..];
    } else {
      assert index[i + 1..] == [];
    }
  }

  lemma {:induction false} WithoutNone(index: seq<Range>, a: nat)
    requires forall j | 0 <= j < |index| :: !index[j].Has(a)
    ensures Without(index, a) == index
  {
    if index == [] {
    } else {
      WithoutNone(index[..|index| - 1], a);
    }
  }

  /** Freeing an address takes exactly its own entry out of the index, if it has one. */
  lemma FreeKeepsIndex(top: nat, index: seq<Range>, live: map<nat, Alloc>, leaked: set<Range>, a: nat)
    requires Placed(top, live, leaked) && Indexed(index, live, leaked) && a in live
    ensures Indexed(Without(index, a), live - {a}, leaked)
  {
    hide Placed, Indexed;
    if i: nat :| i < |index| && index[i].Has(a) {
      Holder(top, index, live, leaked, a, index[i]);
      forall j | i < j < |index| ensures !index[j].Has(a) {
        if index[j].Has(a) { Holder(top, index, live, leaked, a, index[j]); SameEntry(index, live, leaked, i, j); }
      }
      WithoutAt(index, a, i);
      OwnStart(top, live, leaked, a);
      RemoveMapped(top, index, live, leaked, a, i);
    } else {
      WithoutNone(index, a);
      RemoveUnmapped(top, index, live, leaked, a);
    }
  }

  lemma SameEntry(index: seq<Range>, live: map<nat, Alloc>, leaked: set<Range>, i: nat, j: nat)
    requires Indexed(index, live, leaked) && i < j < |index|
    ensures index[i] != index[j]
  {
  }

  lemma RemoveMapped(top: nat, index: seq<Range>, live: map<nat, Alloc>, leaked: set<Range>, a: nat, i: nat)
    requires Placed(top, live, leaked) && Indexed(index, live, leaked) && i < |index| && index[i] !in leaked
    requires a in live && live[a] == Alloc(index[i], true)
    ensures Indexed(index[..i] + index[i + 1..], live - {a}, leaked)
  {
    RemovedAt(index, i);
    EntriesMinus(top, index, index[..i] + index[i + 1..], live, leaked, a);
  }

  lemma EntriesMinus(top: nat, index: seq<Range>, index': seq<Range>, live: map<nat, Alloc>, leaked: set<Range>, a: nat)
    requires Placed(top, live, leaked) && Indexed(index, live, leaked) && a in live && live[a].range !in leaked
    requires Sorted(index') && forall r :: r in index' <==> r in index && r != live[a].range
    ensures Indexed(index', live - {a}, leaked)
  {
    hide Sorted;
    forall x | x in index' && x !in leaked ensures x.lo != a {
      assert x.lo in live && live[x.lo] == Alloc(x, true);
    }
    forall b | b in live - {a} && live[b].mapped ensures live[b].range in index' {
      assert live[b].range.lo == b && live[a].range.lo == a;
    }
  }

  lemma RemoveUnmapped(top: nat, index: seq<Range>, live: map<nat, Alloc>, leaked: set<Range>, a: nat)
    requires Placed(top, live, leaked) && Indexed(index, live, leaked) && a in live
    requires forall i | 0 <= i < |index| :: !index[i].Has(a)
    ensures Indexed(index, live - {a}, leaked)
  {
    forall x | x in index && x !in leaked ensures x.lo != a {
      assert x.lo in live && live[x.lo].range == x && x.lo < x.hi;
    }
  }

  lemma KeysWithout(m: map<nat, nat>, live: map<nat, Alloc>, a: nat)
    requires m.Keys == live.Keys
    ensures (m - {a}).Keys == (live - {a}).Keys
  {
    assert (m - {a}).Keys == m.Keys - {a};
    assert (live - {a}).Keys == live.Keys - {a};
  }

  function PageSize(huge: bool): nat {
    if huge then HUGE_PAGE else SMALL_PAGE
  }

  class Context {
    var uvmVaddr: nat
    var hostMappedPtrs: seq<Range>
    var vaToMemHandle: map<nat, nat>

    ghost var live: map<nat, Alloc>     // by the address the client was given
    ghost var leaked: set<Range>        // index entries whose allocation failed half-way

    ghost predicate Valid()
      reads this
    {
      Placed(uvmVaddr, live, leaked) && Indexed(hostMappedPtrs, live, leaked) && vaToMemHandle.Keys == live.Keys
    }

    constructor ()
      ensures Valid() && live == map[] && leaked == {}
    {
      uvmVaddr := UVM_HEAP_START;
      hostMappedPtrs := [];
      vaToMemHandle := map[];
      live := map[];
      leaked := {};
    }

    /** bump_alloc_virtual_addr. */
    method BumpAllocVirtualAddr(size: nat, alignment: nat) returns (va: nat)
      requires alignment > 0
      modifies this`uvmVaddr
      ensures va % alignment == 0 && old(uvmVaddr) <= va < old(uvmVaddr) + alignment && uvmVaddr == va + size
    {
      va := uvmVaddr;
      var slack := va % alignment;
      if slack != 0 {
        NextMultiple(va, alignment);
        va := va + (alignment - slack);
      }
      uvmVaddr := va + size;
    }

    /** The range that gpuAlloc takes: whole pages, page-aligned, above everything before it. */
    method Reserve(size: nat, hugePages: bool) returns (r: Range)
      requires size > 0
      modifies this`uvmVaddr
      ensures r.lo % PageSize(hugePages) == 0 && old(uvmVaddr) <= r.lo < r.hi == uvmVaddr
      ensures r.hi == r.lo + RoundUp(size, PageSize(hugePages))
    {
      hide RoundUp;
      var alignment := if hugePages then HUGE_PAGE else SMALL_PAGE;
      var rounded := RoundUp(size, alignment);
      RoundUpCovers(size, alignment);
      var va := BumpAllocVirtualAddr(rounded, alignment);
      r := Range(va, va + rounded);
    }

    /** gpuAlloc. The memory handle and the two mappings are obtained from the kernel driver and
        each may fail; only a failed CPU mapping leaves a trace in the index. */
    method GpuAlloc(size: nat, hugePages: bool, mapToCpu: bool, memory: Option<nat>, uvmOk: bool, cpuOk: bool)
      returns (st: Status, va: nat)
      requires Valid() && size > 0
      modifies this
      ensures Valid() && uvmVaddr >= old(uvmVaddr)
      ensures st == Success <==> memory.Some? && uvmOk && (mapToCpu ==> cpuOk)
      ensures st == Success ==>
                && va % PageSize(hugePages) == 0 && va !in old(live)
                && live == old(live)[va := Alloc(Range(va, va + RoundUp(size, PageSize(hugePages))), mapToCpu)]
                && vaToMemHandle == old(vaToMemHandle)[va := memory.value] && leaked == old(leaked)
      ensures st != Success ==> live == old(live) && vaToMemHandle == old(vaToMemHandle)
      ensures st != Success ==> (leaked == old(leaked) <==> !(memory.Some? && uvmOk && mapToCpu))
    {
      hide Placed, Indexed, RoundUp, PageSize;
      va := 0;
      if memory == None {
        return Unknown, va;
      }
      var r := Reserve(size, hugePages);
      va := r.lo;
      NewOnTop(old(uvmVaddr), hostMappedPtrs, live, leaked, r);
      if !uvmOk {
        return Unknown, va;
      }
      IndexGrows(hostMappedPtrs, live, leaked, r);
      PlaceLive(old(uvmVaddr), live, leaked, r, mapToCpu);
      PlaceLeaked(old(uvmVaddr), live, leaked, r);
      if mapToCpu {
        hostMappedPtrs := hostMappedPtrs + [r];
        if !cpuOk {
          leaked := leaked + {r};
          return Unknown, va;
        }
      }
      live := live[va := Alloc(r, mapToCpu)];
      vaToMemHandle := vaToMemHandle[va := memory.value];
      st := Success;
    }

    /** The virtual-address side of gpuSystemAlloc. */
    method GpuSystemAlloc(size: nat, memory: Option<nat>, mapsOk: bool) returns (st: Status, va: nat)
      requires Valid()
      modifies this`uvmVaddr
      ensures Valid() && uvmVaddr >= old(uvmVaddr)
      ensures st == Success <==> memory.Some? && mapsOk
      ensures st == Success ==> va % SMALL_PAGE == 0 && forall a | a in live :: Apart(live[a].range, Range(va, va + size))
    {
      va := 0;
      if memory == None {
        return Unknown, va;
      }
      va := BumpAllocVirtualAddr(size, SMALL_PAGE);
      if !mapsOk {
        return Unknown, va;
      }
      st := Success;
    }

    /** gpuFree: a reverse search for the index entry that holds the address, if there is one. */
    method GpuFree(virtualAddress: nat, driverOk: bool) returns (st: Status)
      requires Valid()
      modifies this
      ensures Valid() && uvmVaddr == old(uvmVaddr) && leaked == old(leaked)
      ensures virtualAddress !in old(live) ==> st == InvalidValue && live == old(live) && hostMappedPtrs == old(hostMappedPtrs)
      ensures virtualAddress in old(live) && !driverOk ==> st == Unknown && live == old(live) && hostMappedPtrs == old(hostMappedPtrs)
      ensures virtualAddress in old(live) && driverOk ==> st == Success && live == old(live) - {virtualAddress}
    {
      hide Placed, Indexed, Without;
      if virtualAddress !in vaToMemHandle {
        return InvalidValue;
      }
      if !driverOk {
        return Unknown;
      }
      PlacedShrinks(uvmVaddr, live, leaked, virtualAddress);
      FreeKeepsIndex(uvmVaddr, hostMappedPtrs, live, leaked, virtualAddress);
      KeysWithout(vaToMemHandle, live, virtualAddress);
      vaToMemHandle := vaToMemHandle - {virtualAddress};
      EraseEntry(virtualAddress);
      live := live - {virtualAddress};
      st := Success;
    }

    /** The reverse search at the end of gpuFree. */
    method EraseEntry(virtualAddress: nat)
      modifies this`hostMappedPtrs
      ensures hostMappedPtrs == Without(old(hostMappedPtrs), virtualAddress)
    {
      hide Without;
      var i := |hostMappedPtrs|;
      while i > 0
        invariant 0 <= i <= |hostMappedPtrs| && hostMappedPtrs == old(hostMappedPtrs)
        invariant forall j | i <= j < |hostMappedPtrs| :: !hostMappedPtrs[j].Has(virtualAddress)
        decreases i
      {
        i := i - 1;
        if hostMappedPtrs[i].Has(virtualAddress) {
          WithoutAt(hostMappedPtrs, virtualAddress, i);
          hostMappedPtrs := hostMappedPtrs[..i] + hostMappedPtrs[i + 1..];
          return;
        }
      }
      WithoutNone(hostMappedPtrs, virtualAddress);
    }

    method IsDevicePtr(va: nat) returns (r: bool)
      requires Valid()
      ensures r <==> UVM_HEAP_START <= va < uvmVaddr
      ensures (exists a | a in live :: live[a].range.Has(va)) ==> r
    {
      if va < UVM_HEAP_START {
        return false;
      }
      if va < uvmVaddr {
        return true;
      }
      r := false;
    }

    /** isHostMappedPtr: the reverse search may stop at the first entry that begins below the address. */
    method IsHostMappedPtr(va: nat) returns (r: bool)
      requires Valid()
      ensures r <==> (exists a | a in live :: live[a].mapped && live[a].range.Has(va)) || (exists x | x in leaked :: x.Has(va))
    {
      var device := IsDevicePtr(va);
      if !device {
        return false;
      }
      var i := |hostMappedPtrs|;
      while i > 0
        invariant 0 <= i <= |hostMappedPtrs|
        invariant forall j | i <= j < |hostMappedPtrs| :: !hostMappedPtrs[j].Has(va)
      {
        i := i - 1;
        if hostMappedPtrs[i].Has(va) {
          InIndex(i, va);
          return true;
        }
        if hostMappedPtrs[i].lo < va {
          assert forall j | 0 <= j < |hostMappedPtrs| :: !hostMappedPtrs[j].Has(va);
          NotInIndex(va);
          return false;
        }
      }
      NotInIndex(va);
      r := false;
    }

    lemma InIndex(i: nat, va: nat)
      requires Valid() && i < |hostMappedPtrs| && hostMappedPtrs[i].Has(va)
      ensures (exists a | a in live :: live[a].mapped && live[a].range.Has(va)) || (exists x | x in leaked :: x.Has(va))
    {
      var r := hostMappedPtrs[i];
      assert r in hostMappedPtrs;
      if r !in leaked { assert r.lo in live && live[r.lo].mapped && live[r.lo].range.Has(va); }
    }

    lemma NotInIndex(va: nat)
      requires Valid() && forall j | 0 <= j < |hostMappedPtrs| :: !hostMappedPtrs[j].Has(va)
      ensures !(exists a | a in live :: live[a].mapped && live[a].range.Has(va)) && !(exists x | x in leaked :: x.Has(va))
    {
    }
  }

  /** Removing one entry of a sorted index keeps it sorted and removes nothing else. */
  lemma RemovedAt(rs: seq<Range>, i: nat)
    requires Sorted(rs) && i < |rs|
    ensures var rest := rs[..i] + rs[i + 1..];
            Sorted(rest) && forall r :: r in rest <==> r in rs && r != rs[i]
  {
    var rest := rs[..i] + rs[i + 1..];
    forall r ensures r in rest <==> r in rs && r != rs[i] {
      if r in rs && r != rs[i] {
        var j :| 0 <= j < |rs| && rs[j] == r;
        assert if j < i then rest[j] == r else rest[j - 1] == r;
      }
    }
  }
}
