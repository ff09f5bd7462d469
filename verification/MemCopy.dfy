/** The device-to-device copy: one request is split over up to three kernels that may overlap in
    time and in what they copy. */
module MemCopy {
  import opened Results
  import opened Bits
  import Stream
  import StreamSafety
  import Commands

  const BLOCK_SIZE: nat := 256
  const THREAD_COPYSIZE: nat := 16
  const MAX_GRID_SIZE_X: nat := 65535
  const HIGHBW_GRANULARITY: nat := 4096
  const FINISH_GRANULARITY: nat := 4

  datatype Kernel = HighBW | LowLatency | Trailing

  /** One kernel launch; `count` is the third argument of the kernels that take one. */
  datatype Call = Call(kernel: Kernel, gridX: nat, gridY: nat, dst: nat, src: nat, count: nat, async: bool) {

    /** How many bytes the kernel copies: 16 a thread, a word a thread, a byte a thread. */
    function Bytes(): nat {
      match kernel
      case HighBW => gridX * gridY * BLOCK_SIZE * THREAD_COPYSIZE
      case LowLatency => 4 * Min(count, gridX * BLOCK_SIZE)
      case Trailing => Min(count, gridX * BLOCK_SIZE)
    }

    predicate Writes(a: nat) {
      dst <= a < dst + Bytes()
    }
  }

  function Min(a: nat, b: nat): nat {
    if a < b then a else b
  }

  /** The calls stay inside the request, at the same displacement in source and destination ... */
  predicate Inside(calls: seq<Call>, dst: nat, src: nat, size: nat) {
    forall c | c in calls :: dst <= c.dst && c.dst + c.Bytes() <= dst + size && c.src + dst == c.dst + src
  }

  /** ... and every byte of the request is copied by at least one of them. */
  ghost predicate Complete(calls: seq<Call>, dst: nat, size: nat) {
    forall a: nat | dst <= a < dst + size :: Written(calls, a)
  }

  predicate Written(calls: seq<Call>, a: nat) {
    exists c | c in calls :: c.Writes(a)
  }

  /** memcpyD2D. The launch with number `fails` is refused, if it comes to that. A copy that is not
      asynchronous makes its first launch, and only that, synchronous. The calls stay inside the
      request exactly as long as one row of the grid is enough. */
  method MemcpyD2D(dst: nat, src: nat, size: nat, async: bool, fails: nat) returns (st: Status, calls: seq<Call>)
    ensures Inside(calls, dst, src, size) <==> size / HIGHBW_GRANULARITY <= MAX_GRID_SIZE_X
    ensures st == Success ==> Complete(calls, dst, size) && calls != []
    ensures st == Success <==> |calls| <= fails
    ensures st != Success ==> |calls| == fails + 1
    ensures forall i | 0 <= i < |calls| :: calls[i].async <==> async || i > 0
  {
    hide Call.Bytes;
    calls := [];
    var useHighBW := size > 1024 * 1024;
    var launch1 := useHighBW;
    var launch2 := !useHighBW || size % HIGHBW_GRANULARITY != 0;
    var launch3 := size % FINISH_GRANULARITY != 0;
    var hasSynced := false;
    var whole := size / HIGHBW_GRANULARITY * HIGHBW_GRANULARITY;
    Parts(size);
    if launch1 {
      var gridX := size / (THREAD_COPYSIZE * BLOCK_SIZE);
      var gridY := CeilDiv(gridX, MAX_GRID_SIZE_X);
      var c := Call(HighBW, gridX, gridY, dst, src, 0, if async then true else hasSynced);
      HighBWBytes(c, size);
      calls := calls + [c];
      if fails + 1 == |calls| {
        return Unknown, calls;
      }
      if !async {
        hasSynced := true;
      }
    }
    ghost var first := calls;
    if launch2 {
      var bytesCopied := if useHighBW then whole else 0;
      var wordsRemaining := (size - bytesCopied) / 4;
      var c := Call(LowLatency, CeilDiv(wordsRemaining, BLOCK_SIZE), 1, dst + bytesCopied, src + bytesCopied,
                    wordsRemaining, if async then true else hasSynced);
      LowLatencyBytes(c);
      calls := calls + [c];
      if fails + 1 == |calls| {
        return Unknown, calls;
      }
      if !async {
        hasSynced := true;
      }
    }
    ghost var second := calls;
    if launch3 {
      var bytesRemaining := size - whole;
      var c := Call(Trailing, CeilDiv(bytesRemaining, BLOCK_SIZE), 1, dst + whole, src + whole,
                    bytesRemaining, if async then true else hasSynced);
      TrailingBytes(c);
      calls := calls + [c];
      if fails + 1 == |calls| {
        return Unknown, calls;
      }
    }
    forall a: nat | dst <= a < dst + size ensures Written(calls, a) {
      WhoWrites(dst, size, calls, first, second, a);
    }
    st := Success;
  }

  lemma Parts(size: nat)
    ensures var whole := size / HIGHBW_GRANULARITY * HIGHBW_GRANULARITY;
            && whole <= size < whole + HIGHBW_GRANULARITY
            && (size % HIGHBW_GRANULARITY == 0 <==> whole == size)
            && whole % 4 == 0
            && (size - whole) / 4 * 4 == size / 4 * 4 - whole
  {
    var q := size / 4096;
    assert q * 4096 == 4 * (q * 1024);
  }

  lemma HighBWBytes(c: Call, size: nat)
    requires 0x10_0000 < size && c.kernel == HighBW
    requires c.gridX == size / 4096 && c.gridY == CeilDiv(c.gridX, MAX_GRID_SIZE_X)
    ensures c.Bytes() >= size / HIGHBW_GRANULARITY * HIGHBW_GRANULARITY
    ensures c.gridX <= MAX_GRID_SIZE_X ==> c.Bytes() == size / HIGHBW_GRANULARITY * HIGHBW_GRANULARITY
    ensures c.gridX > MAX_GRID_SIZE_X ==> c.Bytes() > size
  {
    var x, y := c.gridX, c.gridY;
    assert x >= 1 && y >= 1;
    assert x <= MAX_GRID_SIZE_X ==> y == 1;
    assert x > MAX_GRID_SIZE_X ==> y >= 2;
    Rows(x, y);
    assert c.Bytes() == x * y * 4096;
  }

  lemma Rows(x: nat, y: nat)
    requires x >= 1
    ensures y == 1 ==> x * y == x
    ensures y >= 1 ==> x * y >= x
    ensures y >= 2 ==> x * y >= 2 * x
  {
    assert y >= 1 ==> x * (y - 1) >= 0;
    assert y >= 2 ==> x * (y - 2) >= 0;
  }

  lemma LowLatencyBytes(c: Call)
    requires c.kernel == LowLatency && c.gridX == CeilDiv(c.count, BLOCK_SIZE)
    ensures c.Bytes() == 4 * c.count
  {
  }

  lemma TrailingBytes(c: Call)
    requires c.kernel == Trailing && c.gridX == CeilDiv(c.count, BLOCK_SIZE)
    ensures c.Bytes() == c.count
  {
  }

  lemma WhoWrites(dst: nat, size: nat, calls: seq<Call>, first: seq<Call>, second: seq<Call>, a: nat)
    requires dst <= a < dst + size && first <= second <= calls
    requires var high, whole := size > 1024 * 1024, size / HIGHBW_GRANULARITY * HIGHBW_GRANULARITY;
             && (high ==> |first| == 1 && first[0].dst == dst && first[0].Bytes() >= whole)
             && (!high || size % HIGHBW_GRANULARITY != 0 ==>
                   |second| == |first| + 1
                   && var c, from := second[|first|], if high then whole else 0;
                      c.dst == dst + from && c.Bytes() == 4 * ((size - from) / 4))
             && (size % FINISH_GRANULARITY != 0 ==>
                   |calls| == |second| + 1 && calls[|second|].dst == dst + whole && calls[|second|].Bytes() == size - whole)
    ensures Written(calls, a)
  {
    hide Call.Bytes;
    Parts(size);
    var high, whole := size > 1024 * 1024, size / HIGHBW_GRANULARITY * HIGHBW_GRANULARITY;
    if high && a < dst + whole {
      assert calls[0] == first[0] && calls[0].Writes(a);
    } else if size % FINISH_GRANULARITY != 0 && a >= dst + whole {
      assert calls[|second|].Writes(a);
    } else {
      assert calls[|first|] == second[|first|] && calls[|first|].Writes(a);
    }
  }

  // ------------------------------------------------------------ the bytes

  type Mem = nat -> nat

  /** One byte copied by one of the calls. */
  datatype Event = Event(call: Call, a: nat)

  function CopyByte(m: Mem, e: Event): Mem {
    (b: nat) => if b == e.a && e.call.Writes(e.a) then m(e.call.src + (e.a - e.call.dst)) else m(b)
  }

  function Replay(m: Mem, events: seq<Event>): Mem
    decreases |events|
  {
    if events == [] then m else Replay(CopyByte(m, events[0]), events[1..])
  }

  /** The events are bytes of the calls, and each byte of each call is among them. */
  ghost predicate Interleaves(events: seq<Event>, calls: seq<Call>) {
    && (forall e | e in events :: e.call in calls && e.call.Writes(e.a))
    && (forall c, a | c in calls && c.Writes(a) :: Event(c, a) in events)
  }

  function Copied(m: Mem, dst: nat, src: nat, size: nat): Mem {
    (a: nat) => if dst <= a < dst + size then m(src + (a - dst)) else m(a)
  }

  /** Memory m has all of the bytes of the original, some of the destination already copied. */
  ghost predicate Partly(m: Mem, origin: Mem, dst: nat, src: nat, size: nat, seen: set<nat>) {
    forall a: nat :: m(a) == (if a in seen then Copied(origin, dst, src, size)(a) else origin(a))
  }

  lemma StepPartly(m: Mem, origin: Mem, e: Event, dst: nat, src: nat, size: nat, seen: set<nat>)
    requires Partly(m, origin, dst, src, size, seen) && forall a | a in seen :: dst <= a < dst + size
    requires dst + size <= src || src + size <= dst
    requires e.call.Writes(e.a) && dst <= e.call.dst && e.call.dst + e.call.Bytes() <= dst + size
    requires e.call.src + dst == e.call.dst + src
    ensures Partly(CopyByte(m, e), origin, dst, src, size, seen + {e.a})
  {
    hide Call.Bytes;
    var from := e.call.src + (e.a - e.call.dst);
    assert from == src + (e.a - dst) && from !in seen;
    assert m(from) == origin(from);
    var m', seen' := CopyByte(m, e), seen + {e.a};
    forall b: nat ensures m'(b) == (if b in seen' then Copied(origin, dst, src, size)(b) else origin(b)) {
      if b == e.a {
        assert m'(b) == m(from);
      } else {
        assert m'(b) == m(b) && (b in seen' <==> b in seen);
      }
    }
  }

  lemma {:induction false} ReplayKeeps(m: Mem, origin: Mem, events: seq<Event>, calls: seq<Call>,
                                       dst: nat, src: nat, size: nat, seen: set<nat>)
    requires Inside(calls, dst, src, size) && (dst + size <= src || src + size <= dst)
    requires forall e | e in events :: e.call in calls && e.call.Writes(e.a)
    requires Partly(m, origin, dst, src, size, seen) && forall a | a in seen :: dst <= a < dst + size
    ensures Partly(Replay(m, events), origin, dst, src, size, seen + set e | e in events :: e.a)
    decreases |events|
  {
    hide Call.Bytes;
    if events == [] {
      assert seen + (set e | e in events :: e.a) == seen;
    } else {
      var e, m' := events[0], CopyByte(m, events[0]);
      assert e.call in calls;
      StepPartly(m, origin, e, dst, src, size, seen);
      ReplayKeeps(m', origin, events[1..], calls, dst, src, size, seen + {e.a});
      assert events == [e] + events[1..];
      assert seen + {e.a} + (set x | x in events[1..] :: x.a) == seen + set x | x in events :: x.a;
    }
  }

  /** However the kernels overlap: once all their bytes are copied, the destination holds the source
      and nothing else has changed, as long as source and destination do not meet. */
  lemma AnyInterleavingCopies(m: Mem, events: seq<Event>, calls: seq<Call>, dst: nat, src: nat, size: nat)
    requires Inside(calls, dst, src, size) && Complete(calls, dst, size) && Interleaves(events, calls)
    requires dst + size <= src || src + size <= dst
    ensures forall a: nat :: Replay(m, events)(a) == Copied(m, dst, src, size)(a)
  {
    hide Call.Bytes;
    assert Partly(m, m, dst, src, size, {});
    ReplayKeeps(m, m, events, calls, dst, src, size, {});
    forall a: nat ensures Replay(m, events)(a) == Copied(m, dst, src, size)(a) {
      if dst <= a < dst + size {
        assert Written(calls, a);
        var c :| c in calls && c.Writes(a);
        assert Event(c, a) in events && Event(c, a).a == a;
      }
    }
  }

  // -------------------------------------------------- in the stream's order

  /** The calls of a copy that is not asynchronous, as operations base + 1 and on of a stream. */
  predicate Enqueued(h: Stream.History, base: nat, calls: seq<Call>) {
    && base + |calls| <= |h.ops|
    && forall i | 0 <= i < |calls| :: h.ops[base + i].kind == Commands.Compute && (h.ops[base + i].sync <==> !calls[i].async)
  }

  /** Later asynchronous kernels are held back by the copy's first kernel, and by no other. */
  lemma HeldBackByFirst(h: Stream.History, base: nat, calls: seq<Call>, i: nat, n: nat)
    requires Enqueued(h, base, calls) && i < |calls| && forall j | 0 <= j < |calls| :: calls[j].async <==> j > 0
    requires base + |calls| < n <= |h.ops| && h.ops[n - 1].kind == Commands.Compute && !h.ops[n - 1].sync
    ensures StreamSafety.MustFollow(h, base + i + 1, n) <==> i == 0
  {
    assert h.ops[base + i].sync <==> !calls[i].async;
  }
}
