/** The GPFIFO of one channel: a page of push-buffer words that submissions are copied into, and
    a ring of entries that point at them. */
module Ring {
  import opened Results
  import opened Bits
  import opened Stream

  const MAX_CMD_QUEUE_PAGE_SIZE: nat := 0x20_0000   // in words
  const ENTRIES: nat := 0x1_0000

  // -------------------------------------------------------- ring entries

  /** The entry for `size` words at `addr`: address, length from bit 42, level in bit 41. */
  function RingEntry(addr: nat, size: nat): nat {
    Or(Or(addr / 4 * 4, size * 0x400_0000_0000), 0x200_0000_0000)
  }

  function EntryAddress(e: nat): nat { e % 0x100_0000_0000 / 4 * 4 }
  function EntryLength(e: nat): nat { e / 0x400_0000_0000 % 0x20_0000 }
  function EntryLevel(e: nat): nat { e / 0x200_0000_0000 % 2 }
  function EntrySync(e: nat): nat { e / 0x8000_0000_0000_0000 }

  lemma EntrySum(addr: nat, size: nat)
    requires addr % 4 == 0 && addr < ADDRESS_SPACE && size < 0x20_0000
    ensures RingEntry(addr, size) == (size * 4 + 2) * 0x100_0000_0000 + addr
  {
    hide Or, Pow2;
    Pow2Values();
    var p := Pow2(40);
    OrCommutes(addr, size * 0x400_0000_0000);
    OrDisjoint(size * 4, addr, 40);
    OrHalves(size * 4, addr, 2, 0, 40);
    OrZero(addr);
    OrSmall(size);
  }

  lemma OrSmall(size: nat)
    ensures Or(size * 4, 2) == size * 4 + 2
  {
    assert Pow2(2) == 4;
    OrDisjoint(size, 2, 2);
  }

  /** Every field of an entry reads back, and the entry never asks for a synchronisation wait. */
  lemma EntryFields(addr: nat, size: nat)
    requires addr % 4 == 0 && addr < ADDRESS_SPACE && size < 0x20_0000
    ensures EntryAddress(RingEntry(addr, size)) == addr && EntryLength(RingEntry(addr, size)) == size
    ensures EntryLevel(RingEntry(addr, size)) == 1 && EntrySync(RingEntry(addr, size)) == 0
  {
    hide RingEntry;
    EntrySum(addr, size);
    var e := RingEntry(addr, size);
    DivMod(size * 4 + 2, addr, 0x100_0000_0000);
    DivMod(size, 0x200_0000_0000 + addr, 0x400_0000_0000);
    DivMod(size * 2 + 1, addr, 0x200_0000_0000);
  }

  // ---------------------------------------------------------- submissions

  datatype Submission = Submission(start: nat, words: seq<nat>) {
    function End(): nat { start + |words| }
  }

  predicate Apart(a: Submission, b: Submission) {
    a.End() <= b.start || b.End() <= a.start
  }

  /** Where the next words go, if anywhere: behind the last ones, or at the start of the page when
      they do not fit and the oldest outstanding submission does not begin too early. */
  datatype Placement = Placed(start: nat) | Refused

  function Place(writeIdx: nat, size: nat, outstanding: seq<Submission>): Placement {
    if writeIdx + size <= MAX_CMD_QUEUE_PAGE_SIZE then Placed(writeIdx)
    else if outstanding == [] || outstanding[0].start >= size then Placed(0)
    else Refused
  }

  /** One outstanding submission: its entry decodes to a region of the page that still holds it. */
  predicate Held(base: nat, page: seq<nat>, entry: nat, s: Submission) {
    && s.words != [] && |s.words| < 0x20_0000 && s.End() <= |page|
    && EntryAddress(entry) == base + 4 * s.start && EntryLength(entry) == |s.words|
    && page[s.start..s.End()] == s.words
  }

  ghost predicate Intact(base: nat, page: seq<nat>, ring: seq<nat>, get: nat, outstanding: seq<Submission>)
    requires |ring| == ENTRIES
  {
    && (forall i | 0 <= i < |outstanding| :: Held(base, page, ring[(get + i) % ENTRIES], outstanding[i]))
    && (forall i, j | 0 <= i < j < |outstanding| :: Apart(outstanding[i], outstanding[j]))
  }

  /** The outstanding submissions lie in order, none behind the write index. */
  ghost predicate InOrder(outstanding: seq<Submission>, writeIdx: nat) {
    && (forall i, j | 0 <= i < j < |outstanding| :: outstanding[i].End() <= outstanding[j].start)
    && (forall i | 0 <= i < |outstanding| :: outstanding[i].End() <= writeIdx)
  }

  /** After a wrap that did not wait: the first w submissions lie in order above the write index, the
      others in order below it. */
  ghost predicate Wrapped(outstanding: seq<Submission>, writeIdx: nat, w: nat) {
    && 0 < w <= |outstanding|
    && (forall i, j | 0 <= i < j < w :: outstanding[i].End() <= outstanding[j].start)
    && (forall i, j | w <= i < j < |outstanding| :: outstanding[i].End() <= outstanding[j].start)
    && (forall i | w <= i < |outstanding| :: outstanding[i].End() <= writeIdx)
    && writeIdx <= outstanding[0].start
  }

  /** In order, or wrapped once with room for `size` more words before the oldest submission. */
  ghost predicate Room(outstanding: seq<Submission>, writeIdx: nat, size: nat) {
    || InOrder(outstanding, writeIdx)
    || (writeIdx + size <= MAX_CMD_QUEUE_PAGE_SIZE && outstanding != [] && writeIdx + size <= outstanding[0].start
        && exists w: nat :: Wrapped(outstanding, writeIdx, w))
  }

  /** Any list of outstanding submissions behind one such wrap: the next words, which are placed without
      any check, miss all of them exactly when they end before the oldest one begins. */
  lemma NextLapIff(outstanding: seq<Submission>, writeIdx: nat, w: nat, s: Submission)
    requires Wrapped(outstanding, writeIdx, w) && forall i | 0 <= i < |outstanding| :: outstanding[i].words != []
    requires s.words != [] && writeIdx + |s.words| <= MAX_CMD_QUEUE_PAGE_SIZE
    requires s.start == writeIdx
    ensures Place(writeIdx, |s.words|, outstanding) == Placed(writeIdx)
    ensures (forall i | 0 <= i < |outstanding| :: Apart(outstanding[i], s)) <==> s.End() <= outstanding[0].start
  {
    assert forall i | 0 < i < w :: outstanding[0].End() <= outstanding[i].start;
    if s.End() > outstanding[0].start { assert !Apart(outstanding[0], s); }
  }

  /** Words are refused exactly when they do not fit behind the write index and would meet the oldest
      outstanding submission at the start of the page; otherwise they go behind the write index if
      they fit there, and to the start if they do not. */
  lemma RefusedIff(outstanding: seq<Submission>, writeIdx: nat, words: seq<nat>)
    requires words != [] && forall i | 0 <= i < |outstanding| :: outstanding[i].words != []
    ensures var fits := writeIdx + |words| <= 0x20_0000;
            var place := Place(writeIdx, |words|, outstanding);
            && (place.Refused? <==> !fits && outstanding != [] && !Apart(Submission(0, words), outstanding[0]))
            && (place.Placed? ==> place.start == if fits then writeIdx else 0)
  {
  }

  lemma RoomPlaced(outstanding: seq<Submission>, writeIdx: nat, s: Submission)
    requires Room(outstanding, writeIdx, |s.words|) && s.words != []
    requires Place(writeIdx, |s.words|, outstanding) == Placed(s.start)
    requires forall i | 0 <= i < |outstanding| :: outstanding[i].words != []
    ensures forall i | 0 <= i < |outstanding| :: Apart(outstanding[i], s)
    ensures Orderly(outstanding + [s], s.End())
  {
    var more := outstanding + [s];
    if InOrder(outstanding, writeIdx) {
      InOrderPlaced(outstanding, writeIdx, s);
      if s.start == writeIdx || outstanding == [] {
        assert InOrder(more, s.End());
      } else {
        assert Wrapped(more, s.End(), |outstanding|);
      }
    } else {
      var w: nat :| Wrapped(outstanding, writeIdx, w);
      NextLapIff(outstanding, writeIdx, w, s);
      assert Wrapped(more, s.End(), w);
    }
  }

  /** In order, or wrapped once. */
  ghost predicate Orderly(outstanding: seq<Submission>, writeIdx: nat) {
    InOrder(outstanding, writeIdx) || exists w: nat :: Wrapped(outstanding, writeIdx, w)
  }

  lemma OrderlyRest(outstanding: seq<Submission>, writeIdx: nat)
    requires Orderly(outstanding, writeIdx) && outstanding != []
    ensures Orderly(outstanding[1..], writeIdx)
    ensures InOrder(outstanding, writeIdx) ==> InOrder(outstanding[1..], writeIdx)
  {
    var rest := outstanding[1..];
    if !InOrder(outstanding, writeIdx) {
      var w: nat :| Wrapped(outstanding, writeIdx, w);
      if w == 1 {
        assert InOrder(rest, writeIdx);
      } else {
        assert Wrapped(rest, writeIdx, w - 1);
      }
    }
  }

  lemma InOrderPlaced(outstanding: seq<Submission>, writeIdx: nat, s: Submission)
    requires InOrder(outstanding, writeIdx) && Place(writeIdx, |s.words|, outstanding) == Placed(s.start)
    ensures forall i | 0 <= i < |outstanding| :: Apart(outstanding[i], s)
  {
  }

  lemma IntactGrows(base: nat, page: seq<nat>, ring: seq<nat>, get: nat, outstanding: seq<Submission>,
                    s: Submission, page': seq<nat>, ring': seq<nat>)
    requires |ring| == |ring'| == ENTRIES && get < ENTRIES && |outstanding| + 1 < ENTRIES
    requires Intact(base, page, ring, get, outstanding)
    requires s.words != [] && |s.words| < 0x20_0000 && s.End() <= |page| == |page'|
    requires base % 4 == 0 && base + 4 * |page| <= ADDRESS_SPACE
    requires page' == page[..s.start] + s.words + page[s.End()..]
    requires ring' == ring[(get + |outstanding|) % ENTRIES := RingEntry(base + 4 * s.start, |s.words|)]
    requires forall i | 0 <= i < |outstanding| :: Apart(outstanding[i], s)
    ensures Intact(base, page', ring', get, outstanding + [s])
  {
    hide RingEntry;
    EntryFields(base + 4 * s.start, |s.words|);
    forall i | 0 <= i < |outstanding| + 1
      ensures Held(base, page', ring'[(get + i) % ENTRIES], (outstanding + [s])[i])
    {
      if i < |outstanding| {
        SlotsDiffer(get, i, |outstanding|);
        assert Held(base, page, ring[(get + i) % ENTRIES], outstanding[i]);
        KeepsRegion(page, page', s, outstanding[i]);
      } else {
        assert page'[s.start..s.End()] == s.words;
      }
    }
  }

  lemma SlotsDiffer(get: nat, i: nat, j: nat)
    requires get < ENTRIES && i < j < ENTRIES
    ensures (get + i) % ENTRIES != (get + j) % ENTRIES
  {
  }

  lemma KeepsRegion(page: seq<nat>, page': seq<nat>, s: Submission, o: Submission)
    requires s.End() <= |page| == |page'| && o.End() <= |page| && Apart(o, s)
    requires page' == page[..s.start] + s.words + page[s.End()..]
    ensures page'[o.start..o.End()] == page[o.start..o.End()]
  {
  }

  // ------------------------------------------------------------ the channel

  class GpFifo {
    const base: nat
    const page: array<nat>
    const ring: array<nat>
    var commandWriteIdx: nat
    var putValue: nat
    var gpGet: nat
    var gpPut: nat
    ghost var outstanding: seq<Submission>   // not fetched yet, oldest first

    ghost predicate Valid()
      reads this, page, ring
    {
      && page.Length == MAX_CMD_QUEUE_PAGE_SIZE && ring.Length == ENTRIES && page != ring
      && base % 4 == 0 && base + 4 * MAX_CMD_QUEUE_PAGE_SIZE <= ADDRESS_SPACE
      && commandWriteIdx <= MAX_CMD_QUEUE_PAGE_SIZE
      && putValue < U32 && gpPut == putValue % ENTRIES && gpGet < ENTRIES
      && |outstanding| < ENTRIES && gpPut == (gpGet + |outstanding|) % ENTRIES
      && Intact(base, page[..], ring[..], gpGet, outstanding)
    }

    /** As long as it holds, a wrap cannot hit anything, and one more wrap can be told from the oldest
        outstanding submission. */
    ghost predicate Straight()
      reads this
    {
      InOrder(outstanding, commandWriteIdx)
    }

    constructor (pageBase: nat)
      requires pageBase % 4 == 0 && pageBase + 4 * MAX_CMD_QUEUE_PAGE_SIZE <= ADDRESS_SPACE
      ensures Valid() && Straight() && outstanding == [] && base == pageBase && fresh(page) && fresh(ring)
    {
      base := pageBase;
      page := new nat[MAX_CMD_QUEUE_PAGE_SIZE](_ => 0);
      ring := new nat[ENTRIES](_ => 0);
      commandWriteIdx, putValue, gpGet, gpPut := 0, 0, 0, 0;
      outstanding := [];
    }

    method CopyWords(words: seq<nat>, start: nat)
      requires start + |words| <= page.Length
      modifies page
      ensures page[..] == old(page[..start]) + words + old(page[start + |words|..])
    {
      for i := 0 to |words|
        invariant page[..start] == old(page[..start])
        invariant page[start..start + i] == words[..i]
        invariant page[start + i..] == old(page[start + i..])
      {
        page[start + i] := words[i];
      }
      assert page[..] == page[..start] + page[start..start + |words|] + page[start + |words|..];
    }

    /** submitToFifo. While the outstanding submissions lie in order its one check is enough; behind a
        wrap that did not wait, the words must also end before the oldest submission begins. */
    method SubmitToFifo(commandBuffer: seq<nat>) returns (st: Status)
      requires Valid() && |commandBuffer| < 0x20_0000 && |outstanding| + 1 < ENTRIES
      requires Room(outstanding, commandWriteIdx, |commandBuffer|)
      modifies this, page, ring
      ensures Valid()
      ensures var start := if old(commandWriteIdx) + |commandBuffer| <= 0x20_0000 then old(commandWriteIdx) else 0;
              if commandBuffer == [] then
                st == Success && outstanding == old(outstanding) && commandWriteIdx == old(commandWriteIdx)
              else if old(commandWriteIdx) + |commandBuffer| > 0x20_0000 && old(outstanding) != []
                      && !Apart(Submission(0, commandBuffer), old(outstanding)[0]) then
                st == Unknown && outstanding == old(outstanding) && commandWriteIdx == old(commandWriteIdx)
              else
                st == Success && outstanding == old(outstanding) + [Submission(start, commandBuffer)]
                && commandWriteIdx == start + |commandBuffer|
      ensures Orderly(outstanding, commandWriteIdx)
      ensures old(Straight()) && (old(commandWriteIdx) + |commandBuffer| <= MAX_CMD_QUEUE_PAGE_SIZE || old(outstanding) == [])
              ==> Straight()
    {
      hide Intact;
      if commandBuffer == [] {
        return Success;
      }
      ghost var place := Place(commandWriteIdx, |commandBuffer|, outstanding);
      Drained();
      NonEmpty();
      RefusedIff(outstanding, commandWriteIdx, commandBuffer);
      if commandWriteIdx + |commandBuffer| > MAX_CMD_QUEUE_PAGE_SIZE {
        if !(EntryAddress(ring[gpGet]) >= base + 4 * |commandBuffer| || gpGet == gpPut) {
          return Unknown;
        }
        commandWriteIdx := 0;
      }
      assert place == Placed(commandWriteIdx);
      RoomPlaced(outstanding, old(commandWriteIdx), Submission(commandWriteIdx, commandBuffer));
      Append(commandBuffer);
      st := Success;
    }

    lemma NonEmpty()
      requires Valid()
      ensures forall i | 0 <= i < |outstanding| :: outstanding[i].words != []
    {
      assert forall i | 0 <= i < |outstanding| :: Held(base, page[..], ring[..][(gpGet + i) % ENTRIES], outstanding[i]);
    }

    /** Copy the words to the write index and point the next entry at them. */
    method Append(commandBuffer: seq<nat>)
      requires Valid() && commandBuffer != [] && |commandBuffer| < 0x20_0000 && |outstanding| + 1 < ENTRIES
      requires commandWriteIdx + |commandBuffer| <= MAX_CMD_QUEUE_PAGE_SIZE
      requires forall i | 0 <= i < |outstanding| :: Apart(outstanding[i], Submission(commandWriteIdx, commandBuffer))
      modifies this, page, ring
      ensures Valid() && outstanding == old(outstanding) + [Submission(old(commandWriteIdx), commandBuffer)]
      ensures commandWriteIdx == old(commandWriteIdx) + |commandBuffer|
    {
      hide Intact, Held, RingEntry;
      ghost var was, wasRing := page[..], ring[..];
      ghost var s := Submission(commandWriteIdx, commandBuffer);
      CopyWords(commandBuffer, commandWriteIdx);
      assert was[..s.start] == old(page[..s.start]) && was[s.End()..] == old(page[s.End()..]);
      ring[putValue % ENTRIES] := RingEntry(base + 4 * commandWriteIdx, |commandBuffer|);
      IntactGrows(base, was, wasRing, gpGet, outstanding, s, page[..], ring[..]);
      commandWriteIdx := commandWriteIdx + |commandBuffer|;
      NextPut(putValue, gpGet, |outstanding|);
      gpPut := (putValue + 1) % ENTRIES;
      putValue := (putValue + 1) % U32;
      outstanding := outstanding + [s];
    }

    lemma NextPut(put: nat, get: nat, n: nat)
      requires put < U32 && get < ENTRIES && put % ENTRIES == (get + n) % ENTRIES
      ensures (put + 1) % ENTRIES == (get + (n + 1)) % ENTRIES == (put + 1) % U32 % ENTRIES
    {
    }

    /** GPGet and GPPut coincide exactly when nothing is outstanding, and otherwise the entry at
        GPGet names the oldest submission. */
    lemma Drained()
      requires Valid()
      ensures gpGet == gpPut <==> outstanding == []
      ensures outstanding != [] ==> EntryAddress(ring[gpGet]) == base + 4 * outstanding[0].start
    {
      if outstanding != [] {
        SlotsDiffer(gpGet, 0, |outstanding|);
        assert Held(base, page[..], ring[..][(gpGet + 0) % ENTRIES], outstanding[0]);
      }
    }

    /** The host engine takes the oldest entry and reads the words it names: exactly the words of
        the oldest submission. */
    method Fetch() returns (words: seq<nat>)
      requires Valid() && outstanding != []
      modifies this`gpGet, this`outstanding
      ensures Valid() && words == old(outstanding)[0].words && outstanding == old(outstanding)[1..]
      ensures (old(Straight()) ==> Straight()) && (old(Orderly(outstanding, commandWriteIdx)) ==> Orderly(outstanding, commandWriteIdx))
    {
      hide Intact, InOrder, Orderly, Held;
      Oldest();
      if Orderly(outstanding, commandWriteIdx) { OrderlyRest(outstanding, commandWriteIdx); }
      assert InOrder(outstanding, commandWriteIdx) ==> Orderly(outstanding, commandWriteIdx) by { OrderlyIfInOrder(outstanding, commandWriteIdx); }
      var start := (EntryAddress(ring[gpGet]) - base) / 4;
      words := page[start..start + EntryLength(ring[gpGet])];
      IntactShrinks(base, page[..], ring[..], gpGet, outstanding);
      gpGet := (gpGet + 1) % ENTRIES;
      outstanding := outstanding[1..];
    }

    /** The entry at GPGet names the oldest submission's words. */
    lemma Oldest()
      requires Valid() && outstanding != []
      ensures var e, o := ring[gpGet], outstanding[0];
              && EntryAddress(e) == base + 4 * o.start && EntryLength(e) == |o.words| && o.End() <= page.Length
              && page[o.start..o.End()] == o.words
    {
      assert Held(base, page[..], ring[..][(gpGet + 0) % ENTRIES], outstanding[0]);
      assert page[..][outstanding[0].start..outstanding[0].End()] == page[outstanding[0].start..outstanding[0].End()];
    }
  }

  lemma OrderlyIfInOrder(outstanding: seq<Submission>, writeIdx: nat)
    ensures InOrder(outstanding, writeIdx) ==> Orderly(outstanding, writeIdx)
  {
  }

  lemma IntactShrinks(base: nat, page: seq<nat>, ring: seq<nat>, get: nat, outstanding: seq<Submission>)
    requires |ring| == ENTRIES && get < ENTRIES && outstanding != [] && Intact(base, page, ring, get, outstanding)
    ensures Intact(base, page, ring, (get + 1) % ENTRIES, outstanding[1..])
  {
    forall i | 0 <= i < |outstanding| - 1
      ensures Held(base, page, ring[((get + 1) % ENTRIES + i) % ENTRIES], outstanding[1..][i])
    {
      assert Held(base, page, ring[(get + (i + 1)) % ENTRIES], outstanding[i + 1]);
      assert ((get + 1) % ENTRIES + i) % ENTRIES == (get + (i + 1)) % ENTRIES;
    }
  }
}
