/** One channel from commands to words and back: its command lists are submitted as words through the
    ring, and the words that the host engine fetches are, in order, those of the commands. */
module ChannelWords {
  import opened Results
  import opened Bits
  import opened Commands
  import opened Stream
  import opened StreamSafety
  import opened StreamRuns
  import opened StreamLog
  import opened PushBuffer
  import opened Hardware
  import opened CommandWords
  import opened StreamWords
  import opened Ring

  lemma WordsAppend(k: Kind, a: seq<Command>, b: seq<Command>, pool: nat)
    ensures WordsOf(k, a + b, pool) == WordsOf(k, a, pool) + WordsOf(k, b, pool)
  {
    MethodsAppend(k, a, b, pool);
    EncodeAppend(AllMethods(k, a, pool), AllMethods(k, b, pool));
  }

  lemma {:induction false} MethodsAppend(k: Kind, a: seq<Command>, b: seq<Command>, pool: nat)
    ensures AllMethods(k, a + b, pool) == AllMethods(k, a, pool) + AllMethods(k, b, pool)
  {
    hide MethodsOf;
    if a == [] {
      assert a + b == b;
    } else {
      assert (a + b)[0] == a[0] && (a + b)[1..] == a[1..] + b;
      MethodsAppend(k, a[1..], b, pool);
    }
  }

  function Flatten(lists: seq<seq<Command>>): seq<Command> {
    if lists == [] then [] else lists[0] + Flatten(lists[1..])
  }

  lemma FlattenHead(lists: seq<seq<Command>>)
    requires lists != []
    ensures Flatten(lists) == lists[0] + Flatten(lists[1..])
  {
  }

  lemma {:induction false} FlattenSnoc(lists: seq<seq<Command>>, cmds: seq<Command>)
    ensures Flatten(lists + [cmds]) == Flatten(lists) + cmds
  {
    if lists == [] {
      assert lists + [cmds] == [cmds] && [cmds][1..] == [] && cmds + [] == cmds;
    } else {
      assert (lists + [cmds])[0] == lists[0] && (lists + [cmds])[1..] == lists[1..] + [cmds];
      FlattenSnoc(lists[1..], cmds);
    }
  }

  /** The ring of one channel together with the commands behind its words. */
  class WordChannel {
    const kind: Kind
    const pool: nat
    const fifo: GpFifo
    ghost var waiting: seq<seq<Command>>   // the command list of every outstanding submission
    ghost var taken: seq<Command>          // the commands whose words have been fetched
    ghost var received: seq<nat>           // all words fetched so far

    ghost predicate Valid()
      reads this, fifo, fifo.page, fifo.ring
    {
      && fifo.Valid() && Orderly(fifo.outstanding, fifo.commandWriteIdx)
      && |waiting| == |fifo.outstanding|
      && (forall i | 0 <= i < |waiting| :: fifo.outstanding[i].words == WordsOf(kind, waiting[i], pool))
      && received == WordsOf(kind, taken, pool)
    }

    /** All commands submitted so far. */
    ghost function Commands(): seq<Command>
      reads this
    {
      taken + Flatten(waiting)
    }

    constructor (k: Kind, pageBase: nat, signalPool: nat)
      requires pageBase % 4 == 0 && pageBase + 4 * MAX_CMD_QUEUE_PAGE_SIZE <= ADDRESS_SPACE
      ensures Valid() && fresh(fifo) && fresh(fifo.page) && fresh(fifo.ring) && Commands() == [] && received == []
      ensures kind == k && pool == signalPool
    {
      kind, pool := k, signalPool;
      fifo := new GpFifo(pageBase);
      waiting, taken, received := [], [], [];
    }

    /** Submit a command list as words. */
    method Submit(cmds: seq<Command>) returns (st: Status)
      requires Valid() && WordsOf(kind, cmds, pool) != [] && |WordsOf(kind, cmds, pool)| < 0x20_0000
      requires |fifo.outstanding| + 1 < ENTRIES && Room(fifo.outstanding, fifo.commandWriteIdx, |WordsOf(kind, cmds, pool)|)
      modifies this, fifo, fifo.page, fifo.ring
      ensures Valid() && received == old(received)
      ensures var words := WordsOf(kind, cmds, pool);
              st == Unknown <==> old(fifo.commandWriteIdx) + |words| > 0x20_0000 && old(fifo.outstanding) != []
                                 && !Apart(Submission(0, words), old(fifo.outstanding)[0])
      ensures st == Success || st == Unknown
      ensures Commands() == old(Commands()) + (if st == Success then cmds else [])
    {
      hide WordsOf, Room, Orderly;
      ghost var before := waiting;
      st := fifo.SubmitToFifo(WordsOf(kind, cmds, pool));
      if st == Success {
        waiting := waiting + [cmds];
        FlattenSnoc(before, cmds);
      }
    }

    /** The host engine fetches the oldest submission: what has been fetched, all together, is the words
        of the commands taken. */
    method Fetch() returns (words: seq<nat>)
      requires Valid() && fifo.outstanding != []
      modifies this, fifo
      ensures Valid() && received == old(received) + words && received == WordsOf(kind, taken, pool)
      ensures Commands() == old(Commands()) && taken == old(taken) + old(waiting)[0]
    {
      hide WordsOf, Orderly, Flatten, Intact, EntryAddress, EntryLength;
      WordsAppend(kind, taken, waiting[0], pool);
      FlattenHead(waiting);
      ghost var list, rest := waiting[0], waiting[1..];
      words := fifo.Fetch();
      received := received + words;
      taken, waiting := taken + list, rest;
    }
  }

  /** A channel of a run: when its ring has been given what the run submitted, the words fetched so far
      are those of a first part of it, and once that part is what the channel has executed, they are
      the words of exactly the commands the GPU model has fetched. */
  lemma ReceivedIsFetched(r: Run, i: nat, k: Kind, pool: nat, taken: seq<Command>, waiting: seq<seq<Command>>, received: seq<nat>)
    requires IsRun(r) && i < |r.states| && received == WordsOf(k, taken, pool)
    requires taken + Flatten(waiting) == Project(r.states[i].hist.submitted, k)
    ensures taken <= Ch(r.states[i].gpu, k).fetched + Ch(r.states[i].gpu, k).fifo
    ensures |taken| == |Ch(r.states[i].gpu, k).fetched| ==> received == WordsOf(k, Ch(r.states[i].gpu, k).fetched, pool)
    ensures waiting == [] ==>
              received == WordsOf(k, Ch(r.states[i].gpu, k).fetched, pool) + WordsOf(k, Ch(r.states[i].gpu, k).fifo, pool)
  {
    hide WordsOf, IsRun, LogOk;
    OneList(r, i);
    var ch := Ch(r.states[i].gpu, k);
    assert taken + Flatten(waiting) == ch.fetched + ch.fifo;
    WordsAppend(k, ch.fetched, ch.fifo, pool);
    if |taken| == |ch.fetched| {
      assert taken == (taken + Flatten(waiting))[..|taken|] == (ch.fetched + ch.fifo)[..|taken|] == ch.fetched;
    }
    if waiting == [] {
      assert taken + [] == taken;
    }
  }
}
