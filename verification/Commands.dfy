/** The vocabulary of the stream engine: the two channel kinds and the commands that
    an NvCommandQueue places in its command buffers. Work items carry the timeline
    number the queue gave them; the numbers are an observation and are not part of
    the words that reach the hardware (see PushBuffer for those). */
module Commands {

  datatype Kind = Compute | Dma {
    function Other(): Kind {
      if this == Compute then Dma else Compute
    }
  }

  /** One incrementing-method burst: header fields and argument words. */
  datatype Method = Method(subchannel: nat, address: nat, args: seq<nat>)

  datatype Command =
    | Bind(op: nat, methods: seq<Method>)          // engine set-up, numbered like an operation
    | Launch(op: nat, qmd: nat)                    // kernel launch through the QMD at this address
    | Copy(op: nat, src: nat, dst: nat, len: nat)  // linear DMA transfer
    | Setup(methods: seq<Method>)                  // state writes with no ordering effect
    | Release(sig: nat, value: nat)                // write a semaphore once earlier work is done
    | Acquire(sig: nat, value: nat)                // stall until the semaphore equals the value
  {
    predicate IsWork() {
      Bind? || Launch? || Copy?
    }
  }

  /** A command together with the channel it is meant for. */
  datatype Tagged = Tagged(kind: Kind, cmd: Command)

  function Tag(k: Kind, cmds: seq<Command>): (r: seq<Tagged>)
    ensures |r| == |cmds|
    ensures forall i | 0 <= i < |r| :: r[i] == Tagged(k, cmds[i])
  {
    seq(|cmds|, i requires 0 <= i < |cmds| => Tagged(k, cmds[i]))
  }

  /** The part of a tagged list that is meant for one channel, in order. */
  function Project(ts: seq<Tagged>, k: Kind): seq<Command> {
    if ts == [] then []
    else (if ts[0].kind == k then [ts[0].cmd] else []) + Project(ts[1..], k)
  }

  lemma {:induction false} ProjectAppend(a: seq<Tagged>, b: seq<Tagged>, k: Kind)
    ensures Project(a + b, k) == Project(a, k) + Project(b, k)
  {
    if a == [] {
      assert a + b == b;
    } else {
      assert (a + b)[1..] == a[1..] + b;
      ProjectAppend(a[1..], b, k);
    }
  }

  lemma {:induction false} ProjectTag(j: Kind, cmds: seq<Command>, k: Kind)
    ensures Project(Tag(j, cmds), k) == if j == k then cmds else []
  {
    if cmds == [] {
    } else {
      assert Tag(j, cmds)[1..] == Tag(j, cmds[1..]);
      ProjectTag(j, cmds[1..], k);
    }
  }

  lemma TagAppend(k: Kind, a: seq<Command>, b: seq<Command>)
    ensures Tag(k, a + b) == Tag(k, a) + Tag(k, b)
  {
  }
}
