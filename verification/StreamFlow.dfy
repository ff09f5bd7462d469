/** A reading of command lists as a flow of marks: the number of the last operation and
    the last timeline release. It says which lists keep the timeline's promise. */
module StreamFlow {
  import opened Commands
  import opened Stream

  datatype Mark = Mark(last: nat, rel: nat)

  /** Which commands belong on which channel. */
  predicate Fits(c: Command, k: Kind) {
    && (c.Launch? ==> k == Compute)
    && (c.Copy? ==> k == Dma)
    && (c.Acquire? ==> k == Compute && c.sig == TIMELINE)
  }

  /** A command keeps the promise at mark m on channel k: operations come in numeric order on
      their own channel; a synchronous kernel, an engine binding and whatever follows a synchronous
      operation only when everything before it is covered by a release; timeline releases name the last operation and never repeat; an event's release
      stands behind all operations enqueued before the event was recorded. */
  predicate CmdOk(c: Command, m: Mark, k: Kind, h: History) {
    && Fits(c, k)
    && (c.IsWork() ==>
          && c.op == m.last + 1 <= |h.ops|
          && h.ops[m.last].kind == k
          && (NeedsCover(c, m, k, h) ==> m.rel == m.last))
    && (c.Release? && c.sig == TIMELINE ==> c.value == m.last && m.rel < m.last)
    && (c.Release? && c.sig != TIMELINE ==>
          c.value == 1 && c.sig in h.recorded && h.recorded[c.sig] <= m.last)
  }

  predicate NeedsCover(c: Command, m: Mark, k: Kind, h: History)
    requires m.last < |h.ops|
  {
    || c.Bind?
    || (k == Compute && h.ops[m.last].sync)
    || (m.last >= 1 && h.ops[m.last - 1].sync)
  }

  function Advance(c: Command, m: Mark): Mark {
    if c.IsWork() then Mark(c.op, m.rel)
    else if c.Release? && c.sig == TIMELINE then Mark(m.last, c.value)
    else m
  }

  predicate FlowOk(cmds: seq<Command>, m: Mark, k: Kind, h: History) {
    cmds == [] || (CmdOk(cmds[0], m, k, h) && FlowOk(cmds[1..], Advance(cmds[0], m), k, h))
  }

  function FlowEnd(cmds: seq<Command>, m: Mark): Mark {
    if cmds == [] then m else FlowEnd(cmds[1..], Advance(cmds[0], m))
  }

  lemma {:induction false} FlowAppend(a: seq<Command>, b: seq<Command>, m: Mark, k: Kind, h: History)
    ensures FlowOk(a + b, m, k, h) <==> FlowOk(a, m, k, h) && FlowOk(b, FlowEnd(a, m), k, h)
    ensures FlowEnd(a + b, m) == FlowEnd(b, FlowEnd(a, m))
  {
    if a == [] {
      assert a + b == b;
    } else {
      assert (a + b)[1..] == a[1..] + b;
      FlowAppend(a[1..], b, Advance(a[0], m), k, h);
    }
  }

  lemma FlowPair(a: Command, b: Command, m: Mark, k: Kind, h: History)
    ensures FlowOk([a], m, k, h) <==> CmdOk(a, m, k, h)
    ensures FlowEnd([a], m) == Advance(a, m)
    ensures FlowOk([a, b], m, k, h) <==> CmdOk(a, m, k, h) && CmdOk(b, Advance(a, m), k, h)
    ensures FlowEnd([a, b], m) == Advance(b, Advance(a, m))
  {
    assert [a][1..] == [] && [a, b][1..] == [b] && [b][1..] == [];
    var m1 := Advance(a, m);
    assert FlowOk([b], m1, k, h) <==> CmdOk(b, m1, k, h);
    assert FlowEnd([b], m1) == Advance(b, m1);
  }

  lemma {:induction false} FlowGrows(cmds: seq<Command>, m: Mark, k: Kind, h: History)
    requires FlowOk(cmds, m, k, h) && m.rel <= m.last <= |h.ops|
    ensures m.last <= FlowEnd(cmds, m).last <= |h.ops|
    ensures m.rel <= FlowEnd(cmds, m).rel <= FlowEnd(cmds, m).last
  {
    if cmds == [] {
    } else {
      FlowGrows(cmds[1..], Advance(cmds[0], m), k, h);
    }
  }

  /** A later history: more operations, more recorded events. */
  predicate Extends(h: History, h': History) {
    && h.ops <= h'.ops
    && forall e | e in h.recorded :: e in h'.recorded && h'.recorded[e] == h.recorded[e]
  }

  lemma {:induction false} FlowExtend(cmds: seq<Command>, m: Mark, k: Kind, h: History, h': History)
    requires FlowOk(cmds, m, k, h) && Extends(h, h')
    ensures FlowOk(cmds, m, k, h')
  {
    if cmds == [] {
    } else {
      FlowExtend(cmds[1..], Advance(cmds[0], m), k, h, h');
    }
  }

  /** Leftovers behind a reached target: no work, no timeline release, and only releases of
      events whose operations are covered by r. */
  predicate InertCmd(c: Command, r: nat, k: Kind, h: History) {
    && Fits(c, k)
    && !c.IsWork()
    && (c.Release? ==> c.sig != TIMELINE && c.value == 1 && c.sig in h.recorded && h.recorded[c.sig] <= r)
  }

  predicate Inert(cmds: seq<Command>, r: nat, k: Kind, h: History) {
    forall i | 0 <= i < |cmds| :: InertCmd(cmds[i], r, k, h)
  }

  lemma {:induction false} InertFlow(cmds: seq<Command>, r: nat, m: Mark, k: Kind, h: History)
    requires Inert(cmds, r, k, h) && r <= m.last
    ensures FlowOk(cmds, m, k, h) && FlowEnd(cmds, m) == m
  {
    if cmds == [] {
    } else {
      assert InertCmd(cmds[0], r, k, h);
      forall i | 0 <= i < |cmds[1..]| ensures InertCmd(cmds[1..][i], r, k, h) {
        assert cmds[1..][i] == cmds[i + 1];
      }
      InertFlow(cmds[1..], r, m, k, h);
    }
  }

  /** Once the value a list leads to has been reached, all that is left of it is inert. */
  lemma {:induction false} FlowStalled(cmds: seq<Command>, m: Mark, k: Kind, h: History)
    requires FlowOk(cmds, m, k, h) && m.rel <= m.last <= |h.ops|
    requires FlowEnd(cmds, m) == Mark(m.rel, m.rel)
    ensures m.last == m.rel
    ensures Inert(cmds, m.rel, k, h)
  {
    if cmds == [] {
    } else {
      var c, m' := cmds[0], Advance(cmds[0], m);
      FlowGrows(cmds[1..], m', k, h);
      assert m' == m;
      FlowStalled(cmds[1..], m', k, h);
      forall i | 0 <= i < |cmds| ensures InertCmd(cmds[i], m.rel, k, h) {
        if i > 0 {
          assert cmds[i] == cmds[1..][i - 1];
        }
      }
    }
  }

  /** The trailing release owed by a list completes it. */
  lemma FlowOwed(cmds: seq<Command>, m: Mark, k: Kind, h: History, ctr: nat, owes: bool)
    requires FlowOk(cmds, m, k, h) && m.rel <= m.last <= |h.ops|
    requires FlowEnd(cmds, m).last == ctr
    requires owes <==> FlowEnd(cmds, m).rel < ctr
    ensures FlowOk(cmds + Owed(ctr, owes), m, k, h)
    ensures FlowEnd(cmds + Owed(ctr, owes), m) == Mark(ctr, ctr)
  {
    FlowGrows(cmds, m, k, h);
    FlowAppend(cmds, Owed(ctr, owes), m, k, h);
    if owes {
      var rel := Release(TIMELINE, ctr);
      assert Owed(ctr, owes)[1..] == [];
      assert FlowOk([rel], FlowEnd(cmds, m), k, h);
    }
  }
}
