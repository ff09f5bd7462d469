/** What the methods on a channel make the hardware do. A method writes registers one by one; a
    few registers trigger an effect when they are written, using the values of the others. */
module Hardware {
  import opened Bits
  import opened Commands
  import opened Stream
  import opened PushBuffer

  const SEM_ADDR_LO: nat := 0x5c
  const SEM_ADDR_HI: nat := 0x60
  const SEM_PAYLOAD_LO: nat := 0x64
  const SEM_PAYLOAD_HI: nat := 0x68
  const SEM_EXECUTE: nat := 0x6c
  const SEND_PCAS_A: nat := 0x2b4
  const SEND_SIGNALING_PCAS2_B: nat := 0x2c0
  const SET_SEMAPHORE_A: nat := 0x240
  const SET_SEMAPHORE_B: nat := 0x244
  const SET_SEMAPHORE_PAYLOAD: nat := 0x248
  const INVALIDATE_SHADER_CACHES_NO_WFI: nat := 0x1698
  const LAUNCH_DMA: nat := 0x300
  const OFFSET_IN_UPPER: nat := 0x400
  const OFFSET_IN_LOWER: nat := 0x404
  const OFFSET_OUT_UPPER: nat := 0x408
  const OFFSET_OUT_LOWER: nat := 0x40c
  const LINE_LENGTH_IN: nat := 0x418

  datatype Effect =
    | SemRelease(addr: nat, value: nat, waits: bool, timestamp: bool)
    | SemAcquire(addr: nat, value: nat)
    | SemOther(operation: nat)
    | Invalidate(constants: bool, data: bool, instructions: bool)
    | RunKernel(qmd: nat)
    | Transfer(src: nat, dst: nat, len: nat, pipelined: bool)
    | CopyRelease(addr: nat, value: nat, flush: bool)
    | CopyOther(word: nat)

  type Regs = map<nat, nat>

  function Reg(r: Regs, a: nat): nat {
    if a in r then r[a] else 0
  }

  function Flag(w: nat, k: nat): bool
    requires k > 0
  {
    w / k % 2 == 1
  }

  /** SEM_EXECUTE: operation in bits 2:0, RELEASE_WFI in bit 20, a 64-bit payload with bit 24 and a
      timestamp with bit 25. */
  function SemEffect(w: nat, r: Regs): Effect {
    var addr := Reg(r, SEM_ADDR_HI) % 0x100 * U32 + Reg(r, SEM_ADDR_LO) / 4 * 4;
    var value := (if Flag(w, 0x100_0000) then Reg(r, SEM_PAYLOAD_HI) * U32 else 0) + Reg(r, SEM_PAYLOAD_LO);
    if w % 8 == 0 then SemAcquire(addr, value)
    else if w % 8 == 1 then SemRelease(addr, value, Flag(w, 0x10_0000), Flag(w, 0x200_0000))
    else SemOther(w % 8)
  }

  /** LAUNCH_DMA: transfer type in bits 1:0, flush in bit 2, semaphore type in bits 4:3, pitch
      layouts in bits 7 and 8, single line when bit 9 is clear. */
  function CopyEffects(w: nat, r: Regs): seq<Effect> {
    var src := Reg(r, OFFSET_IN_UPPER) % 0x2_0000 * U32 + Reg(r, OFFSET_IN_LOWER);
    var dst := Reg(r, OFFSET_OUT_UPPER) % 0x2_0000 * U32 + Reg(r, OFFSET_OUT_LOWER);
    var sem := Reg(r, SET_SEMAPHORE_A) % 0x2_0000 * U32 + Reg(r, SET_SEMAPHORE_B);
    (if w % 4 == 0 then []
     else if w % 4 != 3 && Flag(w, 0x80) && Flag(w, 0x100) && !Flag(w, 0x200) then
       [Transfer(src, dst, Reg(r, LINE_LENGTH_IN), w % 4 == 1)]
     else [CopyOther(w)])
    + (if w / 8 % 4 == 0 then []
       else if w / 8 % 4 == 3 then [CopyOther(w)]
       else [CopyRelease(sem, Reg(r, SET_SEMAPHORE_PAYLOAD), Flag(w, 4))])
  }

  /** Writing a word to a register of the engine on a subchannel. */
  function Trigger(k: Kind, sub: nat, a: nat, w: nat, r: Regs): seq<Effect> {
    if a == SEM_EXECUTE then [SemEffect(w, r)]
    else if k == Compute && sub == 1 && a == SEND_SIGNALING_PCAS2_B then
      if w % 16 in {2, 3, 9, 0xA} then [RunKernel(Reg(r, SEND_PCAS_A) * 0x100)] else []
    else if k == Compute && sub == 1 && a == INVALIDATE_SHADER_CACHES_NO_WFI then
      [Invalidate(Flag(w, 0x1000), Flag(w, 0x10), Flag(w, 1))]
    else if k == Dma && sub == 4 && a == LAUNCH_DMA then CopyEffects(w, r)
    else []
  }

  datatype Outcome = Outcome(regs: Regs, effects: seq<Effect>)

  function RunArgs(k: Kind, sub: nat, a: nat, args: seq<nat>, r: Regs): Outcome
    decreases |args|
  {
    if args == [] then Outcome(r, [])
    else
      var r1 := r[a := args[0]];
      var rest := RunArgs(k, sub, a + 4, args[1..], r1);
      Outcome(rest.regs, Trigger(k, sub, a, args[0], r1) + rest.effects)
  }

  function RunMethods(k: Kind, ms: seq<Method>, r: Regs): Outcome {
    if ms == [] then Outcome(r, [])
    else
      var first := RunArgs(k, ms[0].subchannel, ms[0].address, ms[0].args, r);
      var rest := RunMethods(k, ms[1..], first.regs);
      Outcome(rest.regs, first.effects + rest.effects)
  }

  // ----------------------------------------------------------------- lemmas

  /** What a register holds after a burst of writes. */
  lemma {:induction false} Reads(k: Kind, sub: nat, a: nat, args: seq<nat>, r: Regs, x: nat)
    ensures Reg(RunArgs(k, sub, a, args, r).regs, x) ==
            if a <= x < a + 4 * |args| && (x - a) % 4 == 0 then args[(x - a) / 4] else Reg(r, x)
    decreases |args|
  {
    hide Trigger;
    if args == [] {
    } else {
      Reads(k, sub, a + 4, args[1..], r[a := args[0]], x);
      if a < x < a + 4 * |args| && (x - a) % 4 == 0 {
        assert (x - (a + 4)) % 4 == 0 && args[1..][(x - (a + 4)) / 4] == args[(x - a) / 4];
      }
    }
  }

  /** A burst over registers none of which triggers anything. */
  predicate Passive(k: Kind, sub: nat, a: nat, n: nat) {
    && (SEM_EXECUTE < a || a + 4 * n <= SEM_EXECUTE)
    && (k == Compute && sub == 1 ==> SEND_SIGNALING_PCAS2_B < a || a + 4 * n <= SEND_SIGNALING_PCAS2_B)
    && (k == Compute && sub == 1 ==> INVALIDATE_SHADER_CACHES_NO_WFI < a || a + 4 * n <= INVALIDATE_SHADER_CACHES_NO_WFI)
    && (k == Dma && sub == 4 ==> LAUNCH_DMA < a || a + 4 * n <= LAUNCH_DMA)
  }

  lemma {:induction false} PassiveRun(k: Kind, sub: nat, a: nat, args: seq<nat>, r: Regs)
    requires Passive(k, sub, a, |args|)
    ensures RunArgs(k, sub, a, args, r).effects == []
    decreases |args|
  {
    hide SemEffect, CopyEffects;
    if args == [] {
    } else {
      PassiveRun(k, sub, a + 4, args[1..], r[a := args[0]]);
    }
  }

  lemma {:induction false} RunArgsAppend(k: Kind, sub: nat, a: nat, xs: seq<nat>, ys: seq<nat>, r: Regs)
    ensures var first := RunArgs(k, sub, a, xs, r);
            var second := RunArgs(k, sub, a + 4 * |xs|, ys, first.regs);
            RunArgs(k, sub, a, xs + ys, r) == Outcome(second.regs, first.effects + second.effects)
    decreases |xs|
  {
    hide Trigger;
    if xs == [] {
      assert xs + ys == ys;
    } else {
      assert (xs + ys)[1..] == xs[1..] + ys;
      RunArgsAppend(k, sub, a + 4, xs[1..], ys, r[a := xs[0]]);
    }
  }

  lemma {:induction false} RunAppend(k: Kind, a: seq<Method>, b: seq<Method>, r: Regs)
    ensures var first := RunMethods(k, a, r);
            var second := RunMethods(k, b, first.regs);
            RunMethods(k, a + b, r) == Outcome(second.regs, first.effects + second.effects)
    decreases |a|
  {
    hide RunArgs;
    if a == [] {
      assert a + b == b;
    } else {
      assert (a + b)[1..] == a[1..] + b;
      var first := RunArgs(k, a[0].subchannel, a[0].address, a[0].args, r);
      RunAppend(k, a[1..], b, first.regs);
    }
  }
}
