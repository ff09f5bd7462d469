/** The queue meta data of a launch: 64 words whose bit fields launchFunction sets one by one. */
module Qmd {
  import opened Bits

  const QMD_WORDS: nat := 64

  /** Bits hi down to lo of the whole structure; no field spans two words. */
  datatype Field = Field(hi: nat, lo: nat) {
    predicate Ok() { lo <= hi < 32 * QMD_WORDS && hi / 32 == lo / 32 }
    function Word(): nat { lo / 32 }
    function Shift(): nat { lo % 32 }
    function Width(): nat
      requires Ok()
    {
      hi - lo + 1
    }
  }

  predicate Separate(f: Field, g: Field) {
    f.hi < g.lo || g.hi < f.lo
  }

  // ------------------------------------------------------- the set macro

  /** (w & ~(mask << s)) | ((v & mask) << s) for a mask of n bits. */
  function Merge(w: nat, s: nat, n: nat, v: nat): nat {
    Or(AndNot(w, ShiftLeft(Mask(n), s)), ShiftLeft(And(v, Mask(n)), s))
  }

  /** FLD_SET_DRF_NUM_MW. */
  function FldSet(q: seq<nat>, f: Field, v: nat): (r: seq<nat>)
    requires f.Ok() && |q| == QMD_WORDS
    ensures |r| == QMD_WORDS
  {
    q[f.Word() := Merge(q[f.Word()], f.Shift(), f.Width(), v)]
  }

  /** DRF_VAL_MW. */
  function FldGet(q: seq<nat>, f: Field): nat
    requires f.Ok() && |q| == QMD_WORDS
  {
    And(ShiftRight(q[f.Word()], f.Shift()), Mask(f.Width()))
  }

  lemma MergeBit(w: nat, s: nat, n: nat, v: nat, i: nat)
    ensures Bit(Merge(w, s, n, v), i) == if s <= i < s + n then Bit(v, i - s) else Bit(w, i)
  {
    hide Or, And, AndNot, ShiftLeft, Mask;
    var m := ShiftLeft(Mask(n), s);
    OrBit(AndNot(w, m), ShiftLeft(And(v, Mask(n)), s), i);
    AndNotBit(w, m, i);
    LeftBit(Mask(n), s, i);
    LeftBit(And(v, Mask(n)), s, i);
    if i >= s {
      MaskBit(n, i - s);
      AndBit(v, Mask(n), i - s);
    }
  }

  lemma PickBit(w: nat, s: nat, n: nat, i: nat)
    ensures Bit(And(ShiftRight(w, s), Mask(n)), i) == (i < n && Bit(w, i + s))
  {
    hide And, ShiftRight, Mask;
    AndBit(ShiftRight(w, s), Mask(n), i);
    RightBit(w, s, i);
    MaskBit(n, i);
  }

  lemma ReadsBack(q: seq<nat>, f: Field, v: nat)
    requires f.Ok() && |q| == QMD_WORDS
    ensures FldGet(FldSet(q, f, v), f) == v % Pow2(f.Width())
  {
    hide And, ShiftRight, Mask, Merge, Pow2, Bit;
    var w, s, n := q[f.Word()], f.Shift(), f.Width();
    forall i: nat ensures Bit(And(ShiftRight(Merge(w, s, n, v), s), Mask(n)), i) == Bit(And(v, Mask(n)), i) {
      PickBit(Merge(w, s, n, v), s, n, i);
      MergeBit(w, s, n, v, i + s);
      AndBit(v, Mask(n), i);
      MaskBit(n, i);
    }
    SameBits(And(ShiftRight(Merge(w, s, n, v), s), Mask(n)), And(v, Mask(n)));
    MaskMod(v, n);
  }

  lemma OthersKeep(q: seq<nat>, f: Field, v: nat, g: Field)
    requires f.Ok() && g.Ok() && Separate(f, g) && |q| == QMD_WORDS
    ensures FldGet(FldSet(q, f, v), g) == FldGet(q, g)
  {
    hide And, ShiftRight, Mask, Merge, Bit;
    if f.Word() == g.Word() {
      var w, s, n := q[f.Word()], f.Shift(), f.Width();
      var w' := Merge(w, s, n, v);
      forall i: nat
        ensures Bit(And(ShiftRight(w', g.Shift()), Mask(g.Width())), i) == Bit(And(ShiftRight(w, g.Shift()), Mask(g.Width())), i)
      {
        PickBit(w', g.Shift(), g.Width(), i);
        PickBit(w, g.Shift(), g.Width(), i);
        MergeBit(w, s, n, v, i + g.Shift());
      }
      SameBits(And(ShiftRight(w', g.Shift()), Mask(g.Width())), And(ShiftRight(w, g.Shift()), Mask(g.Width())));
    }
  }

  // -------------------------------------------------- sequences of writes

  datatype Write = Write(field: Field, value: nat)

  predicate AllOk(ws: seq<Write>) {
    forall i | 0 <= i < |ws| :: ws[i].field.Ok()
  }

  function Apply(q: seq<nat>, ws: seq<Write>): (r: seq<nat>)
    requires |q| == QMD_WORDS && AllOk(ws)
    ensures |r| == QMD_WORDS
  {
    if ws == [] then q
    else
      var n := |ws| - 1;
      FldSet(Apply(q, ws[..n]), ws[n].field, ws[n].value)
  }

  /** The last value written to a field, if any. */
  datatype Last = Never | Last(value: nat)

  function LastWrite(ws: seq<Write>, f: Field): Last {
    if ws == [] then Never
    else
      var n := |ws| - 1;
      if ws[n].field == f then Last(ws[n].value) else LastWrite(ws[..n], f)
  }

  /** No write touches only a part of the field. */
  predicate Clear(ws: seq<Write>, f: Field) {
    forall i | 0 <= i < |ws| :: ws[i].field == f || Separate(ws[i].field, f)
  }

  function Blank(): (q: seq<nat>)
    ensures |q| == QMD_WORDS && forall i | 0 <= i < QMD_WORDS :: q[i] == 0
  {
    seq(QMD_WORDS, i => 0)
  }

  lemma {:induction false} BlankField(s: nat, n: nat)
    ensures And(ShiftRight(0, s), Mask(n)) == 0
  {
    if s == 0 {
    } else {
      BlankField(s - 1, n);
    }
  }

  /** Whatever was written and in whatever order: a field holds the last value written to it, cut to
      its width, and zero when nothing was written to it. A single bit is a field too. */
  lemma {:induction false} FieldHolds(ws: seq<Write>, f: Field)
    requires AllOk(ws) && f.Ok() && Clear(ws, f)
    ensures FldGet(Apply(Blank(), ws), f) ==
            match LastWrite(ws, f) case Never => 0 case Last(v) => v % Pow2(f.Width())
  {
    hide FldGet, FldSet, Pow2;
    if ws == [] {
      assert FldGet(Blank(), f) == 0 by { BlankGet(f); }
    } else {
      var n := |ws| - 1;
      var q := Apply(Blank(), ws[..n]);
      if ws[n].field == f {
        ReadsBack(q, f, ws[n].value);
      } else {
        FieldHolds(ws[..n], f);
        assert Separate(ws[n].field, f);
        OthersKeep(q, ws[n].field, ws[n].value, f);
      }
    }
  }

  lemma BlankGet(f: Field)
    requires f.Ok()
    ensures FldGet(Blank(), f) == 0
  {
    BlankField(f.Shift(), f.Width());
  }

  lemma {:induction false} ApplyAppend(q: seq<nat>, a: seq<Write>, b: seq<Write>)
    requires |q| == QMD_WORDS && AllOk(a) && AllOk(b)
    ensures AllOk(a + b) && Apply(q, a + b) == Apply(Apply(q, a), b)
    decreases |b|
  {
    hide FldSet;
    if b == [] {
      assert a + b == a;
    } else {
      var n := |b| - 1;
      assert (a + b)[..|a + b| - 1] == a + b[..n];
      ApplyAppend(q, a, b[..n]);
    }
  }
}
