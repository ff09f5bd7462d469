/** Natural numbers as words of bits: the bitwise operations with which the source packs fields. */
module Bits {
  type Byte = b: nat | b < 256

  const U16: nat := 0x1_0000
  const U32: nat := 0x1_0000_0000
  const U64: nat := 0x1_0000_0000_0000_0000

  const ADDRESS_SPACE: nat := 0x100_0000_0000   // 40 bits

  /** The halves of a 64-bit value. */
  function Hi(v: nat): nat { v / U32 % U32 }
  function Lo(v: nat): nat { v % U32 }

  function CeilDiv(a: nat, b: nat): nat
    requires b > 0
  {
    (a + b - 1) / b
  }

  function RoundUp(a: nat, b: nat): nat
    requires b > 0
  {
    CeilDiv(a, b) * b
  }

  function Pow2(k: nat): (p: nat)
    ensures p > 0
  {
    if k == 0 then 1 else 2 * Pow2(k - 1)
  }

  function Or(a: nat, b: nat): nat {
    if a == 0 then b
    else if b == 0 then a
    else 2 * Or(a / 2, b / 2) + (if a % 2 == 1 || b % 2 == 1 then 1 else 0)
  }

  /** Fields that do not overlap are simply added. */
  lemma {:induction false} OrDisjoint(q: nat, b: nat, k: nat)
    requires b < Pow2(k)
    ensures Or(q * Pow2(k), b) == q * Pow2(k) + b
  {
    if k > 0 && b > 0 && q > 0 {
      var p := Pow2(k - 1);
      assert q * Pow2(k) == 2 * (q * p);
      OrDisjoint(q, b / 2, k - 1);
      assert q * Pow2(k) > 0;
    }
  }

  lemma Pow2Values()
    ensures Pow2(13) == 0x2000 && Pow2(16) == 0x1_0000 && Pow2(28) == 0x1000_0000
    ensures Pow2(40) == 0x100_0000_0000 && Pow2(41) == 0x200_0000_0000 && Pow2(42) == 0x400_0000_0000
  {
    assert Pow2(8) == 256;
    assert Pow2(16) == 0x1_0000;
    assert Pow2(24) == 0x100_0000;
    assert Pow2(32) == 0x1_0000_0000;
    assert Pow2(40) == 0x100_0000_0000;
  }

  lemma Times(k: int, d: int)
    requires d > 0 && -d < k * d < d
    ensures k == 0
  {
    assert k >= 1 ==> (k - 1) * d >= 0;
    assert k <= -1 ==> (-k - 1) * d >= 0;
  }

  /** Multiples of the modulus do not matter. */
  lemma ModShift(q: nat, r: nat, d: nat)
    requires d > 0
    ensures (q * d + r) % d == r % d
  {
    var k, x := r / d, r % d;
    assert q * d + r == (q + k) * d + x;
    DivMod(q + k, x, d);
  }

  /** Quotient and remainder of a number written as q * d + r. */
  lemma DivMod(q: nat, r: nat, d: nat)
    requires r < d
    ensures (q * d + r) / d == q && (q * d + r) % d == r
  {
    var n := q * d + r;
    assert (n / d - q) * d == r - n % d;
    Times(n / d - q, d);
  }

  lemma {:induction false} OrCommutes(a: nat, b: nat)
    ensures Or(a, b) == Or(b, a)
    decreases a + b
  {
    if a > 0 && b > 0 { OrCommutes(a / 2, b / 2); }
  }

  /** High and low halves are combined separately. */
  lemma {:induction false} OrHalves(q: nat, r: nat, q': nat, r': nat, k: nat)
    requires r < Pow2(k) && r' < Pow2(k)
    ensures Or(q * Pow2(k) + r, q' * Pow2(k) + r') == Or(q, q') * Pow2(k) + Or(r, r')
  {
    hide Or;
    if k == 0 {
      OrStep(0, 0);
      assert r == 0 && r' == 0 && q * Pow2(k) + r == q && q' * Pow2(k) + r' == q';
    } else {
      var p := Pow2(k - 1);
      OrHalves(q, r / 2, q', r' / 2, k - 1);
      Double(q, p, r);
      Double(q', p, r');
      OrStep(q * (2 * p) + r, q' * (2 * p) + r');
      OrStep(r, r');
      Double(Or(q, q'), p, Or(r, r'));
      assert Or(q, q') * (2 * p) == 2 * (Or(q, q') * p);
    }
  }

  lemma OrStep(a: nat, b: nat)
    ensures Or(a, b) == 2 * Or(a / 2, b / 2) + (if a % 2 == 1 || b % 2 == 1 then 1 else 0)
  {
  }

  lemma Double(q: nat, p: nat, r: nat)
    ensures (q * (2 * p) + r) / 2 == q * p + r / 2 && (q * (2 * p) + r) % 2 == r % 2
  {
    assert q * (2 * p) == 2 * (q * p);
  }

  lemma OrZero(a: nat)
    ensures Or(a, 0) == a
  {
  }

  // ------------------------------------------------------------ single bits

  function Bit(a: nat, i: nat): bool {
    if i == 0 then a % 2 == 1 else Bit(a / 2, i - 1)
  }

  function And(a: nat, b: nat): nat {
    if a == 0 || b == 0 then 0
    else 2 * And(a / 2, b / 2) + (if a % 2 == 1 && b % 2 == 1 then 1 else 0)
  }

  /** a with the bits of b cleared. */
  function AndNot(a: nat, b: nat): nat {
    if a == 0 || b == 0 then a
    else 2 * AndNot(a / 2, b / 2) + (if a % 2 == 1 && b % 2 == 0 then 1 else 0)
  }

  function ShiftLeft(a: nat, s: nat): nat {
    if s == 0 then a else 2 * ShiftLeft(a, s - 1)
  }

  function ShiftRight(a: nat, s: nat): nat {
    if s == 0 then a else ShiftRight(a / 2, s - 1)
  }

  /** The lowest n bits set. */
  function Mask(n: nat): nat {
    if n == 0 then 0 else 2 * Mask(n - 1) + 1
  }

  lemma {:induction false} ZeroBit(i: nat)
    ensures !Bit(0, i)
  {
    if i == 0 {
    } else {
      ZeroBit(i - 1);
    }
  }

  lemma {:induction false} OrBit(a: nat, b: nat, i: nat)
    ensures Bit(Or(a, b), i) == (Bit(a, i) || Bit(b, i))
    decreases i
  {
    hide Or;
    OrStep(a, b);
    if i == 0 {
    } else {
      OrBit(a / 2, b / 2, i - 1);
    }
  }

  lemma {:induction false} AndBit(a: nat, b: nat, i: nat)
    ensures Bit(And(a, b), i) == (Bit(a, i) && Bit(b, i))
    decreases i
  {
    hide And;
    AndStep(a, b);
    if i == 0 {
    } else {
      AndBit(a / 2, b / 2, i - 1);
    }
  }

  lemma {:induction false} AndNotBit(a: nat, b: nat, i: nat)
    ensures Bit(AndNot(a, b), i) == (Bit(a, i) && !Bit(b, i))
    decreases i
  {
    hide AndNot;
    AndNotStep(a, b);
    if i == 0 {
    } else {
      AndNotBit(a / 2, b / 2, i - 1);
    }
  }

  lemma {:induction false} LeftBit(a: nat, s: nat, i: nat)
    ensures Bit(ShiftLeft(a, s), i) == (i >= s && Bit(a, i - s))
    decreases s
  {
    if s > 0 && i > 0 { LeftBit(a, s - 1, i - 1); }
  }

  lemma {:induction false} RightBit(a: nat, s: nat, i: nat)
    ensures Bit(ShiftRight(a, s), i) == Bit(a, i + s)
    decreases s
  {
    if s == 0 {
    } else {
      RightBit(a / 2, s - 1, i);
    }
  }

  lemma {:induction false} MaskBit(n: nat, i: nat)
    ensures Bit(Mask(n), i) == (i < n)
    decreases i
  {
    ZeroBit(i);
    if i > 0 && n > 0 { MaskBit(n - 1, i - 1); }
  }

  /** Numbers with the same bits are equal. */
  lemma {:induction false} SameBits(a: nat, b: nat)
    requires forall i: nat :: Bit(a, i) == Bit(b, i)
    ensures a == b
    decreases a + b
  {
    if a > 0 || b > 0 {
      assert Bit(a, 0) == Bit(b, 0);
      forall i: nat ensures Bit(a / 2, i) == Bit(b / 2, i) {
        assert Bit(a, i + 1) == Bit(b, i + 1);
      }
      SameBits(a / 2, b / 2);
    }
  }

  /** Masking with the lowest n bits is the remainder modulo 2^n. */
  lemma {:induction false} MaskMod(a: nat, n: nat)
    ensures And(a, Mask(n)) == a % Pow2(n)
    decreases n
  {
    hide And;
    if n == 0 { AndZero(a); }
    if n > 0 {
      MaskMod(a / 2, n - 1);
      AndStep(a, Mask(n));
      ModDouble(a, Pow2(n - 1));
    }
  }

  lemma AndNotStep(a: nat, b: nat)
    ensures AndNot(a, b) == 2 * AndNot(a / 2, b / 2) + (if a % 2 == 1 && b % 2 == 0 then 1 else 0)
  {
  }

  lemma AndZero(a: nat)
    ensures And(a, 0) == 0
  {
  }

  lemma AndStep(a: nat, b: nat)
    ensures And(a, b) == 2 * And(a / 2, b / 2) + (if a % 2 == 1 && b % 2 == 1 then 1 else 0)
  {
  }

  lemma ModDouble(a: nat, p: nat)
    requires p > 0
    ensures a % (2 * p) == 2 * (a / 2 % p) + a % 2
  {
    var q, r := a / 2 / p, a / 2 % p;
    assert a / 2 == q * p + r;
    assert 2 * (q * p) == q * (2 * p);
    DivMod(q, 2 * r + a % 2, 2 * p);
  }

  /** Shifting right divides. */
  lemma {:induction false} RightDivides(a: nat, s: nat)
    ensures ShiftRight(a, s) == a / Pow2(s)
    decreases s
  {
    if s == 0 {
    } else {
      RightDivides(a / 2, s - 1);
      DivTwice(a, Pow2(s - 1));
    }
  }

  lemma DivTwice(a: nat, p: nat)
    requires p > 0
    ensures a / (2 * p) == a / 2 / p
  {
    var q, r := a / 2 / p, a / 2 % p;
    assert a / 2 == q * p + r;
    assert 2 * (q * p) == q * (2 * p);
    DivMod(q, 2 * r + a % 2, 2 * p);
  }

  lemma {:induction false} Pow2Sum(n: nat, m: nat)
    ensures Pow2(n + m) == Pow2(n) * Pow2(m)
  {
    if n == 0 {
    } else {
      Pow2Sum(n - 1, m);
      assert 2 * (Pow2(n - 1) * Pow2(m)) == 2 * Pow2(n - 1) * Pow2(m);
    }
  }

  /** A smaller power of two does not notice a cut at a larger one. */
  lemma CutTwice(a: nat, n: nat, m: nat)
    requires n <= m
    ensures a % Pow2(m) % Pow2(n) == a % Pow2(n)
  {
    hide Pow2;
    Pow2Sum(n, m - n);
    CutFactors(a, Pow2(n), Pow2(m - n));
  }

  lemma CutFactors(a: nat, p: nat, q: nat)
    requires p > 0 && q > 0
    ensures p * q > 0 && a % (p * q) % p == a % p
  {
    var d := p * q;
    Positive(p, q);
    var k, r := a / d, a % d;
    assert a == k * d + r;
    Regroup(k, p, q);
    ModShift(k * q, r, p);
  }

  lemma Positive(p: nat, q: nat)
    requires p > 0 && q > 0
    ensures p * q > 0
  {
  }

  lemma Regroup(k: nat, p: nat, q: nat)
    ensures k * (p * q) == (k * q) * p
  {
  }
}
