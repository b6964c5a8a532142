/**
 Binary words as the naturals they denote. A uint64 word of the source is a natural below
 `Pow2(64)`, and the source's `|`, `&^` and `^` are given bit by bit.
 */
module Bits {

  function Pow2(n: nat): (p: nat)
    ensures p >= 1
  {
    if n == 0 then 1 else 2 * Pow2(n - 1)
  }

  /** `w & (1 << i) != 0`. */
  predicate Bit(w: nat, i: nat) {
    if i == 0 then w % 2 == 1 else Bit(w / 2, i - 1)
  }

  /** `w | (1 << i)`. */
  function SetBit(w: nat, i: nat): nat {
    if i == 0 then w - w % 2 + 1 else w % 2 + 2 * SetBit(w / 2, i - 1)
  }

  /** `w &^ (1 << i)`. */
  function ClearBit(w: nat, i: nat): nat {
    if i == 0 then w - w % 2 else w % 2 + 2 * ClearBit(w / 2, i - 1)
  }

  lemma {:induction false} SetBitBits(w: nat, i: nat, j: nat)
    ensures Bit(SetBit(w, i), j) <==> i == j || Bit(w, j)
  {
    var v := SetBit(w, i);
    if i > 0 && j > 0 {
      assert v / 2 == SetBit(w / 2, i - 1);
      SetBitBits(w / 2, i - 1, j - 1);
    } else if j > 0 {
      assert v / 2 == w / 2;
    }
  }

  lemma {:induction false} ClearBitBits(w: nat, i: nat, j: nat)
    ensures Bit(ClearBit(w, i), j) <==> i != j && Bit(w, j)
  {
    var v := ClearBit(w, i);
    if i > 0 && j > 0 {
      assert v / 2 == ClearBit(w / 2, i - 1);
      ClearBitBits(w / 2, i - 1, j - 1);
    } else if j > 0 {
      assert v / 2 == w / 2;
    }
  }

  /** Setting or clearing one of the `n` low bits stays within `n` bits. */
  lemma {:induction false} BitUpdateBounds(w: nat, i: nat, n: nat)
    requires i < n && w < Pow2(n)
    ensures SetBit(w, i) < Pow2(n) && ClearBit(w, i) < Pow2(n)
  {
    if i > 0 {
      assert Pow2(n) == 2 * Pow2(n - 1);
      BitUpdateBounds(w / 2, i - 1, n - 1);
    } else {
      assert Pow2(n) == 2 * Pow2(n - 1);
    }
  }

  lemma {:induction false} ZeroHasNoBits(i: nat)
    ensures !Bit(0, i)
  {
    if i > 0 { ZeroHasNoBits(i - 1); }
  }

  /** `a ^ b`: bit i of the result is set iff bit i of exactly one operand is. */
  function Xor(a: nat, b: nat): nat
    decreases a + b
  {
    if a == 0 && b == 0 then 0 else (a + b) % 2 + 2 * Xor(a / 2, b / 2)
  }

  lemma {:induction false} XorBounds(a: nat, b: nat, n: nat)
    requires a < Pow2(n) && b < Pow2(n)
    ensures Xor(a, b) < Pow2(n)
  {
    if n > 0 && (a != 0 || b != 0) {
      assert Pow2(n) == 2 * Pow2(n - 1);
      XorBounds(a / 2, b / 2, n - 1);
    }
  }

  lemma HalfOf(bit: nat, half: nat)
    requires bit < 2
    ensures (bit + 2 * half) % 2 == bit && (bit + 2 * half) / 2 == half
  {
  }

  /** One unfolding of `Xor`, with its low bit and the rest. */
  lemma XorStep(a: nat, b: nat)
    ensures Xor(a, b) % 2 == (a + b) % 2 && Xor(a, b) / 2 == Xor(a / 2, b / 2)
  {
    if a == 0 && b == 0 {
    } else {
      HalfOf((a + b) % 2, Xor(a / 2, b / 2));
    }
  }

  lemma ParityCancels(v: nat, a: nat, b: nat)
    requires v % 2 == (a + b) % 2
    ensures (v + b) % 2 == a % 2
  {
  }

  lemma {:induction false} XorCancels(a: nat, b: nat)
    ensures Xor(Xor(a, b), b) == a
    decreases a + b
  {
    if a != 0 || b != 0 {
      var v := Xor(a, b);
      XorStep(a, b);
      XorStep(v, b);
      XorCancels(a / 2, b / 2);
      ParityCancels(v, a, b);
    }
  }

  lemma {:induction false} XorIsZero(a: nat, b: nat)
    ensures Xor(a, b) == 0 <==> a == b
    decreases a + b
  {
    if a != 0 || b != 0 {
      XorStep(a, b);
      XorIsZero(a / 2, b / 2);
    }
  }

  /** `a | b`. */
  function Or(a: nat, b: nat): nat
    decreases a + b
  {
    if a == 0 && b == 0 then 0
    else (if a % 2 == 1 || b % 2 == 1 then 1 else 0) + 2 * Or(a / 2, b / 2)
  }

  lemma {:induction false} OrIsZero(a: nat, b: nat)
    ensures Or(a, b) == 0 <==> a == 0 && b == 0
    decreases a + b
  {
    if a != 0 || b != 0 { OrIsZero(a / 2, b / 2); }
  }

  /** Bit by bit: a bit of the exclusive or is set exactly if one of the two is. */
  lemma {:induction false} XorBits(a: nat, b: nat, i: nat)
    ensures Bit(Xor(a, b), i) <==> Bit(a, i) != Bit(b, i)
    decreases i
  {
    XorStep(a, b);
    if i == 0 {
      ParityDiffers(a, b);
    } else {
      XorBits(a / 2, b / 2, i - 1);
    }
  }

  lemma ParityDiffers(a: nat, b: nat)
    ensures (a + b) % 2 == 1 <==> (a % 2 == 1) != (b % 2 == 1)
  {
  }

  /** Bit i stands for 2^i: it is the parity of the quotient. */
  lemma {:induction false} BitIs(w: nat, i: nat)
    ensures Bit(w, i) <==> w / Pow2(i) % 2 == 1
  {
    if i > 0 {
      BitIs(w / 2, i - 1);
      HalfThen(w, Pow2(i - 1));
    }
  }

  lemma HalfThen(w: nat, p: nat)
    requires p > 0
    ensures w / 2 / p == w / (2 * p)
  {
    var q, r := w / (2 * p), w % (2 * p);
    assert w == q * (2 * p) + r;
    assert w / 2 == q * p + r / 2 by { assert q * (2 * p) == 2 * (q * p); }
    QuotientIs(w / 2, q, r / 2, p);
  }

  lemma QuotientIs(x: nat, q: nat, r: nat, p: nat)
    requires p > 0 && r < p && x == q * p + r
    ensures x / p == q
  {
    var d := x / p - q;
    assert d * p == r - x % p by { assert x == (x / p) * p + x % p; }
    ZeroMultiple(d, p);
  }

  lemma ZeroMultiple(d: int, p: nat)
    requires -(p as int) < d * p < p
    ensures d == 0
  {
  }
}
