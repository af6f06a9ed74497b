/** The bitwise operators of the kernel on unsigned words, defined bit by bit. */
module Bits {
  import opened Machine

  function Pow2(k: nat): (p: nat)
    ensures p > 0
  {
    if k == 0 then 1 else 2 * Pow2(k - 1)
  }

  predicate Bit(w: nat, k: nat)
    decreases k
  {
    if k == 0 then w % 2 == 1 else Bit(w / 2, k - 1)
  }

  /** a | b */
  function Or(a: nat, b: nat): nat
    decreases a + b
  {
    if a == 0 && b == 0 then 0
    else 2 * Or(a / 2, b / 2) + if a % 2 == 1 || b % 2 == 1 then 1 else 0
  }

  /** a & b */
  function And(a: nat, b: nat): nat
    decreases a + b
  {
    if a == 0 && b == 0 then 0
    else 2 * And(a / 2, b / 2) + if a % 2 == 1 && b % 2 == 1 then 1 else 0
  }

  /** a & ~b */
  function AndNot(a: nat, b: nat): nat
    decreases a + b
  {
    if a == 0 && b == 0 then 0
    else 2 * AndNot(a / 2, b / 2) + if a % 2 == 1 && b % 2 == 0 then 1 else 0
  }

  lemma {:induction false} OrBit(a: nat, b: nat, k: nat)
    ensures Bit(Or(a, b), k) <==> Bit(a, k) || Bit(b, k)
    decreases k
  {
    assert Or(a, b) / 2 == Or(a / 2, b / 2);
    if k > 0 { OrBit(a / 2, b / 2, k - 1); }
  }

  lemma {:induction false} AndNotBit(a: nat, b: nat, k: nat)
    ensures Bit(AndNot(a, b), k) <==> Bit(a, k) && !Bit(b, k)
    decreases k
  {
    assert AndNot(a, b) / 2 == AndNot(a / 2, b / 2);
    if k > 0 { AndNotBit(a / 2, b / 2, k - 1); }
  }

  lemma {:induction false} ZeroBit(k: nat)
    ensures !Bit(0, k)
  {
    if k > 0 { ZeroBit(k - 1); }
  }

  lemma {:induction false} MaskBit(k: nat, j: nat)
    ensures Bit(Pow2(k), j) <==> j == k
    decreases j
  {
    if k == 0 {
      if j > 0 { ZeroBit(j - 1); }
    } else if j > 0 {
      MaskBit(k - 1, j - 1);
    }
  }

  lemma {:induction false} AndZero(a: nat)
    ensures And(a, 0) == 0
  {
    if a > 0 { AndZero(a / 2); }
  }

  lemma {:induction false} AndMask(w: nat, k: nat)
    ensures And(w, Pow2(k)) != 0 <==> Bit(w, k)
    decreases k
  {
    if k == 0 { AndZero(w / 2); } else { AndMask(w / 2, k - 1); }
  }

  lemma {:induction false} OrBelow(a: nat, b: nat, n: nat)
    requires a < Pow2(n) && b < Pow2(n)
    ensures Or(a, b) < Pow2(n)
    decreases n
  {
    if n > 0 { OrBelow(a / 2, b / 2, n - 1); }
  }

  lemma {:induction false} AndNotBelow(a: nat, b: nat)
    ensures AndNot(a, b) <= a
    decreases a + b
  {
    if a + b > 0 { AndNotBelow(a / 2, b / 2); }
  }

  lemma {:induction false} OrZero(a: nat)
    ensures Or(a, 0) == a
  {
    if a > 0 { OrZero(a / 2); }
  }

  /** Bits below n do not reach the part above. */
  lemma {:induction false} OrLow(h: nat, l: nat, b: nat, n: nat)
    requires l < Pow2(n) && b < Pow2(n)
    ensures Or(h * Pow2(n) + l, b) == h * Pow2(n) + Or(l, b)
    decreases n
  {
    if n == 0 {
      OrZero(h);
    } else {
      var x := h * Pow2(n - 1);
      assert h * Pow2(n) == 2 * x;
      assert (2 * x + l) / 2 == x + l / 2 && (2 * x + l) % 2 == l % 2;
      OrLow(h, l / 2, b / 2, n - 1);
    }
  }

  lemma Pow2Values()
    ensures Pow2(12) == 4096 && Pow2(32) == TWO32
  {
    assert Pow2(8) == 256;
    assert Pow2(16) == 65536;
    assert Pow2(24) == 0x100_0000;
    assert Pow2(28) == 0x1000_0000;
  }

  /** a | b on u32_t */
  function Or32(a: u32, b: u32): (r: u32) {
    Pow2Values();
    OrBelow(a, b, 32);
    Or(a, b)
  }
}
