/** Python's integer bit operators on natural numbers of any width, and what they do to masks. */
module Bits {

  function Pow2(k: nat): (r: nat)
    ensures r > 0
  {
    if k == 0 then 1 else 2 * Pow2(k - 1)
  }

  function And(a: nat, b: nat): (r: nat) {
    if a == 0 || b == 0 then 0
    else 2 * And(a / 2, b / 2) + (if a % 2 == 1 && b % 2 == 1 then 1 else 0)
  }

  function Or(a: nat, b: nat): (r: nat)
    decreases a + b
  {
    if a == 0 && b == 0 then 0
    else 2 * Or(a / 2, b / 2) + (if a % 2 == 1 || b % 2 == 1 then 1 else 0)
  }

  function Xor(a: nat, b: nat): (r: nat)
    decreases a + b
  {
    if a == 0 && b == 0 then 0
    else 2 * Xor(a / 2, b / 2) + (if a % 2 == b % 2 then 0 else 1)
  }

  function Shl(a: nat, k: nat): (r: nat) {
    if k == 0 then a else 2 * Shl(a, k - 1)
  }

  function Shr(a: nat, k: nat): (r: nat) {
    if k == 0 then a else Shr(a / 2, k - 1)
  }

  // ----- shifts are multiplication and division -----

  lemma {:induction false} ShlIsProduct(a: nat, k: nat)
    ensures Shl(a, k) == a * Pow2(k)
  {
    if k > 0 {
      ShlIsProduct(a, k - 1);
      assert a * (2 * Pow2(k - 1)) == 2 * (a * Pow2(k - 1));
    }
  }

  /** The numbers whose top bits are q form one interval. */
  lemma {:induction false} PrefixInterval(a: nat, q: nat, h: nat)
    ensures Shl(q, h) <= a <= Shl(q, h) + Pow2(h) - 1 <==> Shr(a, h) == q
  {
    if h > 0 {
      PrefixInterval(a / 2, q, h - 1);
    }
  }

  lemma ShrIsQuotient(a: nat, k: nat)
    ensures Shr(a, k) == a / Pow2(k)
  {
    var q, d := Shr(a, k), Pow2(k);
    PrefixInterval(a, q, k);
    ShlIsProduct(q, k);
    QuotientIs(a, d, q);
  }

  lemma QuotientIs(a: nat, d: nat, q: nat)
    requires d > 0 && q * d <= a < q * d + d
    ensures a / d == q
  {
    var p := a / d;
    assert p * d <= a < p * d + d;
    ProductMonotone(p, q, d);
    ProductMonotone(p + 1, q, d);
    ProductMonotone(q, p, d);
    ProductMonotone(q + 1, p, d);
  }

  lemma ProductMonotone(x: nat, y: nat, d: nat)
    ensures x <= y ==> x * d <= y * d
    ensures (x + 1) * d == x * d + d
  {
  }

  // ----- masks -----

  /** Flipping the low n bits. */
  lemma {:induction false} XorOnes(a: nat, n: nat)
    requires a < Pow2(n)
    ensures Xor(a, Pow2(n) - 1) == Pow2(n) - 1 - a
  {
    if n > 0 {
      XorOnes(a / 2, n - 1);
      XorOdd(a, Pow2(n - 1) - 1);
    }
  }

  lemma XorOdd(a: nat, b: nat)
    ensures Xor(a, 2 * b + 1) == 2 * Xor(a / 2, b) + 1 - a % 2
  {
    assert (2 * b + 1) / 2 == b && (2 * b + 1) % 2 == 1;
  }

  lemma {:induction false} XorCommutes(a: nat, b: nat)
    ensures Xor(a, b) == Xor(b, a)
    decreases a + b
  {
    if a + b > 0 {
      XorCommutes(a / 2, b / 2);
    }
  }

  lemma {:induction false} AndOnes(a: nat, n: nat)
    requires a < Pow2(n)
    ensures And(a, Pow2(n) - 1) == a
  {
    if n > 0 {
      AndOnes(a / 2, n - 1);
      AndOdd(a, Pow2(n - 1) - 1);
    }
  }

  lemma AndOdd(a: nat, b: nat)
    ensures And(a, 2 * b + 1) == 2 * And(a / 2, b) + a % 2
  {
    assert (2 * b + 1) / 2 == b && (2 * b + 1) % 2 == 1;
  }

  lemma {:induction false} Pow2Monotone(h: nat, n: nat)
    requires h <= n
    ensures Pow2(h) <= Pow2(n)
  {
    if h < n {
      Pow2Monotone(h, n - 1);
    }
  }

  /** A mask of ones down to bit h clears the low h bits. */
  lemma {:induction false} AndMask(a: nat, n: nat, h: nat)
    requires a < Pow2(n) && h <= n
    ensures Pow2(h) <= Pow2(n) && And(a, Pow2(n) - Pow2(h)) == Shl(Shr(a, h), h)
  {
    Pow2Monotone(h, n);
    if h == 0 {
      AndOnes(a, n);
    } else {
      AndMask(a / 2, n - 1, h - 1);
      var m := Pow2(n - 1) - Pow2(h - 1);
      assert Pow2(n) - Pow2(h) == 2 * m;
      AndEven(a, m);
    }
  }

  lemma AndEven(a: nat, m: nat)
    ensures And(a, 2 * m) == 2 * And(a / 2, m)
  {
    assert (2 * m) / 2 == m && (2 * m) % 2 == 0;
  }

  lemma {:induction false} OrNothing(a: nat)
    ensures Or(a, 0) == a
  {
    if a > 0 {
      OrNothing(a / 2);
    }
  }

  /** The low h bits, all set. */
  lemma {:induction false} OrOnes(a: nat, h: nat)
    ensures Or(a, Pow2(h) - 1) == Shl(Shr(a, h), h) + Pow2(h) - 1
  {
    if h == 0 {
      OrNothing(a);
    } else {
      OrOnes(a / 2, h - 1);
      assert (Pow2(h) - 1) / 2 == Pow2(h - 1) - 1;
    }
  }

  /** Bits that do not overlap are added. */
  lemma {:induction false} OrAdds(a: nat, v: nat, k: nat)
    requires v < Pow2(k)
    ensures Or(Shl(a, k), v) == Shl(a, k) + v
  {
    if k == 0 {
      OrNothing(a);
    } else {
      OrAdds(a, v / 2, k - 1);
      var x := Shl(a, k - 1);
      assert (2 * x) / 2 == x && (2 * x) % 2 == 0;
    }
  }

  /** Ones, shifted to the right. */
  lemma {:induction false} ShrOnes(n: nat, p: nat)
    requires p <= n
    ensures Shr(Pow2(n) - 1, p) == Pow2(n - p) - 1
  {
    if p > 0 {
      assert (Pow2(n) - 1) / 2 == Pow2(n - 1) - 1;
      ShrOnes(n - 1, p - 1);
    }
  }
}
