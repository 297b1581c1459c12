// Bitwise `and` and `or` on natural numbers, and what they do for the masks the
// lock word uses: one power of two, and all the bits below a power of two.
module Bits {

  function And(a: nat, b: nat): nat {
    if a == 0 || b == 0 then 0 else (a % 2) * (b % 2) + 2 * And(a / 2, b / 2)
  }

  function Or(a: nat, b: nat): nat {
    if a == 0 then b
    else if b == 0 then a
    else (if a % 2 + b % 2 == 0 then 0 else 1) + 2 * Or(a / 2, b / 2)
  }

  function Pow2(k: nat): (p: nat)
    ensures p > 0
  {
    if k == 0 then 1 else 2 * Pow2(k - 1)
  }

  /** Bit `k` of `w`. */
  predicate Bit(w: nat, k: nat) {
    w / Pow2(k) % 2 == 1
  }

  lemma HalfThenDivide(w: nat, p: nat, q: nat)
    requires p > 0 && q == 2 * p
    ensures w / 2 / p == w / q
    ensures w % q == w % 2 + 2 * (w / 2 % p)
  {
    var h, d, r := w / 2, w / 2 / p, w / 2 % p;
    assert h == p * d + r;
    assert w == q * d + (2 * r + w % 2);
    DivisionIsUnique(w, q, d, 2 * r + w % 2);
  }

  lemma DivisionIsUnique(w: nat, d: nat, q: nat, r: nat)
    requires r < d && w == d * q + r
    ensures w / d == q && w % d == r
  {
    var more := q - w / d;
    assert d * more == w % d - r;
    if more >= 1 {
      MultipleIsAtLeast(d, more);
    } else if more <= -1 {
      MultipleIsAtLeast(d, -more);
    }
  }

  lemma MultipleIsAtLeast(d: nat, n: int)
    requires n >= 1
    ensures d * n >= d
  {
  }

  lemma {:induction false} AndPow2(w: nat, k: nat)
    ensures And(w, Pow2(k)) == if Bit(w, k) then Pow2(k) else 0
  {
    if k == 0 {
      assert And(w / 2, 0) == 0;
    } else if w > 0 {
      AndPow2(w / 2, k - 1);
      HalfThenDivide(w, Pow2(k - 1), Pow2(k));
      assert Pow2(k) / 2 == Pow2(k - 1);
    }
  }

  lemma {:induction false} AndLowMask(w: nat, k: nat)
    ensures And(w, Pow2(k) - 1) == w % Pow2(k)
  {
    if k == 0 {
    } else if w == 0 {
      DivisionIsUnique(0, Pow2(k), 0, 0);
    } else {
      AndLowMask(w / 2, k - 1);
      HalfThenDivide(w, Pow2(k - 1), Pow2(k));
      AndOdd(w, Pow2(k - 1) - 1, Pow2(k) - 1);
    }
  }

  lemma AndOdd(w: nat, half: nat, m: nat)
    requires w > 0 && m == 2 * half + 1
    ensures And(w, m) == w % 2 + 2 * And(w / 2, half)
  {
    assert m % 2 == 1 && m / 2 == half;
  }

  lemma {:induction false} OrPow2(w: nat, k: nat)
    ensures Or(w, Pow2(k)) == if Bit(w, k) then w else w + Pow2(k)
  {
    if k == 0 {
    } else if w > 0 {
      OrPow2(w / 2, k - 1);
      HalfThenDivide(w, Pow2(k - 1), Pow2(k));
      assert Pow2(k) / 2 == Pow2(k - 1);
    }
  }
}
