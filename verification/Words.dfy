/** Unsigned 64-bit machine words as bounded integers: wrap-around and
    exclusive-or are written out. */
module Words {
  type Byte = x: nat | x < 256
  type Word = x: nat | x < 0x1_0000_0000_0000_0000

  function Wrap(x: nat): Word {
    x % 0x1_0000_0000_0000_0000
  }

  function Pow2(n: nat): (p: nat)
    ensures p > 0
  {
    if n == 0 then 1 else 2 * Pow2(n - 1)
  }

  lemma {:induction false} Pow2Adds(a: nat, b: nat)
    ensures Pow2(a + b) == Pow2(a) * Pow2(b)
    decreases b
  {
    if b > 0 { Pow2Adds(a, b - 1); }
  }

  lemma Squares(n: nat, p: nat)
    requires Pow2(n) == p
    ensures Pow2(n + n) == p * p
  {
    Pow2Adds(n, n);
  }

  lemma Pow2Of64()
    ensures Pow2(64) == 0x1_0000_0000_0000_0000
  {
    assert Pow2(2) == 4;
    hide Pow2;
    Squares(2, 4);
    Squares(4, 16);
    Squares(8, 256);
    Squares(16, 0x1_0000);
    Squares(32, 0x1_0000_0000);
  }

  /** Bitwise exclusive-or of two naturals. */
  function XorNat(a: nat, b: nat): nat
    decreases a + b
  {
    if a == 0 && b == 0 then 0
    else (a % 2 + b % 2) % 2 + 2 * XorNat(a / 2, b / 2)
  }

  lemma {:induction false} XorFits(a: nat, b: nat, n: nat)
    requires a < Pow2(n) && b < Pow2(n)
    ensures XorNat(a, b) < Pow2(n)
    decreases n
  {
    if n > 0 && (a > 0 || b > 0) { XorFits(a / 2, b / 2, n - 1); }
  }

  lemma {:induction false} XorByBits(a: nat, b: nat)
    ensures XorNat(a, b) == (a % 2 + b % 2) % 2 + 2 * XorNat(a / 2, b / 2)
    ensures XorNat(a, b) % 2 == (a % 2 + b % 2) % 2
    ensures XorNat(a, b) / 2 == XorNat(a / 2, b / 2)
  {
    assert XorNat(a, b) == (a % 2 + b % 2) % 2 + 2 * XorNat(a / 2, b / 2);
    hide XorNat;
  }

  lemma BitsCancel(p: nat, q: nat)
    requires p < 2 && q < 2
    ensures OddSum(p, OddSum(p, q)) == q
  {}

  lemma ByHalves(x: nat, y: nat)
    requires x % 2 == y % 2 && x / 2 == y / 2
    ensures x == y
  {}

  /** The bit and the half of an exclusive-or. */
  lemma XorParts(a: nat, b: nat)
    ensures XorNat(a, b) % 2 == OddSum(a % 2, b % 2) && XorNat(a, b) / 2 == XorNat(a / 2, b / 2)
  {
    hide XorNat;
    XorByBits(a, b);
  }

  function OddSum(p: nat, q: nat): nat {
    (p + q) % 2
  }

  lemma {:induction false} XorUndoes(a: nat, b: nat)
    ensures XorNat(a, XorNat(a, b)) == b
    decreases a + b
  {
    if a > 0 || b > 0 {
      hide XorNat, OddSum;
      XorParts(a, b);
      XorParts(a, XorNat(a, b));
      XorUndoes(a / 2, b / 2);
      BitsCancel(a % 2, b % 2);
      ByHalves(XorNat(a, XorNat(a, b)), b);
    }
  }

  lemma {:induction false} XorCommutes(a: nat, b: nat)
    ensures XorNat(a, b) == XorNat(b, a)
    decreases a + b
  {
    if a > 0 || b > 0 { XorCommutes(a / 2, b / 2); }
  }

  function Xor(a: Word, b: Word): Word {
    Pow2Of64();
    XorFits(a, b, 64);
    XorNat(a, b)
  }

  /** Exclusive-or is injective in each argument. */
  lemma XorInjective(a: Word, b: Word, c: Word)
    requires b != c
    ensures Xor(a, b) != Xor(a, c)
    ensures Xor(b, a) != Xor(c, a)
  {
    XorUndoes(a, b);
    XorUndoes(a, c);
    XorCommutes(a, b);
    XorCommutes(a, c);
  }

  // -------------------------------------------------------------- xor and shift

  /** Two words that agree with a third in the same places agree in the rest. */
  lemma {:induction false} XorCancels(a: nat, b: nat, c: nat)
    ensures XorNat(XorNat(a, c), XorNat(b, c)) == XorNat(a, b)
    decreases a + b + c
  {
    if a > 0 || b > 0 || c > 0 {
      hide XorNat, OddSum;
      XorParts(a, c);
      XorParts(b, c);
      XorParts(a, b);
      XorParts(XorNat(a, c), XorNat(b, c));
      XorCancels(a / 2, b / 2, c / 2);
      BitsAgree(a % 2, b % 2, c % 2);
      ByHalves(XorNat(XorNat(a, c), XorNat(b, c)), XorNat(a, b));
    }
  }

  lemma BitsAgree(p: nat, q: nat, r: nat)
    requires p < 2 && q < 2 && r < 2
    ensures OddSum(OddSum(p, r), OddSum(q, r)) == OddSum(p, q)
  {}

  /** A right shift by `k` bits. */
  function Shift(x: nat, k: nat): (r: nat)
    ensures r <= x && (k > 0 ==> r <= x / 2)
    decreases k
  {
    if k == 0 then x else Shift(x / 2, k - 1)
  }

  lemma {:induction false} ShiftIsDivision(x: nat, k: nat)
    ensures Shift(x, k) == x / Pow2(k)
    decreases k
  {
    if k > 0 {
      ShiftIsDivision(x / 2, k - 1);
      DivTwice(x, Pow2(k - 1));
    }
  }

  lemma {:induction false} ShiftAdds(x: nat, j: nat, k: nat)
    ensures Shift(x, j + k) == Shift(Shift(x, j), k)
    decreases j
  {
    if j > 0 { ShiftAdds(x / 2, j - 1, k); }
  }

  /** A shift of both operands shifts the result. */
  lemma {:induction false} XorShifts(a: nat, b: nat, k: nat)
    ensures XorNat(Shift(a, k), Shift(b, k)) == Shift(XorNat(a, b), k)
    decreases k
  {
    if k > 0 {
      XorByBits(a, b);
      hide XorNat;
      XorShifts(a / 2, b / 2, k - 1);
    }
  }

  lemma DivTwice(x: nat, d: nat)
    requires d > 0
    ensures x / (2 * d) == x / 2 / d
  {
    var m, y := 2 * d, x / 2;
    var q, t := y / d, y % d;
    assert y == d * q + t;
    assert m * q == 2 * (d * q);
    Quotient(x, m, q, 2 * t + x % 2);
  }

  lemma Quotient(x: nat, m: nat, q: nat, r: nat)
    requires m > 0 && x == m * q + r && r < m
    ensures x / m == q
  {
    var e := x / m - q;
    assert x == m * (x / m) + x % m;
    assert m * e == r - x % m by {
      assert m * (x / m) == m * q + m * e;
    }
    Multiples(m, e);
  }

  lemma Multiples(m: int, e: int)
    requires m > 0
    ensures e >= 1 ==> m * e >= m
    ensures e <= -1 ==> m * e <= -m
  {
    assert m * e == m + m * (e - 1);
    assert m * e == -m + m * (e + 1);
  }

  lemma {:induction false} XorZero(a: nat, b: nat)
    requires XorNat(a, b) == 0
    ensures a == b
    decreases a + b
  {
    if a > 0 || b > 0 {
      XorByBits(a, b);
      hide XorNat;
      XorZero(a / 2, b / 2);
    }
  }

  /** Mixing a word with its own upper bits loses nothing. */
  lemma XorShiftInjective(a: nat, b: nat, k: nat)
    requires k > 0 && XorNat(a, Shift(a, k)) == XorNat(b, Shift(b, k))
    ensures a == b
  {
    hide XorNat, Shift;
    var x, y := Shift(a, k), Shift(b, k);
    var z := XorNat(a, x);
    XorUndoes(a, x);
    XorUndoes(b, y);
    XorCancels(a, b, z);
    XorShifts(a, b, k);
    XorZero(a, b);
  }
}
