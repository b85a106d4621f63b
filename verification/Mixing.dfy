/** What the fill pattern is good for: no two pages, seeds or blocks share their
    bytes, so verifying a page against another's content fails. */
module Mixing {
  import opened Collections
  import opened Words
  import opened Integrity

  // -------------------------------------------------------- nothing is lost

  /** Multiplication by `c` modulo 2^64 is undone by `inverse` when the product
      of the two is one more than a multiple of 2^64. */
  lemma OddProductInjective(x: Word, y: Word, c: nat, inverse: nat, m: nat)
    requires c * inverse == m * U64_RANGE + 1 && Wrap(x * c) == Wrap(y * c)
    ensures x == y
  {
    Undone(x, c, inverse, m);
    Undone(y, c, inverse, m);
  }

  lemma Undone(x: Word, c: nat, inverse: nat, m: nat)
    requires c * inverse == m * U64_RANGE + 1
    ensures Wrap(Wrap(x * c) * inverse) == x
  {
    var r := x * c % U64_RANGE;
    var q := x * c / U64_RANGE;
    assert x * c == q * U64_RANGE + r;
    var e := x * m - q * inverse;
    assert r * inverse == x + e * U64_RANGE by {
      assert (x * c) * inverse == x * (c * inverse);
      assert x * (m * U64_RANGE + 1) == (x * m) * U64_RANGE + x;
      assert (q * U64_RANGE + r) * inverse == (q * inverse) * U64_RANGE + r * inverse;
    }
    Remainder(x, e);
  }

  lemma SumInjective(x: Word, y: Word, c: Word)
    requires Wrap(x + c) == Wrap(y + c)
    ensures x == y
  {}

  lemma FoldInjective(x: Word, y: Word, k: nat)
    requires k > 0 && Fold(x, k) == Fold(y, k)
    ensures x == y
  {
    XorShiftInjective(x, y, k);
  }

  /** `splitmix64` maps different words to different words. */
  lemma SplitMixInjective(x: Word, y: Word)
    requires SplitMix64(x) == SplitMix64(y)
    ensures x == y
  {
    hide Fold, Wrap;
    var x1, y1 := Wrap(x + 0x9E3779B97F4A7C15), Wrap(y + 0x9E3779B97F4A7C15);
    var x2, y2 := Wrap(Fold(x1, 30) * 0xBF58476D1CE4E5B9), Wrap(Fold(y1, 30) * 0xBF58476D1CE4E5B9);
    var x3, y3 := Wrap(Fold(x2, 27) * 0x94D049BB133111EB), Wrap(Fold(y2, 27) * 0x94D049BB133111EB);
    FoldInjective(x3, y3, 31);
    OddProductInjective(Fold(x2, 27), Fold(y2, 27), 0x94D049BB133111EB, 0x319642B2D24D8EC3, 2077064247507883091);
    FoldInjective(x2, y2, 27);
    OddProductInjective(Fold(x1, 30), Fold(y1, 30), 0xBF58476D1CE4E5B9, 0x96DE1B173F119089, 8125545580553827436);
    FoldInjective(x1, y1, 30);
    SumInjective(x, y, 0x9E3779B97F4A7C15);
  }

  /** Of the seed, the page and the block, each one alone tells words apart. */
  lemma WordsDiffer(seed: Word, page: Word, block: Word, seed': Word, page': Word, block': Word)
    requires || (seed' != seed && page' == page && block' == block)
             || (seed' == seed && page' != page && block' == block)
             || (seed' == seed && page' == page && block' != block)
    ensures BlockWord(seed, page, block) != BlockWord(seed', page', block')
  {
    hide SplitMix64, Wrap, Xor;
    var p, q := Wrap(page * 0x9E3779B97F4A7C15), Wrap(page' * 0x9E3779B97F4A7C15);
    if p == q {
      OddProductInjective(page, page', 0x9E3779B97F4A7C15, 0xF1DE83E19937733D, 10771413168148108919);
    }
    var x, y := Xor(seed, p), Xor(seed', q);
    if seed != seed' { XorInjective(p, seed, seed'); }
    if p != q && seed == seed' { XorInjective(seed, p, q); }
    var u, v := Xor(x, block), Xor(y, block');
    if x != y && block == block' { XorInjective(block, x, y); }
    if x == y && block != block' { XorInjective(x, block, block'); }
    if SplitMix64(u) == SplitMix64(v) { SplitMixInjective(u, v); }
  }

  // ------------------------------------------------------------ byte by byte

  /** Eight bytes make up a word. */
  lemma {:induction false} BytesTell(v: nat, w: nat, n: nat)
    requires Shift(v, 8 * n) == 0 && Shift(w, 8 * n) == 0
    requires forall j :: 0 <= j < n ==> Shift(v, 8 * j) % 256 == Shift(w, 8 * j) % 256
    ensures v == w
    decreases n
  {
    if n > 0 {
      hide Shift;
      EightBits(v);
      EightBits(w);
      forall j | 0 <= j < n - 1 ensures Shift(v / 256, 8 * j) % 256 == Shift(w / 256, 8 * j) % 256 {
        var k := j + 1;
        assert Shift(v, 8 * k) % 256 == Shift(w, 8 * k) % 256;
        ShiftAdds(v, 8, 8 * j);
        ShiftAdds(w, 8, 8 * j);
      }
      ShiftAdds(v, 8, 8 * (n - 1));
      ShiftAdds(w, 8, 8 * (n - 1));
      BytesTell(v / 256, w / 256, n - 1);
      NoShift(v);
      NoShift(w);
      assert Shift(v, 8 * 0) % 256 == Shift(w, 8 * 0) % 256;
    }
  }

  lemma EightBits(v: nat)
    ensures Shift(v, 8) == v / 256
  {
    ShiftIsDivision(v, 8);
    assert Pow2(8) == 256;
  }

  lemma WordEnds(v: Word)
    ensures Shift(v, 64) == 0
  {
    ShiftIsDivision(v, 64);
    Pow2Of64();
  }

  lemma DifferentWords(v: Word, w: Word) returns (j: nat)
    requires v != w
    ensures j < 8 && ByteOf(v, j) != ByteOf(w, j)
  {
    hide Shift;
    WordEnds(v);
    WordEnds(w);
    if forall i :: 0 <= i < 8 ==> Shift(v, 8 * i) % 256 == Shift(w, 8 * i) % 256 {
      BytesTell(v, w, 8);
    }
    j :| 0 <= j < 8 && Shift(v, 8 * j) % 256 != Shift(w, 8 * j) % 256;
  }

  /** In every whole block, the patterns of two pages, or of two seeds, differ. */
  lemma PatternsDiffer(seed: Word, page: Word, seed': Word, page': Word, block: nat) returns (i: nat)
    requires (seed' == seed && page' != page) || (seed' != seed && page' == page)
    requires block * 8 + 8 <= U64_RANGE
    ensures block * 8 <= i < block * 8 + 8 && PatternByte(seed, page, i) != PatternByte(seed', page', i)
  {
    hide BlockWord, ByteOf;
    WordsDiffer(seed, page, block, seed', page', block);
    var j := DifferentWords(BlockWord(seed, page, block), BlockWord(seed', page', block));
    PatternAt(seed, page, block, j);
    PatternAt(seed', page', block, j);
    i := block * 8 + j;
  }

  /** And two whole blocks of one page do. */
  lemma BlocksDiffer(seed: Word, page: Word, b: nat, c: nat) returns (j: nat)
    requires b != c && b * 8 + 8 <= U64_RANGE && c * 8 + 8 <= U64_RANGE
    ensures j < 8 && PatternByte(seed, page, b * 8 + j) != PatternByte(seed, page, c * 8 + j)
  {
    hide BlockWord, ByteOf;
    WordsDiffer(seed, page, b, seed, page, c);
    j := DifferentWords(BlockWord(seed, page, b), BlockWord(seed, page, c));
    PatternAt(seed, page, b, j);
    PatternAt(seed, page, c, j);
  }

  /** Verification tells pages apart: it reports a mismatch on any other page's
      pattern, as on this page's under another seed, once a whole block is
      looked at, and none on this page's own. */
  method VerifyContent(data: array<Byte>, seed: Word, page: Word, checkLimit: nat, ghost written: (Word, Word))
    returns (r: Option<Mismatch>)
    requires 8 <= data.Length < U64_RANGE && (checkLimit == 0 || checkLimit >= 8)
    requires data[..] == Pattern(written.0, written.1, data.Length)
    ensures written == (seed, page) ==> r.None?
    ensures written.0 == seed && written.1 != page ==> r.Some?
    ensures written.0 != seed && written.1 == page ==> r.Some?
  {
    hide PatternByte;
    r := VerifyPattern(data, seed, page, checkLimit);
    assert forall i :: 0 <= i < data.Length ==> data[i] == data[..][i] == PatternByte(written.0, written.1, i);
    if (written.0 == seed && written.1 != page) || (written.0 != seed && written.1 == page) {
      ghost var i := PatternsDiffer(seed, page, written.0, written.1, 0);
    }
  }

  // ----------------------------------------------------------- known answers

  lemma Bit(a: nat, b: nat, p: nat, q: nat)
    requires p < 2 && q < 2
    ensures XorNat(2 * a + p, 2 * b + q) == 2 * XorNat(a, b) + OddSum(p, q)
  {
    hide XorNat;
    XorParts(2 * a + p, 2 * b + q);
  }

  /** Exclusive-or of words one hexadecimal digit longer, digits bit by bit. */
  lemma Digit(a: nat, b: nat, c: nat, p3: nat, p2: nat, p1: nat, p0: nat, q3: nat, q2: nat, q1: nat, q0: nat)
    requires XorNat(a, b) == c
    requires p3 < 2 && p2 < 2 && p1 < 2 && p0 < 2 && q3 < 2 && q2 < 2 && q1 < 2 && q0 < 2
    ensures XorNat(16 * a + 8 * p3 + 4 * p2 + 2 * p1 + p0, 16 * b + 8 * q3 + 4 * q2 + 2 * q1 + q0)
      == 16 * c + 8 * OddSum(p3, q3) + 4 * OddSum(p2, q2) + 2 * OddSum(p1, q1) + OddSum(p0, q0)
  {
    hide XorNat, OddSum;
    Bit(a, b, p3, q3);
    Bit(2 * a + p3, 2 * b + q3, p2, q2);
    Bit(4 * a + 2 * p3 + p2, 4 * b + 2 * q3 + q2, p1, q1);
    Bit(8 * a + 4 * p3 + 2 * p2 + p1, 8 * b + 4 * q3 + 2 * q2 + q1, p0, q0);
  }

  lemma XorOfZeros()
    ensures XorNat(0, 0) == 0
  {}

  lemma {:induction false} XorWithNothing(a: nat)
    ensures XorNat(a, 0) == a
  {
    if a > 0 { XorWithNothing(a / 2); }
  }

  lemma BasisWithA()
    ensures XorNat(0xcbf29ce484222325, 0x61) == 0xcbf29ce484222344
  {
    hide XorNat;
    XorWithNothing(0xcbf29ce4842223);
    Digit(0xcbf29ce4842223, 0, 0xcbf29ce4842223, 0, 0, 1, 0, 0, 1, 1, 0);
    Digit(0xcbf29ce48422232, 6, 0xcbf29ce48422234, 0, 1, 0, 1, 0, 0, 0, 1);
  }

  /** FNV-1a 64 of "a", from the test vectors of draft-eastlake-fnv. */
  lemma KnownHash()
    ensures Fnv(0xcbf29ce484222325, [0x61]) == 0xaf63dc4c8601ec8c
  {
    hide XorNat;
    BasisWithA();
    var s: seq<Byte> := [0x61];
    assert s[..0] == [];
    assert Fnv(0xcbf29ce484222325, s) == Mix(0xcbf29ce484222325, 0x61);
  }

  lemma FirstHigh()
    ensures XorNat(0x9e3779b9, 0x2) == 0x9e3779bb
  {
    XorOfZeros();
    hide XorNat;
    Digit(0x0, 0x0, 0x0, 1, 0, 0, 1, 0, 0, 0, 0);
    Digit(0x9, 0x0, 0x9, 1, 1, 1, 0, 0, 0, 0, 0);
    Digit(0x9e, 0x0, 0x9e, 0, 0, 1, 1, 0, 0, 0, 0);
    Digit(0x9e3, 0x0, 0x9e3, 0, 1, 1, 1, 0, 0, 0, 0);
    Digit(0x9e37, 0x0, 0x9e37, 0, 1, 1, 1, 0, 0, 0, 0);
    Digit(0x9e377, 0x0, 0x9e377, 1, 0, 0, 1, 0, 0, 0, 0);
    Digit(0x9e3779, 0x0, 0x9e3779, 1, 0, 1, 1, 0, 0, 0, 0);
    Digit(0x9e3779b, 0x0, 0x9e3779b, 1, 0, 0, 1, 0, 0, 1, 0);
  }

  lemma FirstLow()
    ensures XorNat(0x9e3779b97f4a7c15, 0x278dde6e5) == 0x9e3779bb07979af0
  {
    hide XorNat;
    FirstHigh();
    Digit(0x9e3779b9, 0x2, 0x9e3779bb, 0, 1, 1, 1, 0, 1, 1, 1);
    Digit(0x9e3779b97, 0x27, 0x9e3779bb0, 1, 1, 1, 1, 1, 0, 0, 0);
    Digit(0x9e3779b97f, 0x278, 0x9e3779bb07, 0, 1, 0, 0, 1, 1, 0, 1);
    Digit(0x9e3779b97f4, 0x278d, 0x9e3779bb079, 1, 0, 1, 0, 1, 1, 0, 1);
    Digit(0x9e3779b97f4a, 0x278dd, 0x9e3779bb0797, 0, 1, 1, 1, 1, 1, 1, 0);
    Digit(0x9e3779b97f4a7, 0x278dde, 0x9e3779bb07979, 1, 1, 0, 0, 0, 1, 1, 0);
    Digit(0x9e3779b97f4a7c, 0x278dde6, 0x9e3779bb07979a, 0, 0, 0, 1, 1, 1, 1, 0);
    Digit(0x9e3779b97f4a7c1, 0x278dde6e, 0x9e3779bb07979af, 0, 1, 0, 1, 0, 1, 0, 1);
  }

  lemma SecondHigh()
    ensures XorNat(0x6f68261b, 0xd) == 0x6f682616
  {
    XorOfZeros();
    hide XorNat;
    Digit(0x0, 0x0, 0x0, 0, 1, 1, 0, 0, 0, 0, 0);
    Digit(0x6, 0x0, 0x6, 1, 1, 1, 1, 0, 0, 0, 0);
    Digit(0x6f, 0x0, 0x6f, 0, 1, 1, 0, 0, 0, 0, 0);
    Digit(0x6f6, 0x0, 0x6f6, 1, 0, 0, 0, 0, 0, 0, 0);
    Digit(0x6f68, 0x0, 0x6f68, 0, 0, 1, 0, 0, 0, 0, 0);
    Digit(0x6f682, 0x0, 0x6f682, 0, 1, 1, 0, 0, 0, 0, 0);
    Digit(0x6f6826, 0x0, 0x6f6826, 0, 0, 0, 1, 0, 0, 0, 0);
    Digit(0x6f68261, 0x0, 0x6f68261, 1, 0, 1, 1, 1, 1, 0, 1);
  }

  lemma SecondLow()
    ensures XorNat(0x6f68261b57e7a770, 0xded04c36a) == 0x6f682616bae3641a
  {
    hide XorNat;
    SecondHigh();
    Digit(0x6f68261b, 0xd, 0x6f682616, 0, 1, 0, 1, 1, 1, 1, 0);
    Digit(0x6f68261b5, 0xde, 0x6f682616b, 0, 1, 1, 1, 1, 1, 0, 1);
    Digit(0x6f68261b57, 0xded, 0x6f682616ba, 1, 1, 1, 0, 0, 0, 0, 0);
    Digit(0x6f68261b57e, 0xded0, 0x6f682616bae, 0, 1, 1, 1, 0, 1, 0, 0);
    Digit(0x6f68261b57e7, 0xded04, 0x6f682616bae3, 1, 0, 1, 0, 1, 1, 0, 0);
    Digit(0x6f68261b57e7a, 0xded04c, 0x6f682616bae36, 0, 1, 1, 1, 0, 0, 1, 1);
    Digit(0x6f68261b57e7a7, 0xded04c3, 0x6f682616bae364, 0, 1, 1, 1, 0, 1, 1, 0);
    Digit(0x6f68261b57e7a77, 0xded04c36, 0x6f682616bae3641, 0, 0, 0, 0, 1, 0, 1, 0);
  }

  lemma ThirdHigh()
    ensures XorNat(0xe220a838, 0x1) == 0xe220a839
  {
    XorOfZeros();
    hide XorNat;
    Digit(0x0, 0x0, 0x0, 1, 1, 1, 0, 0, 0, 0, 0);
    Digit(0xe, 0x0, 0xe, 0, 0, 1, 0, 0, 0, 0, 0);
    Digit(0xe2, 0x0, 0xe2, 0, 0, 1, 0, 0, 0, 0, 0);
    Digit(0xe22, 0x0, 0xe22, 0, 0, 0, 0, 0, 0, 0, 0);
    Digit(0xe220, 0x0, 0xe220, 1, 0, 1, 0, 0, 0, 0, 0);
    Digit(0xe220a, 0x0, 0xe220a, 1, 0, 0, 0, 0, 0, 0, 0);
    Digit(0xe220a8, 0x0, 0xe220a8, 0, 0, 1, 1, 0, 0, 0, 0);
    Digit(0xe220a83, 0x0, 0xe220a83, 1, 0, 0, 0, 0, 0, 0, 1);
  }

  lemma ThirdLow()
    ensures XorNat(0xe220a838bf5c9dde, 0x1c4415071) == 0xe220a8397b1dcdaf
  {
    hide XorNat;
    ThirdHigh();
    Digit(0xe220a838, 0x1, 0xe220a839, 1, 0, 1, 1, 1, 1, 0, 0);
    Digit(0xe220a838b, 0x1c, 0xe220a8397, 1, 1, 1, 1, 0, 1, 0, 0);
    Digit(0xe220a838bf, 0x1c4, 0xe220a8397b, 0, 1, 0, 1, 0, 1, 0, 0);
    Digit(0xe220a838bf5, 0x1c44, 0xe220a8397b1, 1, 1, 0, 0, 0, 0, 0, 1);
    Digit(0xe220a838bf5c, 0x1c441, 0xe220a8397b1d, 1, 0, 0, 1, 0, 1, 0, 1);
    Digit(0xe220a838bf5c9, 0x1c4415, 0xe220a8397b1dc, 1, 1, 0, 1, 0, 0, 0, 0);
    Digit(0xe220a838bf5c9d, 0x1c44150, 0xe220a8397b1dcd, 1, 1, 0, 1, 0, 1, 1, 1);
    Digit(0xe220a838bf5c9dd, 0x1c441507, 0xe220a8397b1dcda, 1, 1, 1, 0, 0, 0, 0, 1);
  }

  lemma FoldIs(x: Word, k: nat, shifted: nat, r: nat)
    requires Shift(x, k) == shifted && XorNat(x, shifted) == r
    ensures Fold(x, k) == r
  {}

  lemma Shifted(x: nat, k: nat, d: nat)
    requires Pow2(k) == d
    ensures d > 0 && Shift(x, k) == x / d
  {
    ShiftIsDivision(x, k);
  }

  lemma Powers()
    ensures Pow2(27) == 0x8000000 && Pow2(30) == 0x40000000 && Pow2(31) == 0x80000000
  {
    assert Pow2(3) == 8;
    Squares(3, 8);
    Squares(6, 64);
    Squares(12, 4096);
    Pow2Adds(24, 3);
    Pow2Adds(27, 3);
    assert Pow2(31) == 2 * Pow2(30);
  }

  /** The first word of the splitmix64 stream from state zero. */
  lemma KnownSplitMix()
    ensures SplitMix64(0) == 0xe220a8397b1dcdaf
  {
    hide XorNat, Fold, Pow2, Shift;
    Powers();
    FirstLow();
    Shifted(0x9e3779b97f4a7c15, 30, 0x40000000);
    FoldIs(0x9e3779b97f4a7c15, 30, 0x278dde6e5, 0x9e3779bb07979af0);
    SecondLow();
    Shifted(0x6f68261b57e7a770, 27, 0x8000000);
    FoldIs(0x6f68261b57e7a770, 27, 0xded04c36a, 0x6f682616bae3641a);
    ThirdLow();
    Shifted(0xe220a838bf5c9dde, 31, 0x80000000);
    FoldIs(0xe220a838bf5c9dde, 31, 0x1c4415071, 0xe220a8397b1dcdaf);
  }

  /** So the pattern of page 0 under seed 0 begins with its low bytes, lowest
      first. */
  lemma KnownPattern()
    ensures PatternByte(0, 0, 0) == 0xaf && PatternByte(0, 0, 1) == 0xcd
  {
    hide SplitMix64, Shift, XorNat;
    XorOfZeros();
    KnownSplitMix();
    assert BlockWord(0, 0, 0) == 0xe220a8397b1dcdaf;
    EightBits(0xe220a8397b1dcdaf);
    assert Shift(0xe220a8397b1dcdaf, 0) == 0xe220a8397b1dcdaf by { NoShift(0xe220a8397b1dcdaf); }
  }

  lemma NoShift(x: nat)
    ensures Shift(x, 0) == x
  {}
}
