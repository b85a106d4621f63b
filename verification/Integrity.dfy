/** Checksums and the deterministic fill pattern (src/integrity.cpp). */
module Integrity {
  import opened Collections
  import opened Words

  const U64_RANGE: nat := 0x1_0000_0000_0000_0000

  // ------------------------------------------------------------- FNV-1a 64

  /** Multiplication by the FNV prime, modulo 2^64. */
  function TimesPrime(x: Word): Word {
    Wrap(x * 0x100000001b3)
  }

  /** Multiplication by the inverse of the FNV prime, modulo 2^64. */
  function TimesInverse(x: Word): Word {
    Wrap(x * 0xce965057aff6957b)
  }

  function Mix(h: Word, b: Byte): Word {
    TimesPrime(Xor(h, b))
  }

  /** FNV-1a 64 (draft-eastlake-fnv, section 2) started from `h`. */
  function Fnv(h: Word, s: seq<Byte>): Word {
    if |s| == 0 then h else Mix(Fnv(h, s[..|s| - 1]), s[|s| - 1])
  }

  /** `fnv1a64`: the loop folds the first `n` bytes. */
  method Fnv1a64(data: array<Byte>, n: nat, seed: Word) returns (h: Word)
    requires n <= data.Length
    ensures h == Fnv(seed, data[..n])
  {
    hide TimesPrime, Xor;
    h := seed;
    for i := 0 to n
      invariant h == Fnv(seed, data[..i])
    {
      assert data[..i + 1][..i] == data[..i];
      h := Xor(h, data[i]);
      h := TimesPrime(h);
    }
  }

  /** The prime is odd, so multiplying by it modulo 2^64 can be undone. */
  lemma PrimeInvertible(x: Word)
    ensures TimesInverse(TimesPrime(x)) == x
  {
    var r: int := TimesPrime(x);
    var m: int := (x * 0x100000001b3) / 0x1_0000_0000_0000_0000;
    assert x * 0x100000001b3 == m * 0x1_0000_0000_0000_0000 + r;
    var q: int := x * 887285111055 - m * 0xce965057aff6957b;
    assert r * 0xce965057aff6957b == x + q * 0x1_0000_0000_0000_0000;
    Remainder(x, q);
  }

  lemma Remainder(x: Word, q: int)
    requires x + q * 0x1_0000_0000_0000_0000 >= 0
    ensures (x + q * 0x1_0000_0000_0000_0000) % 0x1_0000_0000_0000_0000 == x
  {}

  /** One mixing step loses nothing of either input. */
  lemma MixInjective(h: Word, h': Word, b: Byte, b': Byte)
    ensures h != h' ==> Mix(h, b) != Mix(h', b)
    ensures b != b' ==> Mix(h, b) != Mix(h, b')
  {
    hide TimesPrime, TimesInverse, Xor;
    PrimeInvertible(Xor(h, b));
    PrimeInvertible(Xor(h', b));
    PrimeInvertible(Xor(h, b'));
    if h != h' { XorInjective(b, h, h'); }
    if b != b' { XorInjective(h, b, b'); }
  }

  lemma {:induction false} FnvAppend(h: Word, a: seq<Byte>, b: seq<Byte>)
    ensures Fnv(h, a + b) == Fnv(Fnv(h, a), b)
    decreases |b|
  {
    if |b| == 0 {
      assert a + b == a;
    } else {
      var b0 := b[..|b| - 1];
      assert (a + b)[..|a + b| - 1] == a + b0;
      FnvAppend(h, a, b0);
    }
  }

  /** Hashing the same bytes from different states keeps them apart. */
  lemma {:induction false} FnvKeepsStatesApart(h: Word, h': Word, s: seq<Byte>)
    requires h != h'
    ensures Fnv(h, s) != Fnv(h', s)
    decreases |s|
  {
    if |s| > 0 {
      FnvKeepsStatesApart(h, h', s[..|s| - 1]);
      MixInjective(Fnv(h, s[..|s| - 1]), Fnv(h', s[..|s| - 1]), s[|s| - 1], 0);
    }
  }

  /** Single-byte corruption is always detected, whatever the seed. */
  lemma SingleByteChangesHash(seed: Word, a: seq<Byte>, i: nat, b: Byte)
    requires i < |a| && a[i] != b
    ensures Fnv(seed, a[i := b]) != Fnv(seed, a)
  {
    var pre, post := a[..i], a[i + 1..];
    assert a == pre + [a[i]] + post;
    assert a[i := b] == pre + [b] + post;
    FnvAppend(seed, pre + [a[i]], post);
    FnvAppend(seed, pre + [b], post);
    assert (pre + [a[i]])[..i] == pre && (pre + [b])[..i] == pre;
    MixInjective(Fnv(seed, pre), 0, a[i], b);
    FnvKeepsStatesApart(Fnv(seed, pre + [a[i]]), Fnv(seed, pre + [b]), post);
  }

  // ---------------------------------------------------------- fill pattern

  /** A word mixed with its own upper bits. */
  function Fold(x: Word, k: nat): Word {
    Xor(x, Shift(x, k))
  }

  /** `splitmix64`. */
  function SplitMix64(x0: Word): Word {
    var x1 := Wrap(x0 + 0x9E3779B97F4A7C15);
    var x2 := Wrap(Fold(x1, 30) * 0xBF58476D1CE4E5B9);
    var x3 := Wrap(Fold(x2, 27) * 0x94D049BB133111EB);
    Fold(x3, 31)
  }

  /** The word a block of eight bytes is cut from. */
  function BlockWord(seed: Word, page: Word, block: Word): Word {
    SplitMix64(Xor(Xor(seed, Wrap(page * 0x9E3779B97F4A7C15)), block))
  }

  /** Byte `j` of a word, least significant first. */
  function ByteOf(v: Word, j: nat): Byte {
    Shift(v, 8 * j) % 256
  }

  /** The byte the device kernel writes at position `i`; each of its threads
      computes one byte on its own. */
  function PatternByte(seed: Word, page: Word, i: nat): Byte
    requires i < U64_RANGE
  {
    ByteOf(BlockWord(seed, page, i / 8), i % 8)
  }

  lemma PatternAt(seed: Word, page: Word, b: nat, j: nat)
    requires j < 8 && b * 8 + j < U64_RANGE
    ensures PatternByte(seed, page, b * 8 + j) == ByteOf(BlockWord(seed, page, b), j)
  {
    hide BlockWord, ByteOf;
  }

  function Pattern(seed: Word, page: Word, n: nat): seq<Byte>
    requires n <= U64_RANGE
  {
    seq(n, i requires 0 <= i < n => PatternByte(seed, page, i))
  }

  /** `fill_pattern`: filling eight bytes at a time, with a tail, writes
      exactly what the device kernel writes byte by byte. */
  method FillPattern(dst: array<Byte>, seed: Word, page: Word)
    requires dst.Length < U64_RANGE
    modifies dst
    ensures dst[..] == Pattern(seed, page, dst.Length)
  {
    hide SplitMix64, BlockWord, ByteOf;
    var n := dst.Length;
    var blocks := n / 8;
    for b := 0 to blocks
      invariant forall i :: 0 <= i < b * 8 ==> dst[i] == PatternByte(seed, page, i)
    {
      var v := BlockWord(seed, page, b);
      for j := 0 to 8
        invariant forall i :: 0 <= i < b * 8 + j ==> dst[i] == PatternByte(seed, page, i)
      {
        dst[b * 8 + j] := ByteOf(v, j);
      }
    }
    var tail := n % 8;
    if tail != 0 {
      var v := BlockWord(seed, page, blocks);
      for j := 0 to tail
        invariant forall i :: 0 <= i < blocks * 8 + j ==> dst[i] == PatternByte(seed, page, i)
      {
        dst[blocks * 8 + j] := ByteOf(v, j);
      }
    }
  }

  datatype Mismatch = Mismatch(offset: nat, expected: Byte, actual: Byte)

  /** `verify_pattern`: the least checked offset that differs from the
      pattern, or nothing when every checked byte agrees; a limit of 0 means
      that all bytes are checked. */
  method VerifyPattern(data: array<Byte>, seed: Word, page: Word, checkLimit: nat)
    returns (r: Option<Mismatch>)
    requires data.Length < U64_RANGE
    ensures r.None? ==> forall i :: 0 <= i < data.Length && (checkLimit == 0 || i < checkLimit) ==>
      data[i] == PatternByte(seed, page, i)
    ensures r.Some? ==>
      && r.value.offset < data.Length && (checkLimit == 0 || r.value.offset < checkLimit)
      && data[r.value.offset] == r.value.actual != r.value.expected == PatternByte(seed, page, r.value.offset)
      && forall i :: 0 <= i < r.value.offset ==> data[i] == PatternByte(seed, page, i)
  {
    hide PatternByte;
    var n := data.Length;
    var limit := if checkLimit == 0 then n else if checkLimit < n then checkLimit else n;
    var blocks := n / 8;
    var b := 0;
    while b < blocks && b * 8 < limit
      invariant 0 <= b <= blocks
      invariant forall i :: 0 <= i < b * 8 && i < limit ==> data[i] == PatternByte(seed, page, i)
    {
      r := VerifyBlock(data, seed, page, b, 8, limit);
      if r.Some? { return; }
      b := b + 1;
    }
    r := None;
    if n % 8 != 0 && blocks * 8 < limit {
      r := VerifyBlock(data, seed, page, blocks, n % 8, limit);
    }
  }

  /** The inner loops: up to `count` bytes of block `b`, below the limit. */
  method VerifyBlock(data: array<Byte>, seed: Word, page: Word, b: nat, count: nat, limit: nat)
    returns (r: Option<Mismatch>)
    requires limit <= data.Length < U64_RANGE && count <= 8 && b * 8 + count <= data.Length
    ensures r.None? ==>
      forall i :: b * 8 <= i < b * 8 + count && i < limit ==> data[i] == PatternByte(seed, page, i)
    ensures r.Some? ==>
      && b * 8 <= r.value.offset < limit
      && data[r.value.offset] == r.value.actual != r.value.expected == PatternByte(seed, page, r.value.offset)
      && forall i :: b * 8 <= i < r.value.offset ==> data[i] == PatternByte(seed, page, i)
  {
    hide BlockWord, ByteOf, PatternByte;
    var v := BlockWord(seed, page, b);
    var j := 0;
    while j < count && b * 8 + j < limit
      invariant 0 <= j <= count
      invariant forall i :: b * 8 <= i < b * 8 + j && i < limit ==> data[i] == PatternByte(seed, page, i)
    {
      PatternAt(seed, page, b, j);
      var expected := ByteOf(v, j);
      if data[b * 8 + j] != expected {
        return Some(Mismatch(b * 8 + j, expected, data[b * 8 + j]));
      }
      j := j + 1;
    }
    return None;
  }
}
