/** The 4 KiB block at the front of a store file
    (src/backends/store_common.hpp): its image, its seal and the check every
    reopen makes. The image is that of a little-endian machine. */
module StoreHeader {
  import opened Collections
  import opened Words
  import opened Integrity

  const HEADER_BLOCK_SIZE: nat := 4096
  const STORE_MAGIC: nat := 0x46544E56
  const STORE_VERSION: nat := 2
  const FNV_OFFSET: Word := 14695981039346656037
  const U64_MAX: nat := 0xFFFF_FFFF_FFFF_FFFF

  type Half = x: nat | x < 0x1_0000_0000

  datatype Header = Header(
    magic: Half, version: Half, pageSize: Word, capacity: Word, extentCount: Word,
    generation: Word, seed: Word, checksum: Word, reserved: seq<Byte>)

  predicate WellFormed(h: Header) {
    |h.reserved| == 4040
  }

  // ------------------------------------------------------- little-endian words

  function Le(v: nat, n: nat): (s: seq<Byte>)
    ensures |s| == n
  {
    if n == 0 then [] else [v % 256] + Le(v / 256, n - 1)
  }

  /** Least significant byte first. */
  lemma {:induction false} LeBytes(v: nat, n: nat, i: nat)
    requires i < n
    ensures Le(v, n)[i] == Shift(v, 8 * i) % 256
    decreases n
  {
    if i > 0 {
      LeBytes(v / 256, n - 1, i - 1);
      ShiftAdds(v, 8, 8 * (i - 1));
      ShiftIsDivision(v, 8);
      assert Pow2(8) == 256;
    }
  }

  function FromLe(s: seq<Byte>): nat {
    if |s| == 0 then 0 else s[0] + 256 * FromLe(s[1..])
  }

  lemma {:induction false} FromLeBound(s: seq<Byte>)
    ensures FromLe(s) < Pow2(8 * |s|)
    decreases |s|
  {
    if |s| > 0 {
      FromLeBound(s[1..]);
      Pow2Adds(8 * (|s| - 1), 8);
      assert Pow2(8) == 256;
    }
  }

  lemma {:induction false} LeUndone(v: nat, n: nat)
    requires v < Pow2(8 * n)
    ensures FromLe(Le(v, n)) == v
    decreases n
  {
    if n > 0 {
      Pow2Adds(8 * (n - 1), 8);
      assert Pow2(8) == 256;
      LeUndone(v / 256, n - 1);
      assert Le(v, n)[1..] == Le(v / 256, n - 1);
    }
  }

  lemma {:induction false} FromLeUndone(s: seq<Byte>)
    ensures Le(FromLe(s), |s|) == s
    decreases |s|
  {
    if |s| > 0 {
      FromLeUndone(s[1..]);
      assert FromLe(s) % 256 == s[0] && FromLe(s) / 256 == FromLe(s[1..]);
      assert s == [s[0]] + s[1..];
    }
  }

  /** Different bytes stand for different words. */
  lemma FromLeInjective(a: seq<Byte>, b: seq<Byte>)
    requires |a| == |b| && a != b
    ensures FromLe(a) != FromLe(b)
  {
    FromLeUndone(a);
    FromLeUndone(b);
  }

  lemma Pow2Of32()
    ensures Pow2(32) == 0x1_0000_0000
  {
    assert Pow2(2) == 4;
    hide Pow2;
    Squares(2, 4);
    Squares(4, 16);
    Squares(8, 256);
    Squares(16, 0x1_0000);
  }

  function HalfAt(b: seq<Byte>, i: nat): Half
    requires i + 4 <= |b|
  {
    FromLeBound(b[i..i + 4]);
    Pow2Of32();
    FromLe(b[i..i + 4])
  }

  function WordAt(b: seq<Byte>, i: nat): Word
    requires i + 8 <= |b|
  {
    FromLeBound(b[i..i + 8]);
    Pow2Of64();
    FromLe(b[i..i + 8])
  }

  // ------------------------------------------------------------------- image

  /** The bytes before the checksum field. */
  function Front(h: Header): (s: seq<Byte>)
    ensures |s| == 48
  {
    Le(h.magic, 4) + Le(h.version, 4) + Le(h.pageSize, 8) + Le(h.capacity, 8) + Le(h.extentCount, 8)
    + Le(h.generation, 8) + Le(h.seed, 8)
  }

  function Image(h: Header): (b: seq<Byte>)
    requires WellFormed(h)
    ensures |b| == HEADER_BLOCK_SIZE
  {
    Front(h) + Le(h.checksum, 8) + h.reserved
  }

  /** What a block read from the file means. */
  function Parse(b: seq<Byte>): (h: Header)
    requires |b| == HEADER_BLOCK_SIZE
    ensures WellFormed(h)
  {
    Header(HalfAt(b, 0), HalfAt(b, 4), WordAt(b, 8), WordAt(b, 16), WordAt(b, 24), WordAt(b, 32), WordAt(b, 40),
           WordAt(b, 48), b[56..])
  }

  lemma FieldUndone(pre: seq<Byte>, v: nat, n: nat, post: seq<Byte>)
    requires v < Pow2(8 * n)
    ensures (pre + Le(v, n) + post)[|pre|..|pre| + n] == Le(v, n)
    ensures FromLe((pre + Le(v, n) + post)[|pre|..|pre| + n]) == v
  {
    LeUndone(v, n);
    assert (pre + Le(v, n) + post)[|pre|..|pre| + n] == Le(v, n);
  }

  lemma FrontUndone(h: Header, rest: seq<Byte>)
    ensures var b := Front(h) + rest;
      && HalfAt(b, 0) == h.magic && HalfAt(b, 4) == h.version && WordAt(b, 8) == h.pageSize
      && WordAt(b, 16) == h.capacity && WordAt(b, 24) == h.extentCount && WordAt(b, 32) == h.generation
      && WordAt(b, 40) == h.seed
  {
    hide Le, FromLe, Pow2;
    Pow2Of32();
    Pow2Of64();
    var b := Front(h) + rest;
    var f0, f1 := Le(h.magic, 4), Le(h.version, 4);
    var f2, f3, f4 := Le(h.pageSize, 8), Le(h.capacity, 8), Le(h.extentCount, 8);
    var f5, f6 := Le(h.generation, 8), Le(h.seed, 8);
    LeUndone(h.magic, 4);
    LeUndone(h.version, 4);
    LeUndone(h.pageSize, 8);
    LeUndone(h.capacity, 8);
    LeUndone(h.extentCount, 8);
    LeUndone(h.generation, 8);
    LeUndone(h.seed, 8);
    assert b[0..4] == f0;
    assert b[4..8] == f1;
    assert b[8..16] == f2;
    assert b[16..24] == f3;
    assert b[24..32] == f4;
    assert b[32..40] == f5;
    assert b[40..48] == f6;
  }

  /** Reading back what was written gives the same header. */
  lemma ParseUndoesImage(h: Header)
    requires WellFormed(h)
    ensures Parse(Image(h)) == h
  {
    hide Le, FromLe, Pow2, Front;
    Pow2Of64();
    FrontUndone(h, Le(h.checksum, 8) + h.reserved);
    assert Image(h) == Front(h) + (Le(h.checksum, 8) + h.reserved);
    FieldUndone(Front(h), h.checksum, 8, h.reserved);
    assert Image(h)[56..] == h.reserved;
  }

  /** And writing what was read gives the same block. */
  lemma ImageUndoesParse(b: seq<Byte>)
    requires |b| == HEADER_BLOCK_SIZE
    ensures Image(Parse(b)) == b
    ensures Front(Parse(b)) == b[..48]
  {
    hide Le, FromLe;
    FromLeUndone(b[0..4]);
    FromLeUndone(b[4..8]);
    FromLeUndone(b[8..16]);
    FromLeUndone(b[16..24]);
    FromLeUndone(b[24..32]);
    FromLeUndone(b[32..40]);
    FromLeUndone(b[40..48]);
    FromLeUndone(b[48..56]);
    assert Front(Parse(b)) == b[..48];
    assert b == b[..48] + b[48..56] + b[56..];
  }

  // -------------------------------------------------------------------- seal

  ghost function HeaderChecksum(h: Header): Word
    requires WellFormed(h)
  {
    Fnv(FNV_OFFSET, Image(h.(checksum := 0)))
  }

  ghost predicate Sealed(h: Header) {
    WellFormed(h) && h.checksum == HeaderChecksum(h)
  }

  /** `store_header_checksum`: a copy with its checksum cleared, hashed byte by
      byte. */
  method StoreHeaderChecksum(h: Header) returns (hash: Word)
    requires WellFormed(h)
    ensures hash == HeaderChecksum(h)
  {
    hide TimesPrime, Xor;
    var bytes := Image(h.(checksum := 0));
    hash := FNV_OFFSET;
    for i := 0 to |bytes|
      invariant hash == Fnv(FNV_OFFSET, bytes[..i])
    {
      assert bytes[..i + 1][..i] == bytes[..i];
      hash := Xor(hash, bytes[i]);
      hash := TimesPrime(hash);
    }
    assert bytes[..|bytes|] == bytes;
  }

  /** `seal_store_header`. */
  method Seal(h: Header) returns (r: Header)
    requires WellFormed(h)
    ensures Sealed(r) && r.(checksum := h.checksum) == h
  {
    var sum := StoreHeaderChecksum(h);
    r := h.(checksum := sum);
    assert r.(checksum := 0) == h.(checksum := 0);
  }

  // --------------------------------------------------------------- the check

  datatype Reason =
    BadMagic | BadVersion | BadChecksum | PageSizeDiffers | CapacityDiffers | Zeroed | NotAMultiple
    | ExtentCountWrong | Overflows | ReservedNonzero

  /** What is wrong, the first that applies. */
  ghost function FirstFault(h: Header, pageSize: Word, capacity: Word): Option<Reason>
    requires WellFormed(h)
  {
    if h.magic != STORE_MAGIC then Some(BadMagic)
    else if h.version != STORE_VERSION then Some(BadVersion)
    else if !Sealed(h) then Some(BadChecksum)
    else if pageSize != 0 && h.pageSize != pageSize then Some(PageSizeDiffers)
    else if capacity != 0 && h.capacity != capacity then Some(CapacityDiffers)
    else if h.pageSize < HEADER_BLOCK_SIZE || h.capacity == 0 || h.extentCount == 0 then Some(Zeroed)
    else if h.capacity % h.pageSize != 0 then Some(NotAMultiple)
    else if h.extentCount != h.capacity / h.pageSize then Some(ExtentCountWrong)
    else if h.capacity + h.pageSize > U64_MAX then Some(Overflows)
    else if exists i :: 0 <= i < |h.reserved| && h.reserved[i] != 0 then Some(ReservedNonzero)
    else None
  }

  /** `header_mismatch_reason`. */
  method MismatchReason(h: Header, pageSize: Word, capacity: Word) returns (r: Option<Reason>)
    requires WellFormed(h)
    ensures r == FirstFault(h, pageSize, capacity)
  {
    hide HeaderChecksum;
    if h.magic != STORE_MAGIC { return Some(BadMagic); }
    if h.version != STORE_VERSION { return Some(BadVersion); }
    var sum := StoreHeaderChecksum(h);
    if h.checksum != sum { return Some(BadChecksum); }
    if pageSize != 0 && h.pageSize != pageSize { return Some(PageSizeDiffers); }
    if capacity != 0 && h.capacity != capacity { return Some(CapacityDiffers); }
    if h.pageSize < HEADER_BLOCK_SIZE || h.capacity == 0 || h.extentCount == 0 { return Some(Zeroed); }
    if h.capacity % h.pageSize != 0 { return Some(NotAMultiple); }
    if h.extentCount != h.capacity / h.pageSize { return Some(ExtentCountWrong); }
    if h.capacity > U64_MAX - h.pageSize { return Some(Overflows); }
    for i := 0 to |h.reserved|
      invariant forall j :: 0 <= j < i ==> h.reserved[j] == 0
    {
      if h.reserved[i] != 0 { return Some(ReservedNonzero); }
    }
    return None;
  }

  // ---------------------------------------------------------------- theorems

  /** The block with its checksum field cleared. */
  function Cleared(b: seq<Byte>): (r: seq<Byte>)
    requires |b| == HEADER_BLOCK_SIZE
    ensures |r| == |b|
  {
    b[..48] + Le(0, 8) + b[56..]
  }

  lemma ChecksumOfBlock(b: seq<Byte>)
    requires |b| == HEADER_BLOCK_SIZE
    ensures HeaderChecksum(Parse(b)) == Fnv(FNV_OFFSET, Cleared(b))
  {
    hide Le, FromLe, Fnv;
    ImageUndoesParse(b);
    assert Front(Parse(b).(checksum := 0)) == Front(Parse(b));
  }

  /** One changed byte, the checksum's own bytes included, breaks the seal. */
  lemma OneByteBreaksTheSeal(b: seq<Byte>, i: nat, c: Byte)
    requires |b| == HEADER_BLOCK_SIZE && i < |b| && b[i] != c
    requires Sealed(Parse(b))
    ensures !Sealed(Parse(b[i := c]))
  {
    hide Le, FromLe, Fnv;
    var b' := b[i := c];
    ChecksumOfBlock(b);
    ChecksumOfBlock(b');
    if 48 <= i < 56 {
      assert Cleared(b') == Cleared(b);
      assert b'[48..56][i - 48] != b[48..56][i - 48];
      FromLeInjective(b'[48..56], b[48..56]);
    } else {
      assert Cleared(b') == Cleared(b)[i := c];
      assert Cleared(b)[i] == b[i];
      SingleByteChangesHash(FNV_OFFSET, Cleared(b), i, c);
      assert b'[48..56] == b[48..56];
    }
  }

  /** The first four bytes are the magic and the next four the version. */
  lemma FirstWords(b: seq<Byte>, i: nat, c: Byte)
    requires |b| == HEADER_BLOCK_SIZE && i < |b| && b[i] != c
    ensures Parse(b[i := c]).magic != Parse(b).magic <==> i < 4
    ensures Parse(b[i := c]).version != Parse(b).version <==> 4 <= i < 8
  {
    hide FromLe;
    var b' := b[i := c];
    if i < 4 {
      assert b'[0..4][i] != b[0..4][i];
      FromLeInjective(b'[0..4], b[0..4]);
    } else {
      assert b'[0..4] == b[0..4];
    }
    if 4 <= i < 8 {
      assert b'[4..8][i - 4] != b[4..8][i - 4];
      FromLeInjective(b'[4..8], b[4..8]);
    } else {
      assert b'[4..8] == b[4..8];
    }
  }

  /** A store file whose sealed header has any one byte altered is refused,
      whatever geometry the caller asks for. */
  lemma CorruptHeaderRefused(h: Header, i: nat, c: Byte, pageSize: Word, capacity: Word)
    requires Sealed(h) && i < HEADER_BLOCK_SIZE && Image(h)[i] != c
    ensures FirstFault(Parse(Image(h)[i := c]), pageSize, capacity).Some?
    ensures h.magic == STORE_MAGIC && h.version == STORE_VERSION ==>
      FirstFault(Parse(Image(h)[i := c]), pageSize, capacity)
        == Some(if i < 4 then BadMagic else if i < 8 then BadVersion else BadChecksum)
  {
    hide HeaderChecksum, Image, Parse, Fnv;
    ParseUndoesImage(h);
    OneByteBreaksTheSeal(Image(h), i, c);
    FirstWords(Image(h), i, c);
  }

  /** Exactly the headers that pass: sealed, of this format, for the geometry
      asked for, their extents filling the capacity, and nothing in reserve. */
  lemma AcceptedExactly(h: Header, pageSize: Word, capacity: Word)
    requires WellFormed(h)
    ensures FirstFault(h, pageSize, capacity).None? <==>
      && h.magic == 0x46544E56 && h.version == 2 && Sealed(h)
      && (pageSize == 0 || h.pageSize == pageSize) && (capacity == 0 || h.capacity == capacity)
      && h.pageSize >= 4096 && h.extentCount > 0 && h.extentCount * h.pageSize == h.capacity
      && h.capacity + h.pageSize < 0x1_0000_0000_0000_0000
      && (forall i :: 0 <= i < |h.reserved| ==> h.reserved[i] == 0)
  {
    hide Sealed;
    if h.pageSize > 0 { WholeExtents(h.capacity, h.pageSize, h.extentCount); }
  }

  lemma WholeExtents(capacity: nat, pageSize: nat, extents: nat)
    requires pageSize > 0
    ensures capacity % pageSize == 0 && extents == capacity / pageSize <==> extents * pageSize == capacity
    ensures extents > 0 ==> extents * pageSize > 0
  {
    assert capacity == capacity / pageSize * pageSize + capacity % pageSize;
    if extents * pageSize == capacity { Quotient(capacity, pageSize, extents, 0); }
    if extents > 0 { MulMonotone(1, extents, pageSize); }
  }

  /** `validate_store_geometry`, without the platform limits. */
  predicate GeometryOk(pageSize: Word, capacity: Word) {
    capacity != 0 && pageSize >= HEADER_BLOCK_SIZE && capacity % pageSize == 0 && capacity <= U64_MAX - pageSize
  }

  /** The header `open` writes into a file it has just created. */
  function NewHeader(pageSize: Word, capacity: Word): Header
    requires pageSize > 0
  {
    Header(STORE_MAGIC, STORE_VERSION, pageSize, capacity, capacity / pageSize, 1, 0xC0FFEE, 0,
           seq(4040, _ => 0))
  }

  lemma AtLeastOneExtent(pageSize: nat, capacity: nat)
    requires 0 < pageSize && 0 < capacity && capacity % pageSize == 0
    ensures capacity / pageSize > 0
  {
    assert capacity == capacity / pageSize * pageSize + capacity % pageSize;
  }

  /** What creation wrote, reopening accepts, for the same geometry or for one
      left unstated, and refuses for any other. */
  lemma NewStoreReopens(pageSize: Word, capacity: Word, h: Header, askedPage: Word, askedCapacity: Word)
    requires GeometryOk(pageSize, capacity)
    requires Sealed(h) && h.(checksum := 0) == NewHeader(pageSize, capacity)
    ensures FirstFault(Parse(Image(h)), askedPage, askedCapacity).None?
      <==> (askedPage == 0 || askedPage == pageSize) && (askedCapacity == 0 || askedCapacity == capacity)
  {
    hide HeaderChecksum, Image, Parse, Sealed;
    ParseUndoesImage(h);
    assert h.reserved == NewHeader(pageSize, capacity).reserved;
    AtLeastOneExtent(pageSize, capacity);
  }
}
