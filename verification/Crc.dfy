/** The CRC of PSI sections (libstagefright/MPEG2TSWriter.cpp: initCrcTable, crc32; checked by
    libstagefright/mpeg2ts/ATSParser.cpp: PSISection::isCRCOkay): Annex A of ISO/IEC 13818-1.  Words are bit
    strings, most significant bit first, as in BitReader; `p` is the polynomial. */
module Crc {
  import opened Bits
  import opened BitReader

  function Xor(a: seq<bool>, b: seq<bool>): (r: seq<bool>)
    requires |a| == |b|
    ensures |r| == |a| && forall i :: 0 <= i < |r| ==> r[i] == (a[i] != b[i])
  {
    seq(|a|, i requires 0 <= i < |a| => a[i] != b[i])
  }

  /** One bit of the division: the polynomial is subtracted when the bit shifted out is one. */
  function Step(p: word, crc: word): word {
    if crc[0] then Xor(crc[1..] + [false], p) else crc[1..] + [false]
  }

  function Steps(p: word, crc: word, n: nat): word {
    if n == 0 then crc else Step(p, Steps(p, crc, n - 1))
  }

  /** A byte's bits in front of zeros: i << 24. */
  function Aligned(bits: seq<bool>): word
    requires |bits| == 8
  {
    bits + Zeros(24)
  }

  /** An entry of the table, as initCrcTable fills it. */
  function TableEntry(p: word, i: seq<bool>): word
    requires |i| == 8
  {
    Steps(p, Aligned(i), 8)
  }

  predicate IsTable(p: word, table: seq<word>) {
    |table| == 256 && forall i: nat :: i < 256 ==> table[i] == TableEntry(p, ToBits(i, 8))
  }

  method InitCrcTable(p: word, table: array<word>)
    requires table.Length == 256
    modifies table
    ensures IsTable(p, table[..])
  {
    var i := 0;
    while i < 256
      invariant 0 <= i <= 256
      invariant forall k: nat :: k < i ==> table[k] == TableEntry(p, ToBits(k, 8))
    {
      var crc := Aligned(ToBits(i, 8));
      var j := 0;
      while j < 8
        invariant 0 <= j <= 8 && crc == Steps(p, Aligned(ToBits(i, 8)), j)
      {
        crc := Step(p, crc);
        j := j + 1;
      }
      table[i] := crc;
      i := i + 1;
    }
  }

  /** One byte of the loop, through the table: (crc << 8) ^ table[(crc >> 24) ^ b]. */
  function ByteStep(p: word, crc: word, b: byte): word {
    Xor(Shl(crc, 8), TableEntry(p, Xor(crc[..8], ToBits(b, 8))))
  }

  function CrcOf(p: word, start: word, data: seq<byte>): word {
    if data == [] then start else ByteStep(p, CrcOf(p, start, data[..|data| - 1]), data[|data| - 1])
  }

  /** The loops of crc32 and isCRCOkay. */
  method Crc32(p: word, table: seq<word>, start: word, data: seq<byte>) returns (crc: word)
    requires IsTable(p, table)
    ensures crc == CrcOf(p, start, data)
  {
    crc := start;
    var k := 0;
    assert data[..0] == [];
    while k < |data|
      invariant 0 <= k <= |data| && crc == CrcOf(p, start, data[..k])
    {
      assert data[..k + 1][..k] == data[..k];
      var index := Xor(crc[..8], ToBits(data[k], 8));
      EntryAt(p, table, index);
      crc := Xor(Shl(crc, 8), table[Val(index)]);
      k := k + 1;
    }
    assert data[..|data|] == data;
  }

  lemma EntryAt(p: word, table: seq<word>, index: seq<bool>)
    requires IsTable(p, table) && |index| == 8
    ensures Val(index) < 256 && table[Val(index)] == TableEntry(p, index)
  {
    Pow2Values();
    ValBound(index);
    ToBitsVal(index);
  }

  // ------------------------------------------------------------------ the table step is the bit-serial one

  lemma XorShift(a: word, b: word)
    ensures Xor(a, b)[1..] + [false] == Xor(a[1..] + [false], b[1..] + [false])
  {}

  // Four words, the last of each pair there or not.
  lemma XorSwap(a: seq<bool>, b: seq<bool>, c: seq<bool>)
    requires |a| == |b| == |c|
    ensures Xor(Xor(a, b), c) == Xor(Xor(a, c), b) == Xor(a, Xor(b, c))
    ensures Xor(Xor(a, c), Xor(b, c)) == Xor(a, b)
  {}

  lemma StepIsLinear(p: word, x: word, y: word)
    ensures Step(p, Xor(x, y)) == Xor(Step(p, x), Step(p, y))
  {
    XorShift(x, y);
    XorSwap(x[1..] + [false], y[1..] + [false], p);
  }

  lemma {:induction false} StepsAreLinear(p: word, x: word, y: word, n: nat)
    ensures Steps(p, Xor(x, y), n) == Xor(Steps(p, x, n), Steps(p, y, n))
  {
    if n > 0 {
      StepsAreLinear(p, x, y, n - 1);
      StepIsLinear(p, Steps(p, x, n - 1), Steps(p, y, n - 1));
    }
  }

  // Zeros at the front are just shifted out.
  lemma {:induction false} StepsOfZeros(p: word, x: word, n: nat)
    requires n <= 32 && x[..n] == Zeros(n)
    ensures Steps(p, x, n) == Shl(x, n)
  {
    if n > 0 {
      assert x[..n - 1] == x[..n][..n - 1] == Zeros(n)[..n - 1] == Zeros(n - 1);
      StepsOfZeros(p, x, n - 1);
      assert Zeros(n)[n - 1] == x[..n][n - 1] == x[n - 1];
      assert Shl(x, n - 1)[1..] + [false] == Shl(x, n);
    }
  }

  // A word and a byte at its front: what the table is asked for, and the rest.
  lemma TopAndRest(crc: word, b: seq<bool>)
    requires |b| == 8
    ensures Xor(crc, Aligned(b)) == Xor(Zeros(8) + crc[8..], Aligned(Xor(crc[..8], b)))
  {}

  lemma ShlDropsFront(crc: word)
    ensures Shl(Zeros(8) + crc[8..], 8) == Shl(crc, 8)
  {
    assert (Zeros(8) + crc[8..])[8..] == crc[8..];
  }

  /** The table step is eight bit-serial steps, for every state and byte. */
  lemma TableStepIsBitSerial(p: word, crc: word, b: byte)
    ensures ByteStep(p, crc, b) == Steps(p, Xor(crc, Aligned(ToBits(b, 8))), 8)
  {
    var low: word, top := Zeros(8) + crc[8..], Xor(crc[..8], ToBits(b, 8));
    TopAndRest(crc, ToBits(b, 8));
    StepsAreLinear(p, low, Aligned(top), 8);
    assert low[..8] == Zeros(8);
    StepsOfZeros(p, low, 8);
    ShlDropsFront(crc);
  }

  // ------------------------------------------------------------------ checking a message with its CRC

  lemma CrcOfNext(p: word, start: word, data: seq<byte>, b: byte)
    ensures CrcOf(p, start, data + [b]) == ByteStep(p, CrcOf(p, start, data), b)
  {
    assert (data + [b])[..|data|] == data;
  }

  lemma {:induction false} CrcOfSplit(p: word, start: word, a: seq<byte>, b: seq<byte>)
    ensures CrcOf(p, start, a + b) == CrcOf(p, CrcOf(p, start, a), b)
  {
    if b == [] {
      assert a + b == a;
    } else {
      var init := b[..|b| - 1];
      CrcOfSplit(p, start, a, init);
      assert a + b == (a + init) + [b[|b| - 1]];
      CrcOfNext(p, start, a + init, b[|b| - 1]);
    }
  }

  lemma {:induction false} StepsAdd(p: word, x: word, m: nat, n: nat)
    ensures Steps(p, x, m + n) == Steps(p, Steps(p, x, m), n)
  {
    if n > 0 { StepsAdd(p, x, m, n - 1); }
  }

  /** Up to four bytes are fed at once by putting them in front of the word. */
  lemma {:induction false} BytesAtOnce(p: word, crc: word, data: seq<byte>)
    requires |data| <= 4
    ensures CrcOf(p, crc, data) == Steps(p, Xor(crc, ByteBits(data) + Zeros(32 - 8 * |data|)), 8 * |data|)
  {
    if data == [] {
      assert Xor(crc, [] + Zeros(32)) == crc;
    } else {
      var init, last := data[..|data| - 1], data[|data| - 1];
      BytesAtOnce(p, crc, init);
      assert data == init + [last];
      CrcOfNext(p, crc, init, last);
      FeedLast(p, crc, init, last);
    }
  }

  lemma FeedLast(p: word, crc: word, init: seq<byte>, last: byte)
    requires |init| < 4
    requires CrcOf(p, crc, init) == Steps(p, Xor(crc, ByteBits(init) + Zeros(32 - 8 * |init|)), 8 * |init|)
    ensures ByteStep(p, CrcOf(p, crc, init), last)
         == Steps(p, Xor(crc, ByteBits(init + [last]) + Zeros(24 - 8 * |init|)), 8 * |init| + 8)
  {
    var k := 8 * |init|;
    var x: word := Xor(crc, ByteBits(init) + Zeros(32 - k));
    var late: word := Zeros(k) + ToBits(last, 8) + Zeros(24 - k);
    TableStepIsBitSerial(p, Steps(p, x, k), last);
    assert late[..k] == Zeros(k);
    StepsOfZeros(p, late, k);
    assert Shl(late, k) == Aligned(ToBits(last, 8));
    StepsAreLinear(p, x, late, k);
    StepsAdd(p, Xor(x, late), k, 8);
    BytesSideBySide(crc, init, last, k);
  }

  lemma BytesSideBySide(crc: word, init: seq<byte>, last: byte, k: nat)
    requires |init| < 4 && k == 8 * |init|
    ensures Xor(Xor(crc, ByteBits(init) + Zeros(32 - k)), Zeros(k) + ToBits(last, 8) + Zeros(24 - k))
         == Xor(crc, ByteBits(init + [last]) + Zeros(24 - k))
  {
    ByteBitsConcat(init, [last]);
    assert ByteBits([last]) == ToBits(last, 8) + [];
    Overlay(crc, ByteBits(init), ToBits(last, 8), k);
  }

  lemma Overlay(crc: word, a: seq<bool>, b: seq<bool>, k: nat)
    requires |a| == k <= 24 && |b| == 8
    ensures Xor(Xor(crc, a + Zeros(32 - k)), Zeros(k) + b + Zeros(24 - k)) == Xor(crc, a + b + Zeros(24 - k))
  {}

  // Only zero steps to zero, when the polynomial ends in a one.
  lemma {:induction false} OnlyZeroToZero(p: word, x: word, n: nat)
    requires p[31] && Steps(p, x, n) == Zeros(32)
    ensures x == Zeros(32)
  {
    if n > 0 {
      StepToZero(p, Steps(p, x, n - 1));
      OnlyZeroToZero(p, x, n - 1);
    }
  }

  lemma StepToZero(p: word, x: word)
    requires p[31] && Step(p, x) == Zeros(32)
    ensures x == Zeros(32)
  {
    if x[0] {
      assert false;
    } else {
      forall i | 0 <= i < 32 ensures !x[i] {
        if i > 0 { assert (x[1..] + [false])[i - 1] == x[i] == Zeros(32)[i - 1]; }
      }
    }
  }

  /** Four more bytes drive the loop to zero exactly when they are the CRC of what came before, most
      significant byte first. */
  lemma ZeroIffOwnCrc(p: word, start: word, data: seq<byte>, crc: seq<byte>)
    requires |crc| == 4 && p[31]
    ensures CrcOf(p, start, data + crc) == Zeros(32) <==> ByteBits(crc) == CrcOf(p, start, data)
  {
    var c := CrcOf(p, start, data);
    CrcOfSplit(p, start, data, crc);
    BytesAtOnce(p, c, crc);
    var bits: word := ByteBits(crc);
    assert bits + Zeros(0) == bits;
    if Steps(p, Xor(c, bits), 32) == Zeros(32) {
      OnlyZeroToZero(p, Xor(c, bits), 32);
      XorZero(c, bits);
    }
    if bits == c {
      XorSelf(c);
      ZeroStepsToZero(p);
    }
  }

  lemma XorZero(a: word, b: word)
    requires Xor(a, b) == Zeros(32)
    ensures a == b
  {
    forall i | 0 <= i < 32 ensures a[i] == b[i] {
      assert Xor(a, b)[i] == Zeros(32)[i];
    }
  }

  lemma XorSelf(a: word)
    ensures Xor(a, a) == Zeros(32)
  {}

  lemma ZeroStepsToZero(p: word)
    ensures Steps(p, Zeros(32), 32) == Zeros(32)
  {
    StepsOfZeros(p, Zeros(32), 32);
  }

  /** The four bytes of a word. */
  function CrcBytes(crc: word): (bs: seq<byte>)
    ensures |bs| == 4
  {
    Pow2Values();
    ValBound(crc[..8]);
    ValBound(crc[8..16]);
    ValBound(crc[16..24]);
    ValBound(crc[24..]);
    [Val(crc[..8]), Val(crc[8..16]), Val(crc[16..24]), Val(crc[24..])]
  }

  lemma CrcBytesBits(crc: word)
    ensures ByteBits(CrcBytes(crc)) == crc
  {
    var bs := CrcBytes(crc);
    ToBitsVal(crc[..8]);
    ToBitsVal(crc[8..16]);
    ToBitsVal(crc[16..24]);
    ToBitsVal(crc[24..]);
    BitsOfFour(bs[0], bs[1], bs[2], bs[3]);
    FourSlices(crc);
  }

  lemma FourSlices(crc: word)
    ensures (crc[..8] + crc[8..16]) + (crc[16..24] + crc[24..]) == crc
  {}

  lemma BitsOfTwo(a: byte, b: byte)
    ensures ByteBits([a, b]) == ToBits(a, 8) + ToBits(b, 8)
  {
    assert [a, b] == [a] + [b];
    ByteBitsConcat([a], [b]);
    OneByte(a);
    OneByte(b);
  }

  lemma BitsOfFour(a: byte, b: byte, c: byte, d: byte)
    ensures ByteBits([a, b, c, d]) == (ToBits(a, 8) + ToBits(b, 8)) + (ToBits(c, 8) + ToBits(d, 8))
  {
    assert [a, b, c, d] == [a, b] + [c, d];
    ByteBitsConcat([a, b], [c, d]);
    BitsOfTwo(a, b);
    BitsOfTwo(c, d);
  }

  lemma OneByte(b: byte)
    ensures ByteBits([b]) == ToBits(b, 8)
  {
    assert ToBits(b, 8) + [] == ToBits(b, 8);
  }

  const POLYNOMIAL: nat := 0x04C1_1DB7

  lemma PolynomialIsOdd()
    ensures ToBits(POLYNOMIAL, 32)[31]
  {
    LastBit(POLYNOMIAL, 32);
  }

  lemma LastBit(v: nat, n: nat)
    requires n > 0
    ensures ToBits(v, n)[n - 1] == (v % 2 == 1)
  {}

  // ------------------------------------------------------------------ sections

  /** 0xffffffff. */
  const ALL_ONES: word := Ones(32)

  function Ones(n: nat): seq<bool> { seq(n, _ => true) }

  // section_length, of a buffer with at least the section's first three bytes.
  function SectionLength(data: seq<byte>): nat
    requires |data| >= 3
  {
    (data[1] as int) % 16 * 256 + data[2]
  }

  /** isComplete. */
  predicate IsComplete(data: seq<byte>) { |data| >= 3 && |data| >= SectionLength(data) + 3 }

  /** How many bytes the loop of isCRCOkay covers: an unsigned sum. */
  function Covered(data: seq<byte>, skipBytes: nat): nat
    requires |data| >= 3
  {
    (SectionLength(data) - skipBytes + 4) % 0x1_0000_0000
  }

  // The loop is reached, or does not leave the buffer.
  predicate InBuffer(data: seq<byte>, skipBytes: nat) {
    IsComplete(data) && data[1] >= 0x80 ==> Covered(data, skipBytes) <= |data|
  }

  /** What isCRCOkay answers. */
  predicate CrcOkay(p: word, data: seq<byte>, skipBytes: nat)
    requires InBuffer(data, skipBytes)
  {
    && IsComplete(data)
    && (data[1] < 0x80 || CrcOf(p, ALL_ONES, data[..Covered(data, skipBytes)]) == Zeros(32))
  }

  method IsCrcOkay(p: word, table: seq<word>, data: seq<byte>, skipBytes: nat) returns (okay: bool)
    requires IsTable(p, table) && InBuffer(data, skipBytes)
    ensures okay == CrcOkay(p, data, skipBytes)
  {
    if |data| < 3 || |data| < SectionLength(data) + 3 {
      return false;
    }
    if data[1] < 0x80 {
      return true;
    }
    var crc := Crc32(p, table, ALL_ONES, data[..(SectionLength(data) - skipBytes + 4) % 0x1_0000_0000]);
    return crc == Zeros(32);
  }

  /** The bytes before n are followed by their own CRC. */
  predicate OwnCrcAt(p: word, data: seq<byte>, n: nat)
    requires n + 4 <= |data|
  {
    ByteBits(data[n..n + 4]) == CrcOf(p, ALL_ONES, data[..n])
  }

  /** A section whose last four bytes are its CRC. */
  predicate Correct(p: word, data: seq<byte>) {
    IsComplete(data) && data[1] >= 0x80 && SectionLength(data) >= 1 && OwnCrcAt(p, data, SectionLength(data) - 1)
  }

  /** A section is accepted exactly when the last four of the bytes that the loop covers are the CRC of
      those before them. */
  lemma OkayIffOwnCrc(p: word, data: seq<byte>, skipBytes: nat)
    requires p[31] && IsComplete(data) && data[1] >= 0x80 && 4 <= Covered(data, skipBytes) <= |data|
    ensures CrcOkay(p, data, skipBytes) <==> OwnCrcAt(p, data, Covered(data, skipBytes) - 4)
  {
    var n := Covered(data, skipBytes) - 4;
    assert data[..n + 4] == data[..n] + data[n..n + 4];
    ZeroIffOwnCrc(p, ALL_ONES, data[..n], data[n..n + 4]);
  }

  /** With pointer field 0 that is the section and its own CRC. */
  lemma PointerZeroIsExact(p: word, data: seq<byte>)
    requires p[31] && IsComplete(data) && data[1] >= 0x80 && SectionLength(data) >= 1
    ensures Covered(data, 1) == SectionLength(data) + 3
    ensures CrcOkay(p, data, 1) <==> Correct(p, data)
  {
    OkayIffOwnCrc(p, data, 1);
  }

  // The state before the data adds as many bit-serial steps of itself.
  lemma {:induction false} CrcOfState(p: word, s: word, data: seq<byte>)
    ensures CrcOf(p, s, data) == Xor(Steps(p, s, 8 * |data|), CrcOf(p, Zeros(32), data))
  {
    if data == [] {
      XorWithZeros(s);
    } else {
      var init, last := data[..|data| - 1], data[|data| - 1];
      CrcOfState(p, s, init);
      ByteStepIsLinear(p, Steps(p, s, 8 * |init|), CrcOf(p, Zeros(32), init), last);
      StepsAdd(p, s, 8 * |init|, 8);
    }
  }

  lemma ByteStepIsLinear(p: word, x: word, y: word, b: byte)
    ensures ByteStep(p, Xor(x, y), b) == Xor(Steps(p, x, 8), ByteStep(p, y, b))
  {
    var front := Aligned(ToBits(b, 8));
    TableStepIsBitSerial(p, Xor(x, y), b);
    TableStepIsBitSerial(p, y, b);
    XorSwap(x, y, front);
    StepsAreLinear(p, x, Xor(y, front), 8);
  }

  lemma XorWithZeros(a: word)
    ensures Xor(a, Zeros(32)) == a && Xor(Zeros(32), a) == a
  {}

  // From a state that some data drives to zero, that data says whether the state is zero.
  lemma ZeroStateIff(p: word, s: word, data: seq<byte>)
    requires p[31] && CrcOf(p, s, data) == Zeros(32)
    ensures s == Zeros(32) <==> CrcOf(p, Zeros(32), data) == Zeros(32)
  {
    if CrcOf(p, Zeros(32), data) == Zeros(32) {
      CrcOfState(p, s, data);
      XorWithZeros(Steps(p, s, 8 * |data|));
      OnlyZeroToZero(p, s, 8 * |data|);
    }
  }

  /** With pointer field k a correct section is accepted exactly when its last k bytes drive the loop from
      zero to zero; for up to four bytes, when they are all zero. */
  lemma CorrectAcceptedIff(p: word, data: seq<byte>, k: nat)
    requires p[31] && Correct(p, data) && k <= SectionLength(data) + 3
    ensures var end := SectionLength(data) + 3;
            && Covered(data, k + 1) == end - k
            && (CrcOkay(p, data, k + 1) <==> CrcOf(p, Zeros(32), data[end - k..end]) == Zeros(32))
            && (k <= 4 ==> (CrcOkay(p, data, k + 1) <==> ByteBits(data[end - k..end]) == Zeros(8 * k)))
  {
    var end := SectionLength(data) + 3;
    CoveredIs(data, 0);
    CoveredIs(data, k);
    PointerZeroIsExact(p, data);
    ShortLoop(p, ALL_ONES, data, end, k);
    if k <= 4 { FewBytesToZero(p, data[end - k..end], 8 * k); }
  }

  lemma CoveredIs(data: seq<byte>, k: nat)
    requires |data| >= 3 && k <= SectionLength(data) + 3
    ensures Covered(data, k + 1) == SectionLength(data) + 3 - k
  {}

  lemma ShortLoop(p: word, start: word, data: seq<byte>, end: nat, k: nat)
    requires p[31] && k <= end <= |data| && CrcOf(p, start, data[..end]) == Zeros(32)
    ensures CrcOf(p, start, data[..end - k]) == Zeros(32) <==> CrcOf(p, Zeros(32), data[end - k..end]) == Zeros(32)
  {
    var head, tail := data[..end - k], data[end - k..end];
    assert data[..end] == head + tail;
    CrcOfSplit(p, start, head, tail);
    ZeroStateIff(p, CrcOf(p, start, head), tail);
  }

  lemma FewBytesToZero(p: word, data: seq<byte>, n: nat)
    requires p[31] && |data| <= 4 && n == 8 * |data|
    ensures CrcOf(p, Zeros(32), data) == Zeros(32) <==> ByteBits(data) == Zeros(n)
  {
    BytesAtOnce(p, Zeros(32), data);
    FewBitsToZero(p, ByteBits(data), n);
  }

  lemma FewBitsToZero(p: word, bits: seq<bool>, k: nat)
    requires p[31] && |bits| == k <= 32
    ensures Steps(p, Xor(Zeros(32), bits + Zeros(32 - k)), k) == Zeros(32) <==> bits == Zeros(k)
  {
    var x: word := bits + Zeros(32 - k);
    XorWithZeros(x);
    if Steps(p, x, k) == Zeros(32) {
      OnlyZeroToZero(p, x, k);
      assert bits == x[..k] == Zeros(32)[..k] == Zeros(k);
    }
    if bits == Zeros(k) {
      assert x[..k] == Zeros(k);
      StepsOfZeros(p, x, k);
      assert Shl(x, k) == Zeros(32);
    }
  }

  // The word with only its last bit set steps to the polynomial.
  lemma LastBitToPolynomial(p: word, w: word)
    requires w == Zeros(31) + [true]
    ensures Steps(p, w, 32) == p
  {
    assert w[..31] == Zeros(31);
    StepsOfZeros(p, w, 31);
    assert Shl(w, 31)[0] && Shl(w, 31)[1..] + [false] == Zeros(32);
    XorWithZeros(p);
  }

  /** A correct section that is refused with pointer field 1, whatever the polynomial: its first three
      bytes, four that lead to the polynomial as its CRC, and that. */
  lemma CorrectButRefused(p: word) returns (data: seq<byte>)
    requires p[31]
    ensures |data| == 11 && Correct(p, data) && Covered(data, 2) == 10 && !CrcOkay(p, data, 2)
  {
    var body := WithCrc(p, ALL_ONES, [0x00, 0x80, 0x08]);
    data := body + CrcBytes(p);
    CrcBytesBits(p);
    assert data[..7] == body && data[7..11] == CrcBytes(p) && data[1] == body[..3][1] && data[2] == body[..3][2];
    CorrectAcceptedIff(p, data, 1);
    LastByteOdd(p);
    assert data[10..11] == [CrcBytes(p)[3]];
  }

  // Four bytes more give the polynomial as the CRC.
  lemma WithCrc(p: word, start: word, head: seq<byte>) returns (body: seq<byte>)
    ensures |body| == |head| + 4 && body[..|head|] == head && CrcOf(p, start, body) == p
  {
    var s, w: word := CrcOf(p, start, head), Zeros(31) + [true];
    var x := CrcBytes(Xor(s, w));
    body := head + x;
    CrcBytesBits(Xor(s, w));
    CrcOfSplit(p, start, head, x);
    BytesAtOnce(p, s, x);
    XorTwice(s, w);
    LastBitToPolynomial(p, w);
  }

  lemma XorTwice(s: word, w: word)
    ensures Xor(s, Xor(s, w) + Zeros(0)) == w
  {}

  lemma LastByteOdd(p: word)
    requires p[31]
    ensures ByteBits([CrcBytes(p)[3]]) != Zeros(8)
  {
    OneByte(CrcBytes(p)[3]);
    ToBitsVal(p[24..]);
    assert p[24..][7] && !Zeros(8)[7];
  }

  /** What the multiplexer writes passes the demultiplexer's test: a section with its CRC behind it,
      whatever follows in the packet. */
  lemma WrittenCrcIsOkay(section: seq<byte>, rest: seq<byte>)
    requires |section| >= 3 && section[1] >= 0x80 && SectionLength(section) == |section| + 1
    ensures var p, start := ToBits(POLYNOMIAL, 32), ALL_ONES;
            var data := section + CrcBytes(CrcOf(p, start, section)) + rest;
            Correct(p, data) && Covered(data, 1) <= |data| && CrcOkay(p, data, 1)
  {
    var p, start := ToBits(POLYNOMIAL, 32), ALL_ONES;
    PolynomialIsOdd();
    WithOwnCrc(p, start, section, rest);
  }

  lemma WithOwnCrc(p: word, start: word, section: seq<byte>, rest: seq<byte>)
    requires p[31] && start == ALL_ONES
    requires |section| >= 3 && section[1] >= 0x80 && SectionLength(section) == |section| + 1
    ensures var data := section + CrcBytes(CrcOf(p, start, section)) + rest;
            Correct(p, data) && Covered(data, 1) <= |data| && CrcOkay(p, data, 1)
  {
    var crc := CrcBytes(CrcOf(p, start, section));
    var data := section + crc + rest;
    CrcBytesBits(CrcOf(p, start, section));
    assert data[..|section|] == section && data[|section|..|section| + 4] == crc;
    assert data[1] == section[1] && data[2] == section[2];
    PointerZeroIsExact(p, data);
  }
}
