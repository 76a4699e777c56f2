/** ABitReader (foundation/ABitReader.cpp) and parseUE (libstagefright/avc_utils.cpp). */
module BitReader {
  import opened Bits
  import opened Sequences

  /** A 32-bit word, most significant bit first.  Shifts are slices; the or of words that have no
      one bits in common puts their bits side by side. */
  type word = bits: seq<bool> | |bits| == 32 witness Zeros(32)

  function Zeros(n: nat): seq<bool> { seq(n, _ => false) }

  function Shl(v: word, n: nat): word
    requires n <= 32
  {
    v[n..] + Zeros(n)
  }

  lemma {:induction false} ValOfPadded(n: nat, bits: seq<bool>)
    ensures Val(Zeros(n) + bits) == Val(bits)
  {
    if bits == [] {
      if n > 0 {
        assert (Zeros(n) + [])[..n - 1] == Zeros(n - 1) + [];
        ValOfPadded(n - 1, []);
      }
    } else {
      assert (Zeros(n) + bits)[..n + |bits| - 1] == Zeros(n) + bits[..|bits| - 1];
      ValOfPadded(n, bits[..|bits| - 1]);
    }
  }

  // The output word holds the first k bits of rem.
  ghost predicate ReadSoFar(out: word, rem: seq<bool>, k: nat) {
    k <= 32 && k <= |rem| && out == Zeros(32 - k) + rem[..k]
  }

  lemma NoneRead(rem: seq<bool>)
    ensures rem[0..] == rem && ReadSoFar(Zeros(32), rem, 0)
  {
    assert Zeros(32) == Zeros(32) + rem[..0];
  }

  // One round of GetBits: m more elements of rem move from the stream to the output word.
  lemma MoveToOutput(out: word, rem: seq<bool>, k: nat, m: nat)
    requires k + m <= 32 && k + m <= |rem|
    requires out == Zeros(32 - k) + rem[..k]
    ensures Shl(out, m)[..32 - m] + rem[k..][..m] == Zeros(32 - (k + m)) + rem[..k + m]
    ensures rem[k..][m..] == rem[k + m..]
  {
    assert rem[..k + m] == rem[..k] + rem[k..][..m];
    ShlKeeps(out, m);
    assert out[m..] == Zeros(32 - k - m) + rem[..k];
    Associative(Zeros(32 - k - m), rem[..k], rem[k..][..m]);
  }

  // ------------------------------------------------------------------ reservoirs

  /** The unread bits: the first n of the reservoir, then the bytes from `pos` on. */
  function Unread(bytes: seq<byte>, pos: nat, r: word, n: nat): seq<bool>
    requires pos <= |bytes| && n <= 32
  {
    r[..n] + ByteBits(bytes[pos..])
  }

  /** The last f of the n bits in the reservoir are those just before `pos`. */
  predicate Backed(bytes: seq<byte>, pos: nat, r: word, n: nat, f: nat) {
    && f <= n <= 32 && f <= 8 * pos && pos <= |bytes|
    && r[n - f..n] == ByteBits(bytes)[8 * pos - f..8 * pos]
  }

  const TWO64: int := 0x1_0000_0000_0000_0000

  function Min(a: nat, b: nat): nat { if a <= b then a else b }

  // Shifting m bits out of the reservoir reads them.
  lemma ShiftReads(bytes: seq<byte>, pos: nat, r: word, n: nat, m: nat)
    requires pos <= |bytes| && m <= n <= 32
    ensures r[..m] == Unread(bytes, pos, r, n)[..m]
    ensures Unread(bytes, pos, Shl(r, m), n - m) == Unread(bytes, pos, r, n)[m..]
  {
    SplitHead(r[..n], ByteBits(bytes[pos..]), m);
    assert r[..n][..m] == r[..m];
    ShlKeeps(r, m);
    Subslice(r, m, 32, n - m);
    Subslice(r, 0, n, m);
    assert Shl(r, m)[..n - m] == Shl(r, m)[..32 - m][..n - m];
  }

  lemma ShiftKeepsBacked(bytes: seq<byte>, pos: nat, r: word, n: nat, f: nat, m: nat)
    requires Backed(bytes, pos, r, n, f) && m <= n
    ensures Backed(bytes, pos, Shl(r, m), n - m, Min(f, n - m))
  {
    var k, f' := n - m, Min(f, n - m);
    Subslice(r, n - f, n, f - f');
    Subslice(ByteBits(bytes), 8 * pos - f, 8 * pos, f - f');
    assert Shl(r, m)[k - f'..k] == r[n - f'..n];
  }

  lemma NothingLeft(bytes: seq<byte>, pos: nat, r: word)
    requires pos <= |bytes|
    ensures Unread(bytes, pos, r, 0) == ByteBits(bytes[pos..])
  {
    assert r[..0] == [];
  }

  // A reservoir filled with the k bytes before pos reads on as the source from those bytes on.
  lemma Filled(bytes: seq<byte>, pos: nat, r: word, k: nat)
    requires 8 * k <= 32 && k <= pos <= |bytes| && r[..8 * k] == ByteBits(bytes[pos - k..pos])
    ensures Backed(bytes, pos, r, 8 * k, 8 * k)
    ensures Unread(bytes, pos, r, 8 * k) == ByteBits(bytes[pos - k..])
  {
    assert bytes[pos - k..] == bytes[pos - k..pos] + bytes[pos..];
    ByteBitsConcat(bytes[pos - k..pos], bytes[pos..]);
    BitsOfSlice(bytes, pos - k, pos);
    assert r[0..8 * k] == r[..8 * k];
  }

  // Taking k bytes into an empty reservoir leaves the unread bits as they were.
  lemma Refilled(bytes: seq<byte>, pos0: nat, r0: word, pos: nat, r: word, n: nat)
    requires pos0 < pos <= pos0 + 4 && pos <= |bytes| && n == 8 * (pos - pos0)
    requires FilledFrom(bytes, pos0, pos, r)
    ensures Backed(bytes, pos, Shl(r, 32 - n), n, n)
    ensures Unread(bytes, pos, Shl(r, 32 - n), n) == Unread(bytes, pos0, r0, 0)
  {
    NothingLeft(bytes, pos0, r0);
    ShlKeeps(r, 32 - n);
    Filled(bytes, pos, Shl(r, 32 - n), pos - pos0);
  }

  // A slice of bytes is a slice of the bits.
  lemma BitsOfSlice(bytes: seq<byte>, lo: nat, hi: nat)
    requires lo <= hi <= |bytes|
    ensures ByteBits(bytes)[8 * lo..8 * hi] == ByteBits(bytes[lo..hi])
  {
    ByteBitsDrop(bytes, hi);
    ByteBitsDrop(bytes[..hi], lo);
    assert bytes[..hi][lo..] == bytes[lo..hi];
    assert ByteBits(bytes)[8 * lo..8 * hi] == ByteBits(bytes)[..8 * hi][8 * lo..];
  }

  // A reservoir that is all source bits reads as a suffix of the source.
  lemma AllBacked(bytes: seq<byte>, pos: nat, r: word, n: nat)
    requires Backed(bytes, pos, r, n, n)
    ensures Unread(bytes, pos, r, n) == ByteBits(bytes)[8 * pos - n..]
  {
    ByteBitsDrop(bytes, pos);
    SplitTail(ByteBits(bytes), 8 * pos - n, 8 * pos);
    assert r[0..n] == r[..n];
  }

  // Shifting in one more byte from the right.
  function ShiftIn(r: word, b: byte): word { Shl(r, 8)[..24] + ToBits(b, 8) }

  // The word's last bits are the bytes from lo to hi.
  ghost predicate FilledFrom(bytes: seq<byte>, lo: nat, hi: nat, r: word) {
    lo <= hi <= |bytes| && hi - lo <= 4 && r[32 - 8 * (hi - lo)..] == ByteBits(bytes[lo..hi])
  }

  lemma NothingFilled(bytes: seq<byte>, lo: nat, r: word)
    requires lo <= |bytes|
    ensures FilledFrom(bytes, lo, lo, r)
  {
    assert bytes[lo..lo] == [];
  }

  lemma ShiftInByte(bytes: seq<byte>, lo: nat, hi: nat, r: word)
    requires FilledFrom(bytes, lo, hi, r) && hi < |bytes| && hi - lo < 4
    ensures FilledFrom(bytes, lo, hi + 1, ShiftIn(r, bytes[hi]))
  {
    OneMoreByte(bytes, lo, hi);
    ShiftInTail(r, ToBits(bytes[hi], 8), 8 * (hi - lo), 32 - 8 * (hi + 1 - lo));
  }

  lemma OneMoreByte(bytes: seq<byte>, lo: nat, hi: nat)
    requires lo <= hi < |bytes|
    ensures ByteBits(bytes[lo..hi + 1]) == ByteBits(bytes[lo..hi]) + ToBits(bytes[hi], 8)
  {
    var b := bytes[hi];
    assert bytes[lo..hi + 1] == bytes[lo..hi] + [b];
    ByteBitsConcat(bytes[lo..hi], [b]);
    assert ByteBits([b]) == ToBits(b, 8) + [];
  }

  lemma ShiftInTail(r: word, x: seq<bool>, n: nat, at: nat)
    requires |x| == 8 && n <= 24 && at == 24 - n
    ensures (Shl(r, 8)[..24] + x)[at..] == r[32 - n..] + x
  {
    ShlKeeps(r, 8);
    TailOfAppend(r, 8, x, at);
  }

  lemma TailOfAppend<T>(r: seq<T>, m: nat, x: seq<T>, lo: nat)
    requires m + lo <= |r|
    ensures (r[m..] + x)[lo..] == r[m + lo..] + x
  {}

  // mReservoir = (mReservoir >> n) | (x << (32 - n))
  function PushBits(r: word, x: nat, n: nat): word
    requires n <= 32
  {
    ToBits(x, n) + r[..32 - n]
  }

  // How many bytes the loop of putBits takes back to make room for n bits.
  function BytesBack(numBits: nat, n: nat): nat {
    if numBits + n <= 32 then 0 else (numBits + n - 32 + 7) / 8
  }

  // The bits in the reservoir with n more in front of them.
  function InFront(r: word, numBits: nat, x: nat, n: nat): (bits: seq<bool>)
    requires numBits <= 32
    ensures |bits| == n + numBits
  {
    ToBits(x, n) + r[..numBits]
  }

  // The bits that have to leave the reservoir are those of the bytes that are taken back.
  predicate FitBack(bytes: seq<byte>, pos: nat, r: word, numBits: nat, x: nat, n: nat)
    requires numBits <= 32 && n <= 32 && BytesBack(numBits, n) <= pos <= |bytes|
  {
    var k := BytesBack(numBits, n);
    InFront(r, numBits, x, n)[numBits + n - 8 * k..] == ByteBits(bytes[pos - k..pos])
  }

  // What there is to read once n bits have been pushed in.
  function Pushed(bytes: seq<byte>, pos: nat, r: word, numBits: nat, x: nat, n: nat): seq<bool>
    requires numBits <= 32 && n <= 32 && BytesBack(numBits, n) <= pos <= |bytes|
  {
    var k := BytesBack(numBits, n);
    InFront(r, numBits, x, n)[..numBits + n - 8 * k] + ByteBits(bytes[pos - k..])
  }

  lemma PushedIn(bytes: seq<byte>, pos: nat, r: word, numBits: nat, x: nat, n: nat, k: nat)
    requires numBits <= 32 && n <= 32 && k == BytesBack(numBits, n) && k <= pos <= |bytes|
    ensures var after := Pushed(bytes, pos, r, numBits, x, n);
            && Unread(bytes, pos - k, PushBits(r, x, n), numBits + n - 8 * k) == after
            && (after == ToBits(x, n) + Unread(bytes, pos, r, numBits) <==> FitBack(bytes, pos, r, numBits, x, n))
  {
    var all, keep := InFront(r, numBits, x, n), numBits + n - 8 * k;
    var back, rest := bytes[pos - k..pos], bytes[pos..];
    SameStart(ToBits(x, n), r, 32 - n, numBits, keep);
    assert bytes[pos - k..] == back + rest;
    ByteBitsConcat(back, rest);
    Associative(ToBits(x, n), r[..numBits], ByteBits(rest));
    SameMiddle(all, keep, ByteBits(back), ByteBits(rest));
  }

  lemma SameStart<T>(x: seq<T>, r: seq<T>, a: nat, b: nat, m: nat)
    requires a <= |r| && b <= |r| && m <= |x| + a && m <= |x| + b
    ensures (x + r[..a])[..m] == (x + r[..b])[..m]
  {}

  lemma SameMiddle<T>(all: seq<T>, m: nat, b: seq<T>, rest: seq<T>)
    requires m <= |all| && |b| == |all| - m
    ensures all[..m] + (b + rest) == all + rest <==> all[m..] == b
  {
    Associative(all[..m], b, rest);
    assert all[..m] + all[m..] == all;
    if all[..m] + b + rest == all + rest {
      assert (all[..m] + b + rest)[..|all|] == all[..m] + b;
      assert (all + rest)[..|all|] == all;
      assert (all[..m] + b)[m..] == b;
    }
  }

  // Both parts of the bits that are backed.
  lemma BackedParts(bytes: seq<byte>, pos: nat, r: word, n: nat, f: nat, m: nat)
    requires Backed(bytes, pos, r, n, f) && m <= f
    ensures r[n - f..n - m] == ByteBits(bytes)[8 * pos - f..8 * pos - m]
    ensures r[n - m..n] == ByteBits(bytes)[8 * pos - m..8 * pos]
  {
    Subslice(r, n - f, n, f - m);
    Subslice(ByteBits(bytes), 8 * pos - f, 8 * pos, f - m);
  }

  // Whole bytes come out of the reservoir as they went in.
  lemma PushedOutWhole(bytes: seq<byte>, pos: nat, r: word, numBits: nat, f: nat, x: nat, n: nat, k: nat)
    requires Backed(bytes, pos, r, numBits, f) && n <= 32 && k == BytesBack(numBits, n) && 8 * k <= f
    ensures FitBack(bytes, pos, r, numBits, x, n)
  {
    BackedParts(bytes, pos, r, numBits, f, 8 * k);
    BitsOfSlice(bytes, pos - k, pos);
    LastInFront(ToBits(x, n), r, numBits, 8 * k);
  }

  lemma OthersBacked(bytes: seq<byte>, pos: nat, r: word, numBits: nat, f: nat, x: nat, n: nat, k: nat)
    requires Backed(bytes, pos, r, numBits, f) && n <= 32 && k == BytesBack(numBits, n) && 8 * k <= f
    ensures Backed(bytes, pos - k, PushBits(r, x, n), numBits + n - 8 * k, f - 8 * k)
  {
    BackedParts(bytes, pos, r, numBits, f, 8 * k);
    MiddleInFront(ToBits(x, n), r, numBits, f, 8 * k, 32 - n);
  }

  // What is backed afterwards, and what there is to read.
  lemma PutBack(bytes: seq<byte>, pos: nat, r: word, numBits: nat, f: nat, x: nat, n: nat, k: nat)
      returns (f': nat)
    requires Backed(bytes, pos, r, numBits, f) && n <= 32 && k == BytesBack(numBits, n) <= pos
    ensures Backed(bytes, pos - k, PushBits(r, x, n), numBits + n - 8 * k, f')
    ensures Unread(bytes, pos - k, PushBits(r, x, n), numBits + n - 8 * k) == Pushed(bytes, pos, r, numBits, x, n)
    ensures Pushed(bytes, pos, r, numBits, x, n) == ToBits(x, n) + Unread(bytes, pos, r, numBits) <==>
            FitBack(bytes, pos, r, numBits, x, n)
    ensures 8 * k <= f ==> FitBack(bytes, pos, r, numBits, x, n)
  {
    PushedIn(bytes, pos, r, numBits, x, n, k);
    f' := 0;
    if 8 * k <= f {
      PushedOutWhole(bytes, pos, r, numBits, f, x, n, k);
      OthersBacked(bytes, pos, r, numBits, f, x, n, k);
      f' := f - 8 * k;
    }
  }

  // Slices of r with x put in front of it.
  lemma LastInFront<T>(x: seq<T>, r: seq<T>, numBits: nat, m: nat)
    requires m <= numBits <= |r|
    ensures (x + r[..numBits])[|x| + numBits - m..] == r[numBits - m..numBits]
  {}

  lemma MiddleInFront<T>(x: seq<T>, r: seq<T>, numBits: nat, f: nat, m: nat, cap: nat)
    requires m <= f <= numBits <= |r| && numBits - m <= cap <= |r|
    ensures (x + r[..cap])[|x| + numBits - f..|x| + numBits - m] == r[numBits - f..numBits - m]
  {}

  /** With three bits of the last byte unread, 31 zeros that are pushed back are not read again if that
      byte is all ones: it has to be taken back whole. */
  lemma PutCanFail(r: word)
    ensures var bytes: seq<byte> := [0xff, 0xff, 0xff, 0xff]; BytesBack(3, 31) == 1 && !FitBack(bytes, 4, r, 3, 0, 31)
  {
    var bytes: seq<byte> := [0xff, 0xff, 0xff, 0xff];
    NoOnes(31);
    assert InFront(r, 3, 0, 31)[26..][0] == ToBits(0, 31)[26];
    StartsWithOne();
    assert bytes[3..4] == [0xff];
  }

  lemma NoOnes(n: nat)
    ensures ToBits(0, n) == Zeros(n)
  {
    ValOfPadded(n, []);
    assert Zeros(n) + [] == Zeros(n);
    ToBitsVal(Zeros(n));
  }

  lemma StartsWithOne()
    ensures ByteBits([0xff])[0]
  {
    ToBitsVal(ONES);
    assert ByteBits([0xff]) == ToBits(0xff, 8) + [];
  }

  const ONES: seq<bool> := [true, true, true, true, true, true, true, true]

  // A count that wraps around comes back when bits are added; each round takes eight from it.
  lemma Wrapped(numBits: nat, n: nat, k: nat)
    requires numBits <= 32 && n <= 32 && 8 * k <= numBits + n
    ensures ((numBits - 8 * k) % TWO64 + n) % TWO64 == numBits + n - 8 * k
    ensures k > 0 ==> ((numBits - 8 * (k - 1)) % TWO64 - 8) % TWO64 == (numBits - 8 * k) % TWO64
  {
    WrapOnce(numBits - 8 * k);
    if k > 0 { WrapOnce(numBits - 8 * (k - 1)); }
  }

  lemma WrapOnce(v: int)
    requires -100 <= v <= 100
    ensures v % TWO64 == if v < 0 then v + TWO64 else v
  {}

  // What a left shift keeps.
  lemma ShlKeeps(r: word, m: nat)
    requires m <= 32
    ensures Shl(r, m)[..32 - m] == r[m..]
  {}

  // ------------------------------------------------------------------ the reader

  /** A bit reader over `bytes`.  The reservoir holds up to 32 bits, left aligned; bits after the
      first numBits are leftovers. */
  class ABitReader {
    const bytes: seq<byte>      // what mData was first pointed at
    var pos: nat                // mData, as an offset into bytes
    var size: nat               // mSize
    var reservoir: word         // mReservoir
    var numBits: nat            // mNumBitsLeft
    ghost var fromBytes: nat    // how many of the reservoir's last bits are those just before pos

    ghost predicate Valid()
      reads this
    {
      pos + size == |bytes| && Backed(bytes, pos, reservoir, numBits, fromBytes)
    }

    /** The bits still to be read: those in the reservoir, then the remaining bytes. */
    ghost function Remaining(): seq<bool>
      requires Valid()
      reads this
    {
      Unread(bytes, pos, reservoir, numBits)
    }

    // No bits were pushed back that are still unread.
    ghost predicate Unmixed()
      reads this
    {
      fromBytes == numBits
    }

    constructor (data: seq<byte>)
      ensures Valid() && bytes == data && Unmixed()
      ensures Remaining() == ByteBits(data)
    {
      bytes := data;
      pos, size, reservoir, numBits, fromBytes := 0, |data|, Zeros(32), 0, 0;
      new;
      assert bytes[0..] == bytes;
    }

    method FillReservoir()
      requires Valid() && numBits == 0 && size > 0
      modifies this
      ensures Valid() && Unmixed() && numBits > 0
      ensures Remaining() == old(Remaining())
    {
      var n, r := FillFromRight();
      SetReservoir(Shl(r, 32 - n), n, old(Remaining()));
    }

    method SetReservoir(r: word, n: nat, ghost before: seq<bool>)
      requires pos + size == |bytes| && Backed(bytes, pos, r, n, n) && Unread(bytes, pos, r, n) == before
      modifies `reservoir, `numBits, `fromBytes
      ensures Valid() && Unmixed() && numBits == n && Remaining() == before
    {
      reservoir, numBits, fromBytes := r, n, n;
    }

    // Takes up to four bytes, which are the unread ones when shifted to the left.
    method FillFromRight() returns (n: nat, r: word)
      requires pos + size == |bytes| && size > 0
      modifies `pos, `size
      ensures 0 < n <= 32 && pos + size == |bytes|
      ensures Backed(bytes, pos, Shl(r, 32 - n), n, n)
      ensures Unread(bytes, pos, Shl(r, 32 - n), n) == Unread(bytes, old(pos), reservoir, 0)
    {
      ghost var pos0 := pos;
      n, r := FillLoop();
      Refilled(bytes, pos0, reservoir, pos, r, n);
    }

    // The loop of fillReservoir: bytes go in from the right.
    method FillLoop() returns (n: nat, r: word)
      requires pos + size == |bytes| && size > 0
      modifies `pos, `size
      ensures old(pos) < pos <= old(pos) + 4 && n == 8 * (pos - old(pos)) && pos + size == |bytes|
      ensures FilledFrom(bytes, old(pos), pos, r)
    {
      ghost var start := pos;
      r := Zeros(32);
      var i := 0;
      NothingFilled(bytes, pos, r);
      while size > 0 && i < 4
        invariant pos + size == |bytes| && pos == start + i && i <= 4 && (i == 0 ==> size > 0)
        invariant FilledFrom(bytes, start, pos, r)
      {
        ShiftInByte(bytes, start, pos, r);
        r := ShiftIn(r, bytes[pos]);
        pos, size, i := pos + 1, size - 1, i + 1;
      }
      n := 8 * i;
    }

    /** Reads the next n bits as a big-endian number. */
    method GetBits(n: nat) returns (result: nat)
      requires Valid() && n <= 32 && n <= |Remaining()|
      modifies this
      ensures Valid() && (old(Unmixed()) ==> Unmixed())
      ensures result == Val(old(Remaining())[..n]) < Pow2(n)
      ensures Remaining() == old(Remaining())[n..]
    {
      ghost var taken := Remaining()[..n];
      var out := GetWord(n);
      ValOfPadded(32 - n, taken);
      ValBound(taken);
      result := Val(out);
    }

    // The loop of getBits.
    method GetWord(n: nat) returns (out: word)
      requires Valid() && n <= 32 && n <= |Remaining()|
      modifies this
      ensures Valid() && (old(Unmixed()) ==> Unmixed())
      ensures out == Zeros(32 - n) + old(Remaining())[..n]
      ensures Remaining() == old(Remaining())[n..]
    {
      ghost var rem := Remaining();
      var left: nat := n;
      ghost var k: nat := 0;
      out := Zeros(32);
      NoneRead(rem);
      while left > 0
        invariant Valid() && (old(Unmixed()) ==> Unmixed())
        invariant k + left == n && Remaining() == rem[k..] && ReadSoFar(out, rem, k)
        decreases left
      {
        out, left := GetSome(out, left, rem, k);
        k := n - left;
      }
    }

    // One round of getBits: up to `left` bits, as many as the reservoir has, refilling it if empty.
    // `rem` was remaining at the start, and k of its bits have been read.
    method GetSome(out: word, left: nat, ghost rem: seq<bool>, ghost k: nat) returns (out': word, left': nat)
      requires Valid() && 0 < left && k + left <= 32 && k + left <= |rem|
      requires Remaining() == rem[k..] && ReadSoFar(out, rem, k)
      modifies this
      ensures Valid() && (old(Unmixed()) ==> Unmixed())
      ensures left' < left && Remaining() == rem[k + left - left'..]
      ensures ReadSoFar(out', rem, k + left - left')
    {
      if numBits == 0 {
        FillReservoir();
      }
      var m := if left > numBits then numBits else left;
      var top := Take(m);
      MoveToOutput(out, rem, k, m);
      out', left' := Shl(out, m)[..32 - m] + top, left - m;
    }

    // mReservoir >> (32 - m), mReservoir <<= m, mNumBitsLeft -= m
    method Take(m: nat) returns (top: seq<bool>)
      requires Valid() && 0 < m <= numBits
      modifies this
      ensures Valid() && (old(Unmixed()) ==> Unmixed())
      ensures |top| == m && top == old(Remaining())[..m] && Remaining() == old(Remaining())[m..]
    {
      ShiftReads(bytes, pos, reservoir, numBits, m);
      ShiftKeepsBacked(bytes, pos, reservoir, numBits, fromBytes, m);
      top := reservoir[..m];
      reservoir, numBits, fromBytes := Shl(reservoir, m), numBits - m, Min(fromBytes, numBits - m);
    }

    method SkipBits(n: nat)
      requires Valid() && n <= |Remaining()|
      modifies this
      ensures Valid() && (old(Unmixed()) ==> Unmixed())
      ensures Remaining() == old(Remaining())[n..]
    {
      ghost var rem := Remaining();
      var left: nat := n;
      while left > 32
        invariant Valid() && left <= n && (old(Unmixed()) ==> Unmixed())
        invariant Remaining() == rem[n - left..]
      {
        var _ := GetBits(32);
        left := left - 32;
      }
      if left > 0 {
        var _ := GetBits(left);
      }
    }

    /** Pushes the low n bits of x back, and whole bytes out of the reservoir if they do not fit.  The stream
        is then x and what it was before exactly when the bits pushed out are those of these bytes, which
        they are not if the first has been read in part or bits were pushed back in its place. */
    method PutBits(x: nat, n: nat)
      requires Valid() && n <= 32
      requires BytesBack(numBits, n) <= pos  // no byte before the first is taken back
      modifies this
      ensures Valid()
      ensures Remaining() == Pushed(bytes, old(pos), old(reservoir), old(numBits), x, n)
      ensures Remaining() == ToBits(x, n) + old(Remaining()) <==>
              FitBack(bytes, old(pos), old(reservoir), old(numBits), x, n)
      ensures 8 * BytesBack(old(numBits), n) <= old(fromBytes) ==>
              FitBack(bytes, old(pos), old(reservoir), old(numBits), x, n)
    {
      ghost var k := BytesBack(numBits, n);
      ghost var f := PutBack(bytes, pos, reservoir, numBits, fromBytes, x, n, k);
      MakeRoom(n);
      SetPushed(PushBits(reservoir, x, n), (numBits + n) % TWO64, f);
    }

    method SetPushed(r: word, n: nat, ghost f: nat)
      requires pos + size == |bytes| && Backed(bytes, pos, r, n, f)
      modifies `reservoir, `numBits, `fromBytes
      ensures Valid() && Remaining() == Unread(bytes, pos, r, n)
    {
      reservoir, numBits, fromBytes := r, n, f;
    }

    // The loop of putBits: mNumBitsLeft may wrap around, and comes back when n is added.
    method MakeRoom(n: nat)
      requires numBits <= 32 && n <= 32 && BytesBack(numBits, n) <= pos
      modifies `numBits, `pos, `size
      ensures var k := BytesBack(old(numBits), n);
              && numBits < TWO64 && (numBits + n) % TWO64 == old(numBits) + n - 8 * k
              && pos == old(pos) - k && size == old(size) + k
    {
      ghost var k := 0;
      Wrapped(numBits, n, 0);
      while (numBits + n) % TWO64 > 32
        invariant 0 <= k <= BytesBack(old(numBits), n) && numBits == (old(numBits) - 8 * k) % TWO64
        invariant (numBits + n) % TWO64 == old(numBits) + n - 8 * k
        invariant pos == old(pos) - k && size == old(size) + k
        decreases BytesBack(old(numBits), n) - k
      {
        Wrapped(old(numBits), n, k + 1);
        numBits, pos, size := (numBits - 8) % TWO64, pos - 1, size + 1;
        k := k + 1;
      }
    }

    /** Tracks the position: how many bits are still to be read. */
    method NumBitsLeft() returns (n: nat)
      requires Valid()
      ensures n == |Remaining()|
    {
      n := size * 8 + numBits;
    }

    /** The byte the next unread bit is in: the unread bits are the bytes from there on, less the
        fewer than eight bits already read. */
    method Data() returns (offset: nat)
      requires Valid() && Unmixed()
      ensures offset <= |bytes| && 0 <= 8 * (|bytes| - offset) - |Remaining()| < 8
      ensures Remaining() == ByteBits(bytes[offset..])[8 * (|bytes| - offset) - |Remaining()|..]
    {
      offset := pos - (numBits + 7) / 8;
      AllBacked(bytes, pos, reservoir, numBits);
      ByteBitsDrop(bytes, offset);
    }
  }

  // ------------------------------------------------------------------ Exp-Golomb

  function LeadingZeros(bits: seq<bool>): nat {
    if bits == [] || bits[0] then 0 else 1 + LeadingZeros(bits[1..])
  }

  /** parseUE can run on these bits: a one bit comes after at most 31 zeros, and as many bits follow. */
  predicate HasUE(bits: seq<bool>) {
    LeadingZeros(bits) <= 31 && 2 * LeadingZeros(bits) < |bits|
  }

  function UELength(bits: seq<bool>): nat { 2 * LeadingZeros(bits) + 1 }

  // The value parseUE reads off: the digits after the first one bit, plus 2^zeros - 1.
  function UEValue(bits: seq<bool>): int
    requires HasUE(bits)
  {
    var k := LeadingZeros(bits);
    Val(bits[k + 1..2 * k + 1]) + Pow2(k) - 1
  }

  method ParseUE(br: ABitReader) returns (value: int)
    requires br.Valid() && HasUE(br.Remaining())
    modifies br
    ensures br.Valid() && (old(br.Unmixed()) ==> br.Unmixed())
    ensures value == UEValue(old(br.Remaining()))
    ensures br.Remaining() == old(br.Remaining())[UELength(old(br.Remaining()))..]
  {
    ghost var rem := br.Remaining();
    var k := CountZeros(br);
    var x := br.GetBits(k);
    SliceOfTail(rem, k + 1, k);
    value := x + Pow2(k) - 1;
  }

  // The loop of parseUE.
  method CountZeros(br: ABitReader) returns (numZeroes: nat)
    requires br.Valid() && HasUE(br.Remaining())
    modifies br
    ensures br.Valid() && (old(br.Unmixed()) ==> br.Unmixed())
    ensures numZeroes == LeadingZeros(old(br.Remaining()))
    ensures br.Remaining() == old(br.Remaining())[numZeroes + 1..]
  {
    ghost var rem := br.Remaining();
    ghost var k := LeadingZeros(rem);
    LeadingZerosAt(rem);
    numZeroes := 0;
    var bit := GetOneBit(br);
    while bit == 0
      invariant br.Valid() && (old(br.Unmixed()) ==> br.Unmixed())
      invariant numZeroes <= k && br.Remaining() == rem[numZeroes + 1..]
      invariant bit == Bit(rem[numZeroes])
      decreases k - numZeroes
    {
      bit := GetOneBit(br);
      numZeroes := numZeroes + 1;
    }
  }

  method GetOneBit(br: ABitReader) returns (bit: nat)
    requires br.Valid() && |br.Remaining()| > 0
    modifies br
    ensures br.Valid() && (old(br.Unmixed()) ==> br.Unmixed())
    ensures bit == Bit(old(br.Remaining())[0]) && br.Remaining() == old(br.Remaining())[1..]
  {
    ghost var rem := br.Remaining();
    bit := br.GetBits(1);
    assert rem[..1] == [rem[0]] && [rem[0]][..0] == [];
  }

  lemma {:induction false} LeadingZerosAt(bits: seq<bool>)
    ensures LeadingZeros(bits) <= |bits|
    ensures forall i :: 0 <= i < LeadingZeros(bits) ==> !bits[i]
    ensures LeadingZeros(bits) < |bits| ==> bits[LeadingZeros(bits)]
  {
    if bits != [] && !bits[0] {
      LeadingZerosAt(bits[1..]);
      assert forall i :: 0 < i <= LeadingZeros(bits) && i < |bits| ==> bits[i] == bits[1..][i - 1];
    }
  }

  lemma {:induction false} LeadingZerosOf(k: nat, rest: seq<bool>)
    ensures LeadingZeros(Zeros(k) + [true] + rest) == k
  {
    if k > 0 {
      assert (Zeros(k) + [true] + rest)[1..] == Zeros(k - 1) + [true] + rest;
      LeadingZerosOf(k - 1, rest);
    }
  }

  // The number of binary digits of n after the first.
  function Log2(n: nat): (k: nat)
    requires n > 0
    ensures Pow2(k) <= n < Pow2(k + 1)
  {
    if n == 1 then 0 else Log2(n / 2) + 1
  }

  /** The ue(v) code of section 9.1 of ITU-T H.264: v + 1 in binary, after as many zeros as it has
      digits following the first. */
  function UECode(v: nat): seq<bool> {
    Zeros(Log2(v + 1)) + ToBits(v + 1, Log2(v + 1) + 1)
  }

  // A number with k + 1 binary digits is a one bit and the rest.
  lemma LeadingOne(n: nat, k: nat)
    requires Pow2(k) <= n < Pow2(k + 1)
    ensures ToBits(n, k + 1) == [true] + ToBits(n - Pow2(k), k)
  {
    ToBitsJoin(1, 1, n - Pow2(k), k);
    assert ToBits(1, 1) == [true];
    assert 1 * Pow2(k) + (n - Pow2(k)) == n;
  }

  lemma MiddleAndEnd<T>(front: seq<T>, middle: seq<T>, end: seq<T>, lo: nat, hi: nat)
    requires lo == |front| && hi == lo + |middle|
    ensures (front + (middle + end))[lo..hi] == middle && (front + (middle + end))[hi..] == end
  {}

  lemma UEOfParts(bits: seq<bool>, k: nat, n: nat, rest: seq<bool>)
    requires k < 32 && LeadingZeros(bits) == k && |bits| > 2 * k && Pow2(k) <= n < Pow2(k + 1)
    requires bits[k + 1..2 * k + 1] == ToBits(n - Pow2(k), k) && bits[2 * k + 1..] == rest
    ensures HasUE(bits) && UEValue(bits) == n - 1 && bits[UELength(bits)..] == rest
  {
    ValToBits(n - Pow2(k), k);
  }

  // k zeros, a one and k more bits are parsed.
  lemma ParseParts(n: nat, k: nat, rest: seq<bool>)
    requires k < 32 && Pow2(k) <= n < Pow2(k + 1)
    ensures var bits := Zeros(k) + ToBits(n, k + 1) + rest;
            HasUE(bits) && UEValue(bits) == n - 1 && bits[UELength(bits)..] == rest
  {
    var low := ToBits(n - Pow2(k), k);
    LeadingOne(n, k);
    LeadingZerosOf(k, low + rest);
    MiddleAndEnd(Zeros(k) + [true], low, rest, k + 1, 2 * k + 1);
    var bits := Zeros(k) + [true] + (low + rest);
    assert Zeros(k) + ([true] + low) + rest == bits;
    UEOfParts(bits, k, n, rest);
  }

  /** parseUE inverts the code, whatever follows it. */
  lemma UEDecodesItsCode(v: nat, rest: seq<bool>)
    requires v + 1 < Pow2(32)
    ensures HasUE(UECode(v) + rest)
    ensures UEValue(UECode(v) + rest) == v
    ensures (UECode(v) + rest)[UELength(UECode(v) + rest)..] == rest
  {
    var k := Log2(v + 1);
    if k >= 32 { Pow2Mono(32, k); }
    ParseParts(v + 1, k, rest);
  }

  /** Conversely, whatever parseUE accepts begins with the code of the value it returns. */
  lemma UEAcceptsOnlyCodes(bits: seq<bool>)
    requires HasUE(bits)
    ensures 0 <= UEValue(bits) && bits[..UELength(bits)] == UECode(UEValue(bits))
  {
    var k := LeadingZeros(bits);
    var low := bits[k + 1..2 * k + 1];
    LeadingZerosAt(bits);
    ValBound(low);
    var n := Val(low) + Pow2(k);
    Log2Unique(n, k);
    LeadingOne(n, k);
    ToBitsVal(low);
    assert bits[..k] == Zeros(k);
    ThreeParts(bits, k, 2 * k + 1);
  }

  lemma ThreeParts<T>(s: seq<T>, k: nat, hi: nat)
    requires k < hi <= |s|
    ensures s[..hi] == s[..k] + ([s[k]] + s[k + 1..hi])
  {}

  lemma Log2Unique(n: nat, k: nat)
    requires Pow2(k) <= n < Pow2(k + 1)
    ensures n > 0 && Log2(n) == k
  {
    if Log2(n) < k { Pow2Mono(Log2(n) + 1, k); }
    if Log2(n) > k { Pow2Mono(k + 1, Log2(n)); }
  }

  // Bits that read as x and then the rest are x and the rest.
  lemma ReadsAs(bits: seq<bool>, x: nat, n: nat, rest: seq<bool>)
    requires n <= |bits| && x < Pow2(n)
    ensures bits == ToBits(x, n) + rest <==> Val(bits[..n]) == x && bits[n..] == rest
  {
    ValToBits(x, n);
    ToBitsVal(bits[..n]);
    assert bits == bits[..n] + bits[n..];
    assert (ToBits(x, n) + rest)[..n] == ToBits(x, n) && (ToBits(x, n) + rest)[n..] == rest;
  }

  /** Pushing bits back and reading them again restores both the value and the stream if and only if the
      bits that had to make room are those of the bytes taken back. */
  method PutThenGet(br: ABitReader, x: nat, n: nat) returns (y: nat)
    requires br.Valid() && n <= 32 && x < Pow2(n)
    requires BytesBack(br.numBits, n) <= br.pos
    modifies br
    ensures br.Valid()
    ensures y == x && br.Remaining() == old(br.Remaining()) <==>
            FitBack(br.bytes, old(br.pos), old(br.reservoir), old(br.numBits), x, n)
  {
    ghost var rem := br.Remaining();
    br.PutBits(x, n);
    ReadsAs(br.Remaining(), x, n, rem);
    y := br.GetBits(n);
  }
}
