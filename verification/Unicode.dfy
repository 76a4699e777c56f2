/** UTF-16 to UTF-8 and back (libutils/Unicode.cpp): RFC 3629 section 3, RFC 2781 section 2. */
module Unicode {
  import opened Bits
  import opened Sequences

  type unit = x: int | 0 <= x < 0x1_0000

  predicate IsHigh(u: unit) { 0xD800 <= u <= 0xDBFF }
  predicate IsLow(u: unit) { 0xDC00 <= u <= 0xDFFF }

  // ------------------------------------------------------------------ code points in UTF-8

  /** utf32_codepoint_utf8_length. */
  function Utf8Length(c: nat): (n: nat)
    ensures n <= 4
  {
    if c < 0x80 then 1
    else if c < 0x800 then 2
    else if c < 0x1_0000 then if c < 0xD800 || c > 0xDFFF then 3 else 0
    else if c <= 0x10_FFFF then 4
    else 0
  }

  /** utf32_codepoint_to_utf8, for as many bytes as the code point needs. */
  function Encoded(c: nat): (bs: seq<byte>)
    ensures |bs| == Utf8Length(c)
  {
    var n := Utf8Length(c);
    if n == 0 then []
    else if n == 1 then [c]
    else if n == 2 then [0xC0 + c / 64, 0x80 + c % 64]
    else if n == 3 then [0xE0 + c / 64 / 64, 0x80 + c / 64 % 64, 0x80 + c % 64]
    else [0xF0 + c / 64 / 64 / 64, 0x80 + c / 64 / 64 % 64, 0x80 + c / 64 % 64, 0x80 + c % 64]
  }

  /** utf8_codepoint_len: by the leading bits. */
  function CodePointLength(b: byte): (n: nat)
    ensures 1 <= n <= 4
  {
    if b < 0xC0 then 1 else if b < 0xE0 then 2 else if b < 0xF0 then 3 else 4
  }

  /** utf8_to_utf32_codepoint. */
  function CodePoint(bs: seq<byte>): nat
    requires 1 <= |bs| <= 4
  {
    if |bs| == 1 then bs[0]
    else if |bs| == 2 then (bs[0] as int) % 32 * 64 + bs[1] % 64
    else if |bs| == 3 then ((bs[0] as int) % 16 * 64 + bs[1] % 64) * 64 + bs[2] % 64
    else (((bs[0] as int) % 8 * 64 + bs[1] % 64) * 64 + bs[2] % 64) * 64 + bs[3] % 64
  }

  /** A code point is read back from its bytes, and the first byte tells how many they are. */
  lemma EncodedReads(c: nat)
    requires Utf8Length(c) > 0
    ensures CodePointLength(Encoded(c)[0]) == |Encoded(c)| && CodePoint(Encoded(c)) == c
  {
    if c < 0x80 {
    } else if c < 0x800 {
      Reads2(c);
    } else if c < 0x1_0000 {
      Reads3(c);
    } else {
      Reads4(c);
    }
  }

  // The payload bits of lead and trail bytes.
  lemma Payload(x: nat)
    ensures x < 64 ==> (0x80 + x) % 64 == x
    ensures x < 32 ==> (0xC0 + x) % 32 == x
    ensures x < 16 ==> (0xE0 + x) % 16 == x
    ensures x < 8 ==> (0xF0 + x) % 8 == x
  {}

  lemma Reads2(c: nat)
    requires c < 0x800
    ensures c / 64 < 32 && (0xC0 + c / 64) % 32 * 64 + (0x80 + c % 64) % 64 == c
  {
    Payload(c / 64);
    Payload(c % 64);
  }

  lemma Reads3(c: nat)
    requires c < 0x1_0000
    ensures c / 64 / 64 < 16
            && ((0xE0 + c / 64 / 64) % 16 * 64 + (0x80 + c / 64 % 64) % 64) * 64 + (0x80 + c % 64) % 64 == c
  {
    Payload(c / 64 / 64);
    Payload(c / 64 % 64);
    Payload(c % 64);
  }

  lemma Reads4(c: nat)
    requires c < 0x20_0000
    ensures c / 64 / 64 / 64 < 8
    ensures (((0xF0 + c / 64 / 64 / 64) % 8 * 64 + (0x80 + c / 64 / 64 % 64) % 64) * 64 +
            (0x80 + c / 64 % 64) % 64) * 64
            + (0x80 + c % 64) % 64 == c
  {
    Payload(c / 64 / 64 / 64);
    Payload(c / 64 / 64 % 64);
    Payload(c / 64 % 64);
    Payload(c % 64);
  }

  // ------------------------------------------------------------------ surrogates

  // Bitwise or.
  function Or(x: nat, y: nat): (r: nat)
    ensures r >= y
  {
    if x == 0 then y else Or(x / 2, y / 2) * 2 + if x % 2 == 1 || y % 2 == 1 then 1 else 0
  }

  lemma {:induction false} OrBelow(x: nat, y: nat, n: nat)
    requires x < Pow2(n) && y < Pow2(n)
    ensures Or(x, y) < Pow2(n)
  {
    if x > 0 { OrBelow(x / 2, y / 2, n - 1); }
  }

  lemma OrTwice(x: nat, y: nat)
    ensures Or(2 * x, y) == 2 * Or(x, y / 2) + y % 2
  {}

  // Bits that are not in each other's way add up.
  lemma {:induction false} OrAdds(x: nat, y: nat, n: nat)
    requires y < Pow2(n)
    ensures Or(x * Pow2(n), y) == x * Pow2(n) + y
  {
    if n == 0 {
      OrNothing(x);
    } else {
      var z := x * Pow2(n - 1);
      assert x * Pow2(n) == 2 * z;
      OrAdds(x, y / 2, n - 1);
      OrTwice(z, y);
    }
  }

  lemma {:induction false} OrNothing(x: nat)
    ensures Or(x, 0) == x
  {
    if x > 0 { OrNothing(x / 2); }
  }

  const WORD: int := 0x1_0000_0000

  // A sum of 32 bits.
  function Plus(a: nat, b: nat): nat { (a + b) % WORD }

  lemma PlusSmall(a: nat, b: nat)
    ensures a + b < WORD ==> Plus(a, b) == a + b
    ensures WORD <= a + b < 2 * WORD ==> Plus(a, b) == a + b - WORD
  {}

  // A difference of two units as a word.
  function Minus(a: unit, b: unit): (d: nat)
    ensures d == if a < b then a as int - b + WORD else a as int - b
  {
    (a as int - b) % WORD
  }

  /** What utf16_to_utf8 makes of a high surrogate and the unit behind it. */
  function PairValue(high: unit, next: unit): nat
    requires IsHigh(high)
  {
    Plus(Or((high - 0xD800) * 1024, Minus(next, 0xDC00)), 0x1_0000)
  }

  /** With a low surrogate behind it that is the code point of the pair; with a unit above those it is
      another code point for two units; with one below them it is a value that fits one unit. */
  lemma PairValues(high: unit, next: unit)
    requires IsHigh(high)
    ensures IsLow(next) ==> PairValue(high, next) == (high - 0xD800) * 1024 + (next - 0xDC00) + 0x1_0000
    ensures next > 0xDFFF ==> 0x1_0000 <= PairValue(high, next) <= 0x10_FFFF
    ensures next < 0xDC00 ==> PairValue(high, next) < 0x1_0000
  {
    OrBits(high - 0xD800, Minus(next, 0xDC00));
    PlusSmall(Or((high - 0xD800) * 1024, Minus(next, 0xDC00)), 0x1_0000);
  }

  lemma OrBits(a: nat, d: nat)
    requires a < 1024 && d < WORD
    ensures Or(a * 1024, d) < WORD
    ensures d < 0x10_0000 ==> Or(a * 1024, d) < 0x10_0000
    ensures d < 1024 ==> Or(a * 1024, d) == a * 1024 + d
  {
    TenAndTwenty();
    OrBelow(a * 1024, d, 32);
    if d < 0x10_0000 { OrBelow(a * 1024, d, 20); }
    if d < 1024 { OrAdds(a, d, 10); }
  }

  lemma TenAndTwenty()
    ensures Pow2(10) == 1024 && Pow2(20) == 0x10_0000 && Pow2(32) == WORD
  {
    Pow2Values();
    Pow2Add(8, 2);
    Pow2Add(16, 4);
  }

  /** The units of a code point. */
  function Units(c: nat): (us: seq<unit>)
    requires c <= 0x1F_FFFF
    ensures |us| == if c > 0xFFFF then 2 else 1
  {
    if c <= 0xFFFF then [c]
    else [((c - 0x1_0000) / 1024 + 0xD800) % 0x1_0000, (c - 0x1_0000) % 1024 + 0xDC00]
  }

  lemma PairReads(high: unit, low: unit)
    requires IsHigh(high) && IsLow(low)
    ensures 0x1_0000 <= PairValue(high, low) <= 0x10_FFFF && Units(PairValue(high, low)) == [high, low]
  {
    PairValues(high, low);
    UnitsOfPair(high - 0xD800, low - 0xDC00);
  }

  lemma UnitsOfPair(a: nat, b: nat)
    requires a < 1024 && b < 1024
    ensures Units(a * 1024 + b + 0x1_0000) == [a + 0xD800, b + 0xDC00]
  {
    TenBits(a, b);
  }

  lemma TenBits(a: nat, b: nat)
    requires b < 1024
    ensures (a * 1024 + b) / 1024 == a && (a * 1024 + b) % 1024 == b
  {}

  // ------------------------------------------------------------------ UTF-16 to UTF-8

  /** The last unit is not taken for the first of a pair, so nothing behind the end is read. */
  predicate Readable(s: seq<unit>) {
    s == [] || if IsHigh(s[0]) then |s| >= 2 && Readable(s[2..]) else Readable(s[1..])
  }

  /** Every high surrogate is followed by a low one. */
  predicate PairsOk(s: seq<unit>) {
    s == [] || if IsHigh(s[0]) then |s| >= 2 && IsLow(s[1]) && PairsOk(s[2..]) else PairsOk(s[1..])
  }

  /** And every low one follows a high one. */
  predicate WellFormed(s: seq<unit>) {
    s == [] ||
    if IsHigh(s[0]) then |s| >= 2 && IsLow(s[1]) && WellFormed(s[2..])
    else !IsLow(s[0]) && WellFormed(s[1..])
  }

  function ToUtf8(s: seq<unit>): seq<byte>
    requires Readable(s)
  {
    if s == [] then []
    else if IsHigh(s[0]) then Encoded(PairValue(s[0], s[1])) + ToUtf8(s[2..])
    else Encoded(s[0]) + ToUtf8(s[1..])
  }

  /** utf16_to_utf8, without the terminator it adds. */
  method Utf16ToUtf8(src: seq<unit>) returns (dst: seq<byte>)
    requires Readable(src)
    ensures dst == ToUtf8(src)
  {
    dst := [];
    var cur := 0;
    assert src[0..] == src;
    while cur < |src|
      invariant 0 <= cur <= |src| && Readable(src[cur..])
      invariant dst + ToUtf8(src[cur..]) == ToUtf8(src)
    {
      var utf32, next := NextCodePoint(src, cur);
      Associative(dst, Encoded(utf32), ToUtf8(src[next..]));
      dst, cur := dst + Encoded(utf32), next;
    }
    assert dst + [] == dst;
  }

  // The code point at a unit, and where the next one is.
  method NextCodePoint(src: seq<unit>, cur: nat) returns (utf32: nat, next: nat)
    requires cur < |src| && Readable(src[cur..])
    ensures cur < next <= |src| && Readable(src[next..])
    ensures ToUtf8(src[cur..]) == Encoded(utf32) + ToUtf8(src[next..])
  {
    ghost var rest := src[cur..];
    if IsHigh(src[cur]) {
      SliceOfTail(src, cur, 2);
      utf32 := (src[cur] as int - 0xD800) * 1024;
      utf32 := Or(utf32, Minus(src[cur + 1], 0xDC00));
      utf32 := Plus(utf32, 0x1_0000);
      next := cur + 2;
    } else {
      SliceOfTail(src, cur, 1);
      utf32 := src[cur];
      next := cur + 1;
    }
  }

  /** What utf16_to_utf8_length adds up.  Lone surrogates count for nothing; the unit after a high one is
      never taken for the first of a pair. */
  function LengthInUtf8(s: seq<unit>): nat {
    if s == [] then 0
    else if IsHigh(s[0]) && |s| >= 2 then (if IsLow(s[1]) then 4 else Utf8Length(s[1])) + LengthInUtf8(s[2..])
    else Utf8Length(s[0]) + LengthInUtf8(s[1..])
  }

  /** utf16_to_utf8_length: -1 for the empty string. */
  method Utf16ToUtf8Length(src: seq<unit>) returns (n: int)
    ensures n == if src == [] then -1 else LengthInUtf8(src)
  {
    if |src| == 0 {
      return -1;
    }
    n := 0;
    var cur := 0;
    assert src[0..] == src;
    while cur < |src|
      invariant 0 <= cur <= |src| && n >= 0 && n + LengthInUtf8(src[cur..]) == LengthInUtf8(src)
    {
      ghost var rest := src[cur..];
      SliceOfTail(src, cur, 1);
      if IsHigh(src[cur]) && cur + 1 < |src| {
        SliceOfTail(src, cur, 2);
        cur := cur + 1;  // the second unit is looked at in any case
        if IsLow(src[cur]) {
          n, cur := n + 4, cur + 1;
        } else {
          n, cur := n + Utf8Length(src[cur]), cur + 1;
        }
      } else {
        n, cur := n + Utf8Length(src[cur]), cur + 1;
      }
    }
  }

  // ------------------------------------------------------------------ UTF-8 to UTF-16

  /** The lengths that the leading bytes tell lead exactly to the end. */
  predicate Whole(bs: seq<byte>) {
    bs == [] || (CodePointLength(bs[0]) <= |bs| && Whole(bs[CodePointLength(bs[0])..]))
  }

  lemma CodePointBound(bs: seq<byte>)
    requires 1 <= |bs| <= 4
    ensures CodePoint(bs) <= 0x1F_FFFF
  {}

  function ToUtf16(bs: seq<byte>): seq<unit>
    requires Whole(bs)
  {
    if bs == [] then [] else
      var n := CodePointLength(bs[0]);
      CodePointBound(bs[..n]);
      Units(CodePoint(bs[..n])) + ToUtf16(bs[n..])
  }

  /** utf8_to_utf16_no_null_terminator. */
  method Utf8ToUtf16(src: seq<byte>) returns (dst: seq<unit>)
    requires Whole(src)
    ensures dst == ToUtf16(src)
  {
    dst := [];
    var cur := 0;
    assert src[0..] == src;
    while cur < |src|
      invariant 0 <= cur <= |src| && Whole(src[cur..])
      invariant dst + ToUtf16(src[cur..]) == ToUtf16(src)
    {
      var n := CodePointLength(src[cur]);
      ghost var rest := src[cur..];
      SliceOfTail(src, cur, n);
      var codepoint := CodePoint(src[cur..cur + n]);
      CodePointBound(src[cur..cur + n]);
      Associative(dst, Units(codepoint), ToUtf16(src[cur + n..]));
      dst := dst + Units(codepoint);
      cur := cur + n;
    }
    assert dst + [] == dst;
  }

  /** utf8_to_utf16_length: -1 exactly when the last code point is cut short. */
  method Utf8ToUtf16Length(src: seq<byte>) returns (n: int)
    ensures n == if Whole(src) then |ToUtf16(src)| else -1
  {
    n := 0;
    var cur := 0;
    assert src[0..] == src;
    while cur < |src|
      invariant 0 <= cur && n >= 0
      invariant Whole(src) <==> cur <= |src| && Whole(src[cur..])
      invariant Whole(src) ==> n + |ToUtf16(src[cur..])| == |ToUtf16(src)|
      decreases |src| - cur
    {
      var k := CodePointLength(src[cur]);
      n := n + 1;
      if cur + k <= |src| {  // past the end the code point is anything, and -1 is returned
        ghost var rest := src[cur..];
        SliceOfTail(src, cur, k);
        CodePointBound(src[cur..cur + k]);
        if CodePoint(src[cur..cur + k]) > 0xFFFF {
          n := n + 1;
        }
      }
      cur := cur + k;
    }
    if cur != |src| {
      return -1;
    }
  }

  // ------------------------------------------------------------------ round trip

  // The first code point of what was encoded.
  lemma FirstCodePoint(c: nat, rest: seq<byte>)
    requires Utf8Length(c) > 0
    ensures var bs, n := Encoded(c) + rest, CodePointLength((Encoded(c) + rest)[0]);
            n == |Encoded(c)| && CodePoint(bs[..n]) == c && bs[n..] == rest
  {
    EncodedReads(c);
    assert (Encoded(c) + rest)[..|Encoded(c)|] == Encoded(c);
  }

  // Decoding what was encoded.
  lemma Decodes(c: nat, rest: seq<byte>)
    requires Utf8Length(c) > 0 && Whole(rest)
    ensures Whole(Encoded(c) + rest) && ToUtf16(Encoded(c) + rest) == Units(c) + ToUtf16(rest)
  {
    FirstCodePoint(c, rest);
  }

  /** What the two functions differ by: a high surrogate without a low one is encoded together with the
      unit behind it, but of the two only that unit is counted. */
  function StraySurplus(s: seq<unit>): int
    requires Readable(s)
  {
    if s == [] then 0
    else if IsHigh(s[0]) then
      (if IsLow(s[1]) then 0 else Utf8Length(PairValue(s[0], s[1])) - Utf8Length(s[1])) + StraySurplus(s[2..])
    else StraySurplus(s[1..])
  }

  /** The length of the encoding is foretold if and only if stray high surrogates add as many bytes as they
      take away; that is so when there are none. */
  lemma {:induction false} LengthForetold(s: seq<unit>)
    requires Readable(s)
    ensures |ToUtf8(s)| - LengthInUtf8(s) == StraySurplus(s)
    ensures PairsOk(s) ==> StraySurplus(s) == 0
    ensures WellFormed(s) ==> PairsOk(s)
  {
    if s != [] {
      if IsHigh(s[0]) && IsLow(s[1]) { PairReads(s[0], s[1]); }
      LengthForetold(if IsHigh(s[0]) then s[2..] else s[1..]);
    }
  }

  /** A string whose encoding has a byte more than foretold. */
  lemma LengthMissed()
    ensures var s: seq<unit> := [0xD800, 0xE000]; Readable(s) && |ToUtf8(s)| == LengthInUtf8(s) + 1
  {
    var s: seq<unit> := [0xD800, 0xE000];
    assert s[2..] == [];
    PairValues(s[0], s[1]);
  }

  // What comes back of the first code point and of the rest.
  lemma ComesBack(c: nat, rest: seq<unit>)
    requires Readable(rest) && Whole(ToUtf8(rest)) && c <= 0x10_FFFF
    ensures var bs := Encoded(c) + ToUtf8(rest);
            Whole(bs) && ToUtf16(bs) == (if Utf8Length(c) > 0 then Units(c) else []) + ToUtf16(ToUtf8(rest))
  {
    if Utf8Length(c) > 0 {
      Decodes(c, ToUtf8(rest));
    } else {
      assert Encoded(c) + ToUtf8(rest) == ToUtf8(rest);
    }
  }

  /** A string comes back from UTF-8 as it was if and only if it is well formed. */
  lemma {:induction false} RoundTrip(s: seq<unit>)
    requires Readable(s)
    ensures Whole(ToUtf8(s)) && |ToUtf16(ToUtf8(s))| <= |s|
    ensures ToUtf16(ToUtf8(s)) == s <==> WellFormed(s)
  {
    if s != [] {
      var n := if IsHigh(s[0]) then 2 else 1;
      var c, rest := if IsHigh(s[0]) then PairValue(s[0], s[1]) else s[0], s[n..];
      RoundTrip(rest);
      if n == 2 { PairValues(s[0], s[1]); }
      ComesBack(c, rest);
      FirstUnits(s, n, c, if Utf8Length(c) > 0 then Units(c) else []);
      Together(s[..n], rest, if Utf8Length(c) > 0 then Units(c) else [], ToUtf16(ToUtf8(rest)));
      assert s == s[..n] + rest;
    }
  }

  // The first unit or two come back unless they are stray surrogates.
  lemma FirstUnits(s: seq<unit>, n: nat, c: nat, us: seq<unit>)
    requires s != [] && n == (if IsHigh(s[0]) then 2 else 1) <= |s|
    requires c == if IsHigh(s[0]) then PairValue(s[0], s[1]) else s[0]
    requires c <= 0x10_FFFF && us == if Utf8Length(c) > 0 then Units(c) else []
    ensures |us| <= n
    ensures us == s[..n] <==> if IsHigh(s[0]) then IsLow(s[1]) else !IsLow(s[0])
  {
    if IsHigh(s[0]) {
      PairValues(s[0], s[1]);
      if IsLow(s[1]) { PairReads(s[0], s[1]); }
    }
  }

  // Two parts are equal to two others if each is, as none is longer.
  lemma Together(a: seq<unit>, b: seq<unit>, c: seq<unit>, d: seq<unit>)
    requires |c| <= |a| && |d| <= |b|
    ensures a + b == c + d <==> a == c && b == d
  {
    if a + b == c + d {
      assert |a| == |c|;
      assert (a + b)[..|a|] == a && (c + d)[..|a|] == c && (a + b)[|a|..] == b && (c + d)[|a|..] == d;
    }
  }
}
