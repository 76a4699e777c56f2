/** Bytes and big-endian bit strings. */
module Bits {

  type byte = x: int | 0 <= x < 256

  function Pow2(n: nat): (p: nat)
    ensures p > 0
  {
    if n == 0 then 1 else 2 * Pow2(n - 1)
  }

  lemma {:induction false} Pow2Add(m: nat, n: nat)
    ensures Pow2(m + n) == Pow2(m) * Pow2(n)
  {
    if m > 0 { Pow2Add(m - 1, n); }
  }

  lemma Pow2Values()
    ensures Pow2(1) == 2 && Pow2(2) == 4 && Pow2(3) == 8 && Pow2(4) == 16 && Pow2(5) == 32
    ensures Pow2(6) == 64 && Pow2(7) == 128 && Pow2(8) == 256 && Pow2(15) == 32768 && Pow2(16) == 65536
    ensures Pow2(32) == 0x1_0000_0000
  {
    assert Pow2(8) == 256 by {
      assert Pow2(2) == 4; assert Pow2(4) == 16; assert Pow2(6) == 64;
    }
    Pow2Add(8, 8);
    assert Pow2(15) * 2 == Pow2(16);
    Pow2Add(16, 16);
  }

  // Pow2 is increasing.
  lemma {:induction false} Pow2Mono(m: nat, n: nat)
    requires m <= n
    ensures Pow2(m) <= Pow2(n)
  {
    if m < n { Pow2Mono(m, n - 1); }
  }

  function Bit(b: bool): nat { if b then 1 else 0 }

  /** The number a bit string denotes, most significant bit first. */
  function Val(bits: seq<bool>): nat {
    if bits == [] then 0 else 2 * Val(bits[..|bits| - 1]) + Bit(bits[|bits| - 1])
  }

  /** The low n bits of v. */
  function ToBits(v: nat, n: nat): (bits: seq<bool>)
    ensures |bits| == n
    decreases v, n
  {
    if n == 0 then [] else ToBits(v / 2, n - 1) + [v % 2 == 1]
  }

  lemma {:induction false} ValConcat(a: seq<bool>, b: seq<bool>)
    ensures Val(a + b) == Val(a) * Pow2(|b|) + Val(b)
  {
    if b == [] {
      assert a + b == a;
    } else {
      var c := b[..|b| - 1];
      assert (a + b)[..|a + b| - 1] == a + c;
      ValConcat(a, c);
      assert Val(a) * Pow2(|b|) == 2 * (Val(a) * Pow2(|c|));
    }
  }

  lemma {:induction false} ValBound(bits: seq<bool>)
    ensures Val(bits) < Pow2(|bits|)
  {
    if bits != [] { ValBound(bits[..|bits| - 1]); }
  }

  lemma {:induction false} ToBitsVal(bits: seq<bool>)
    ensures ToBits(Val(bits), |bits|) == bits
  {
    if bits != [] { ToBitsVal(bits[..|bits| - 1]); }
  }

  lemma {:induction false} ValToBits(v: nat, n: nat)
    ensures Val(ToBits(v, n)) == v % Pow2(n)
    ensures v < Pow2(n) ==> Val(ToBits(v, n)) == v
  {
    if n > 0 {
      ValToBits(v / 2, n - 1);
      var bits := ToBits(v, n);
      assert bits[..n - 1] == ToBits(v / 2, n - 1);
      HalfMod(v, n);
      if v < Pow2(n) { assert v / 2 < Pow2(n - 1); }
    } else {
      assert Pow2(0) == 1;
    }
  }

  // Dividing by 2 commutes with reducing to n bits.
  lemma HalfMod(v: nat, n: nat)
    requires n > 0
    ensures v % Pow2(n) == 2 * ((v / 2) % Pow2(n - 1)) + v % 2
    ensures v / Pow2(n) == (v / 2) / Pow2(n - 1)
  {
    var p := Pow2(n - 1);
    var q, r := (v / 2) / p, (v / 2) % p;
    assert v / 2 == q * p + r;
    assert v == q * (2 * p) + (2 * r + v % 2);
    DivModIs(v, 2 * p, q, 2 * r + v % 2);
  }

  // A quotient and a remainder are determined by the equation they solve.
  lemma DivModIs(v: int, d: int, q: int, r: int)
    requires d > 0 && 0 <= r < d && v == q * d + r
    ensures v / d == q && v % d == r
  {
    var q', r' := v / d, v % d;
    assert v == q' * d + r';
    assert (q - q') * d == r' - r;
    if q > q' {
      MulAtLeast(q - q', d);
    } else if q' > q {
      MulAtLeast(q' - q, d);
    }
  }

  lemma MulAtLeast(k: int, d: int)
    requires k >= 1 && d > 0
    ensures k * d >= d
  {
    assert (k - 1) * d >= 0;
  }

  /** Joining fields: hi in m bits, then lo in n bits. */
  lemma {:induction false} ToBitsJoin(hi: nat, m: nat, lo: nat, n: nat)
    requires lo < Pow2(n)
    ensures ToBits(hi * Pow2(n) + lo, m + n) == ToBits(hi, m) + ToBits(lo, n)
  {
    if n == 0 {
      assert ToBits(hi, m) + [] == ToBits(hi, m);
    } else {
      var v, x, b := hi * Pow2(n) + lo, hi * Pow2(n - 1), [lo % 2 == 1];
      assert v == 2 * x + lo;
      assert v / 2 == x + lo / 2 && v % 2 == lo % 2;
      ToBitsJoin(hi, m, lo / 2, n - 1);
      assert ToBits(v, m + n) == ToBits(v / 2, m + n - 1) + b;
      assert ToBits(lo, n) == ToBits(lo / 2, n - 1) + b;
      assert (ToBits(hi, m) + ToBits(lo / 2, n - 1)) + b == ToBits(hi, m) + (ToBits(lo / 2, n - 1) + b);
    }
  }

  lemma DivMod(v: nat, d: nat)
    requires d > 0
    ensures v / d >= 0 && v == (v / d) * d + v % d
  {}

  /** The bits of a byte string. */
  function ByteBits(bs: seq<byte>): (bits: seq<bool>)
    ensures |bits| == 8 * |bs|
  {
    if bs == [] then [] else ToBits(bs[0], 8) + ByteBits(bs[1..])
  }

  lemma {:induction false} ByteBitsConcat(a: seq<byte>, b: seq<byte>)
    ensures ByteBits(a + b) == ByteBits(a) + ByteBits(b)
  {
    if a == [] {
      assert a + b == b;
    } else {
      assert (a + b)[1..] == a[1..] + b;
      ByteBitsConcat(a[1..], b);
    }
  }

  // Skipping whole bytes skips eight bits each.
  lemma ByteBitsDrop(bs: seq<byte>, k: nat)
    requires k <= |bs|
    ensures ByteBits(bs)[8 * k..] == ByteBits(bs[k..])
    ensures ByteBits(bs)[..8 * k] == ByteBits(bs[..k])
  {
    assert bs == bs[..k] + bs[k..];
    ByteBitsConcat(bs[..k], bs[k..]);
  }

  /** A byte string is determined by its bits. */
  lemma {:induction false} ByteBitsInjective(a: seq<byte>, b: seq<byte>)
    requires ByteBits(a) == ByteBits(b)
    ensures a == b
  {
    assert |a| == |b|;
    if a != [] {
      assert ByteBits(a)[..8] == ToBits(a[0], 8) && ByteBits(b)[..8] == ToBits(b[0], 8);
      Pow2Values();
      ValToBits(a[0], 8);
      ValToBits(b[0], 8);
      assert ByteBits(a)[8..] == ByteBits(a[1..]) && ByteBits(b)[8..] == ByteBits(b[1..]);
      ByteBitsInjective(a[1..], b[1..]);
    }
  }

  /** The low n bytes of v, most significant first. */
  function BigEndian(v: nat, n: nat): (bs: seq<byte>)
    ensures |bs| == n
    decreases v, n
  {
    if n == 0 then [] else BigEndian(v / 256, n - 1) + [v % 256]
  }

  /** The number a byte string denotes, most significant byte first. */
  function Number(bs: seq<byte>): nat {
    if bs == [] then 0 else 256 * Number(bs[..|bs| - 1]) + bs[|bs| - 1]
  }

  function Pow256(n: nat): (p: nat)
    ensures p > 0
  {
    if n == 0 then 1 else 256 * Pow256(n - 1)
  }

  lemma {:induction false} NumberOfBigEndian(v: nat, n: nat)
    requires v < Pow256(n)
    ensures Number(BigEndian(v, n)) == v
  {
    if n > 0 {
      NumberOfBigEndian(v / 256, n - 1);
      assert BigEndian(v, n)[..n - 1] == BigEndian(v / 256, n - 1);
    }
  }

  lemma {:induction false} BigEndianOfNumber(bs: seq<byte>)
    ensures Number(bs) < Pow256(|bs|) && BigEndian(Number(bs), |bs|) == bs
  {
    if bs != [] { BigEndianOfNumber(bs[..|bs| - 1]); }
  }

  // Digits of a number, by division and by remainder.
  lemma Digits(x: nat, a: nat, b: nat)
    requires a > 0 && b > 0
    ensures a * b > 0 && x % (a * b) / a == x / a % b && x % (a * b) % a == x % a
    ensures x / (a * b) == x / a / b
  {
    var k, s, t := x / a / b, x / a % b, x % a;
    DivMod(x, a);
    DivMod(x / a, b);
    assert x == (k * b + s) * a + t;
    Regroup(k, b, s, a, t);
    var r := s * a + t;
    SmallProduct(s, b, a, t);
    DivModIs(x, a * b, k, r);
    DivModIs(r, a, s, t);
  }

  lemma Regroup(k: nat, b: nat, s: nat, a: nat, t: nat)
    ensures (k * b + s) * a + t == k * (a * b) + (s * a + t)
  {}

  lemma SmallProduct(s: nat, b: nat, a: nat, t: nat)
    requires s < b && t < a
    ensures s * a + t < a * b
  {
    MulAtLeast(b - s, a);
    assert (b - s) * a == b * a - s * a;
  }
}
