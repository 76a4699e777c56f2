/** The bits of transport stream packets and PES headers: ISO/IEC 13818-1 sections 2.4.3.2 to 2.4.3.7, as far
    as libstagefright/MPEG2TSWriter.cpp writes them. */
module TsFormat {
  import opened Bits
  import opened Sequences

  type Data = seq<byte>

  // ------------------------------------------------------------------ fields

  /** An n-bit field and what follows it. */
  function Field(v: nat, n: nat, rest: seq<bool>): (bits: seq<bool>)
    ensures |bits| == n + |rest|
  {
    ToBits(v, n) + rest
  }

  lemma ReadField(v: nat, n: nat, rest: seq<bool>)
    requires v < Pow2(n)
    ensures Val(Field(v, n, rest)[..n]) == v && Field(v, n, rest)[n..] == rest
  {
    ValToBits(v, n);
    assert Field(v, n, rest)[..n] == ToBits(v, n);
  }

  // Two fields side by side are one.
  lemma JoinFields(hi: nat, m: nat, lo: nat, n: nat, p: nat, rest: seq<bool>)
    requires p == Pow2(n) && lo < p
    ensures Field(hi * p + lo, m + n, rest) == Field(hi, m, Field(lo, n, rest))
  {
    ToBitsJoin(hi, m, lo, n);
    Associative(ToBits(hi, m), ToBits(lo, n), rest);
  }

  lemma Join1(hi: nat, m: nat, lo: nat, rest: seq<bool>)
    requires lo < 2
    ensures Field(hi * 2 + lo, m + 1, rest) == Field(hi, m, Field(lo, 1, rest))
  {
    Pow2Values();
    JoinFields(hi, m, lo, 1, 2, rest);
  }

  lemma Join2(hi: nat, m: nat, lo: nat, rest: seq<bool>)
    requires lo < 4
    ensures Field(hi * 4 + lo, m + 2, rest) == Field(hi, m, Field(lo, 2, rest))
  {
    Pow2Values();
    JoinFields(hi, m, lo, 2, 4, rest);
  }

  lemma Join3(hi: nat, m: nat, lo: nat, rest: seq<bool>)
    requires lo < 8
    ensures Field(hi * 8 + lo, m + 3, rest) == Field(hi, m, Field(lo, 3, rest))
  {
    Pow2Values();
    JoinFields(hi, m, lo, 3, 8, rest);
  }

  lemma Join4(hi: nat, m: nat, lo: nat, rest: seq<bool>)
    requires lo < 16
    ensures Field(hi * 16 + lo, m + 4, rest) == Field(hi, m, Field(lo, 4, rest))
  {
    Pow2Values();
    JoinFields(hi, m, lo, 4, 16, rest);
  }

  lemma Join5(hi: nat, m: nat, lo: nat, rest: seq<bool>)
    requires lo < 32
    ensures Field(hi * 32 + lo, m + 5, rest) == Field(hi, m, Field(lo, 5, rest))
  {
    Pow2Values();
    JoinFields(hi, m, lo, 5, 32, rest);
  }

  lemma Join7(hi: nat, m: nat, lo: nat, rest: seq<bool>)
    requires lo < 128
    ensures Field(hi * 128 + lo, m + 7, rest) == Field(hi, m, Field(lo, 7, rest))
  {
    Pow2Values();
    JoinFields(hi, m, lo, 7, 128, rest);
  }

  lemma Join8(hi: nat, m: nat, lo: nat, rest: seq<bool>)
    requires lo < 256
    ensures Field(hi * 256 + lo, m + 8, rest) == Field(hi, m, Field(lo, 8, rest))
  {
    Pow2Values();
    JoinFields(hi, m, lo, 8, 256, rest);
  }

  lemma ByteField(b: byte, bs: Data)
    ensures ByteBits([b] + bs) == Field(b, 8, ByteBits(bs))
  {
    assert ([b] + bs)[1..] == bs;
  }

  function Fill(n: nat): (bs: Data)
    ensures |bs| == n
  {
    if n == 0 then [] else Fill(n - 1) + [0xff]
  }

  lemma {:induction false} FillMore(m: nat, n: nat)
    ensures Fill(m) + Fill(n) == Fill(m + n)
  {
    if n > 0 {
      FillMore(m, n - 1);
      Associative(Fill(m), Fill(n - 1), [0xff]);
    }
  }

  // ------------------------------------------------------------------ packets

  /** The four bytes that every packet starts with. */
  function Header(start: bool, pid: nat, control: nat, cc: nat): (bs: Data)
    requires pid < 0x2000 && control < 4 && cc < 16
    ensures |bs| == 4
  {
    [0x47, (if start then 0x40 else 0) + pid / 256, pid % 256, control * 16 + cc]
  }

  /** The same as fields: sync byte, error and start indicators, priority, PID, scrambling, adaptation
      field control, continuity counter. */
  function HeaderBits(start: bool, pid: nat, control: nat, cc: nat, rest: seq<bool>): seq<bool> {
    Field(0x47, 8, Field(0, 1, Field(Bit(start), 1, Field(0, 1, PidBits(pid, control, cc, rest)))))
  }

  function PidBits(pid: nat, control: nat, cc: nat, rest: seq<bool>): seq<bool> {
    Field(pid, 13, Field(0, 2, Field(control, 2, Field(cc, 4, rest))))
  }

  lemma HeaderIsBits(start: bool, pid: nat, control: nat, cc: nat, rest: Data)
    requires pid < 0x2000 && control < 4 && cc < 16
    ensures ByteBits(Header(start, pid, control, cc) + rest) == HeaderBits(start, pid, control, cc, ByteBits(rest))
  {
    var b1, b2, b3 := (if start then 0x40 else 0) + pid / 256, pid % 256, control * 16 + cc;
    Prepend4(0x47, b1, b2, b3, rest);
    FourBytes(0x47, b1, b2, b3, rest);
    ControlByte(control, cc, ByteBits(rest));
    PidBytes(start, pid, Field(b3, 8, ByteBits(rest)));
  }

  lemma Prepend4<T>(a: T, b: T, c: T, d: T, rest: seq<T>)
    ensures [a, b, c, d] + rest == [a] + ([b] + ([c] + ([d] + rest)))
  {}

  lemma FourBytes(a: byte, b: byte, c: byte, d: byte, rest: Data)
    ensures ByteBits([a] + ([b] + ([c] + ([d] + rest)))) ==
            Field(a, 8, Field(b, 8, Field(c, 8, Field(d, 8, ByteBits(rest)))))
  {
    ByteField(a, [b] + ([c] + ([d] + rest)));
    ByteField(b, [c] + ([d] + rest));
    ByteField(c, [d] + rest);
    ByteField(d, rest);
  }

  lemma ControlByte(control: nat, cc: nat, rest: seq<bool>)
    requires control < 4 && cc < 16
    ensures Field(control * 16 + cc, 8, rest) == Field(0, 2, Field(control, 2, Field(cc, 4, rest)))
  {
    Join4(control, 4, cc, rest);
    Join2(0, 2, control, Field(cc, 4, rest));
  }

  lemma PidBytes(start: bool, pid: nat, rest: seq<bool>)
    requires pid < 0x2000
    ensures Field((if start then 0x40 else 0) + pid / 256, 8, Field(pid % 256, 8, rest))
         == Field(0, 1, Field(Bit(start), 1, Field(0, 1, Field(pid, 13, rest))))
  {
    var hi, lo := pid / 256, pid % 256;
    Join8(hi, 5, lo, rest);
    StartByte(Bit(start), hi, Field(lo, 8, rest));
  }

  lemma StartByte(start: nat, hi: nat, rest: seq<bool>)
    requires start < 2 && hi < 32
    ensures Field(start * 64 + hi, 8, rest) == Field(0, 1, Field(start, 1, Field(0, 1, Field(hi, 5, rest))))
  {
    StartFields(0, start, 0, hi, rest);
  }

  lemma StartFields(a: nat, b: nat, c: nat, hi: nat, rest: seq<bool>)
    requires b < 2 && c < 2 && hi < 32
    ensures Field(((a * 2 + b) * 2 + c) * 32 + hi, 8, rest) == Field(a, 1, Field(b, 1, Field(c, 1, Field(hi, 5, rest))))
  {
    Join5((a * 2 + b) * 2 + c, 3, hi, rest);
    Join1(a * 2 + b, 2, c, Field(hi, 5, rest));
    Join1(a, 1, b, Field(c, 1, Field(hi, 5, rest)));
  }

  /** An adaptation field: its length, its bytes. */
  function Adaptation(control: nat, field: Data): Data
    requires |field| < 256
  {
    if control >= 2 then [|field|] + field else []
  }

  /** A packet with a payload. */
  function Packet(start: bool, pid: nat, control: nat, cc: nat, field: Data, payload: Data): Data
    requires pid < 0x2000 && control < 4 && cc < 16 && |field| < 256
  {
    Header(start, pid, control, cc) + (Adaptation(control, field) + payload)
  }

  // The same as bits.
  function AdaptationBits(control: nat, field: Data, rest: seq<bool>): seq<bool> {
    if control >= 2 then Field(|field|, 8, ByteBits(field) + rest) else rest
  }

  lemma PacketIsBits(start: bool, pid: nat, control: nat, cc: nat, field: Data, payload: Data)
    requires pid < 0x2000 && control < 4 && cc < 16 && |field| < 256
    ensures ByteBits(Packet(start, pid, control, cc, field, payload))
         == HeaderBits(start, pid, control, cc, AdaptationBits(control, field, ByteBits(payload)))
  {
    HeaderIsBits(start, pid, control, cc, Adaptation(control, field) + payload);
    if control >= 2 {
      ByteField(|field|, field + payload);
      ByteBitsConcat(field, payload);
      Associative([|field|], field, payload);
    } else {
      assert [] + payload == payload;
    }
  }

  /** The flags byte of an adaptation field says there is a PCR. */
  predicate HasPcr(field: Data) {
    field != [] && field[0] / 16 % 2 == 1
  }

  /** A PCR has room in the field. */
  predicate FieldOk(field: Data) {
    |field| < 256 && (HasPcr(field) ==> |field| >= 7)
  }

  /** A packet before it is laid out. */
  datatype Wire = Wire(start: bool, pid: nat, control: nat, cc: nat, field: Data, payload: Data)

  predicate WireOk(w: Wire) {
    && w.pid < 0x2000 && (w.control == 1 || w.control == 3) && w.cc < 16
    && FieldOk(w.field) && (w.control == 1 ==> w.field == [])
  }

  function Encoded(w: Wire): Data
    requires WireOk(w)
  {
    Packet(w.start, w.pid, w.control, w.cc, w.field, w.payload)
  }

  // The flags as fields: discontinuity, two more, PCR, the last four.
  lemma FlagsByte(b: byte, rest: seq<bool>)
    ensures Field(b, 8, rest) ==
            Field(b / 16 / 2 / 4, 1, Field(b / 16 / 2 % 4, 2, Field(b / 16 % 2, 1, Field(b % 16, 4, rest))))
  {
    FlagsFields(b / 16 / 2 / 4, b / 16 / 2 % 4, b / 16 % 2, b % 16, rest);
  }

  lemma FlagsFields(x: nat, two: nat, pcr: nat, low: nat, rest: seq<bool>)
    requires two < 4 && pcr < 2 && low < 16
    ensures Field(((x * 4 + two) * 2 + pcr) * 16 + low, 8, rest) ==
            Field(x, 1, Field(two, 2, Field(pcr, 1, Field(low, 4, rest))))
  {
    Join4((x * 4 + two) * 2 + pcr, 4, low, rest);
    Join1(x * 4 + two, 3, pcr, Field(low, 4, rest));
    Join2(x, 1, two, Field(pcr, 1, Field(low, 4, rest)));
  }

  // ------------------------------------------------------------------ clock references

  // 33 bits count 300 ticks of the 27 MHz clock each, nine bits count single ones.
  const PCR_LIMIT: int := 0x2_0000_0000 * 300

  function PcrBytes(pcr: nat): (bs: Data)
    ensures |bs| == 6
  {
    var high, low := pcr / 300, pcr % 300;
    [high / 0x200_0000 % 256, high / 0x2_0000 % 256, high / 0x200 % 256, high / 2 % 256,
     high % 2 * 128 + 0x7e + low / 256, low % 256]
  }

  // Four bytes as one number.
  function Word(a: nat, b: nat, c: nat, d: nat): nat { ((a * 256 + b) * 256 + c) * 256 + d }

  // The last nine bits of two bytes.
  function LowNine(e: nat, f: nat): nat { e % 2 * 256 + f }

  /** The clock that six bytes stand for; the six reserved bits may be anything. */
  function PcrOf(bs: Data): nat
    requires |bs| == 6
  {
    (Word(bs[0], bs[1], bs[2], bs[3]) * 2 + bs[4] / 128) * 300 + LowNine(bs[4], bs[5])
  }

  /** A clock is read back up to the 33 bits of its base. */
  lemma PcrRoundTrip(pcr: nat)
    ensures PcrOf(PcrBytes(pcr)) == pcr % PCR_LIMIT
  {
    var high, low := pcr / 300, pcr % 300;
    HalfOfHigh(high);
    WordOfBytes(high / 2);
    LowNineOfBytes(high, low);
    BaseOfParts(high);
    ClockOfParts(pcr, high, low);
  }

  lemma WordOfBytes(v: nat)
    ensures Word(v / 256 / 256 / 256 % 256, v / 256 / 256 % 256, v / 256 % 256, v % 256) == v % 0x1_0000_0000
  {
    var w := v / 256;
    var x := w / 256;
    var y := x / 256;
    WordIsRest(y / 256, y % 256, x % 256, w % 256, v % 256);
  }

  lemma WordIsRest(z: nat, a: nat, b: nat, c: nat, d: nat)
    requires a < 256 && b < 256 && c < 256 && d < 256
    ensures ((((z * 256 + a) * 256 + b) * 256 + c) * 256 + d) % 0x1_0000_0000 == Word(a, b, c, d)
  {
    assert (((z * 256 + a) * 256 + b) * 256 + c) * 256 + d == z * 0x1_0000_0000 + Word(a, b, c, d);
    RestOfWord(z, Word(a, b, c, d));
  }

  lemma RestOfWord(z: nat, w: nat)
    requires w < 0x1_0000_0000
    ensures (z * 0x1_0000_0000 + w) % 0x1_0000_0000 == w
  {}

  lemma HalfOfHigh(high: nat)
    ensures var v := high / 2;
            && high / 0x200_0000 == v / 256 / 256 / 256 && high / 0x2_0000 == v / 256 / 256 && high / 0x200 == v / 256
  {}

  lemma LowNineOfBytes(high: nat, low: nat)
    requires low < 512
    ensures var e := high % 2 * 128 + 0x7e + low / 256; e / 128 == high % 2 && LowNine(e, low % 256) == low
  {}

  lemma BaseOfParts(high: nat)
    ensures high / 2 % 0x1_0000_0000 * 2 + high % 2 == high % 0x2_0000_0000
  {}

  lemma ClockOfParts(pcr: nat, high: nat, low: nat)
    requires high == pcr / 300 && low == pcr % 300
    ensures high % 0x2_0000_0000 * 300 + low == pcr % PCR_LIMIT
  {
    var base := high % 0x2_0000_0000;
    assert pcr == high / 0x2_0000_0000 * PCR_LIMIT + (base * 300 + low);
  }

  function PcrBits(bs: Data, rest: seq<bool>): seq<bool>
    requires |bs| == 6
  {
    Field(Word(bs[0], bs[1], bs[2], bs[3]), 32,
      Field(bs[4] / 128, 1, Field(bs[4] / 2 % 64, 6, Field(LowNine(bs[4], bs[5]), 9, rest))))
  }

  lemma PcrIsBits(bs: Data, rest: seq<bool>)
    requires |bs| == 6
    ensures ByteBits(bs) + rest == PcrBits(bs, rest)
  {
    SixBytes(bs, rest);
    LastTwo(bs[4], bs[5], rest);
    WordBits(bs[0], bs[1], bs[2], bs[3], Field(bs[4], 8, Field(bs[5], 8, rest)));
  }

  lemma WordBits(a: nat, b: nat, c: nat, d: nat, rest: seq<bool>)
    requires a < 256 && b < 256 && c < 256 && d < 256
    ensures Field(Word(a, b, c, d), 32, rest) == Field(a, 8, Field(b, 8, Field(c, 8, Field(d, 8, rest))))
  {
    Join8((a * 256 + b) * 256 + c, 24, d, rest);
    Join8(a * 256 + b, 16, c, Field(d, 8, rest));
    Join8(a, 8, b, Field(c, 8, Field(d, 8, rest)));
  }

  lemma LastTwo(e: nat, f: nat, rest: seq<bool>)
    requires e < 256 && f < 256
    ensures Field(e, 8, Field(f, 8, rest)) == Field(e / 128, 1, Field(e / 2 % 64, 6, Field(LowNine(e, f), 9, rest)))
  {
    assert e == (e / 128 * 64 + e / 2 % 64) * 2 + e % 2;
    TopSeven(e / 128, e / 2 % 64, e % 2, Field(f, 8, rest));
    Join8(e % 2, 1, f, rest);
  }

  lemma TopSeven(top: nat, six: nat, low: nat, rest: seq<bool>)
    requires six < 64 && low < 2
    ensures Field((top * 64 + six) * 2 + low, 8, rest) == Field(top, 1, Field(six, 6, Field(low, 1, rest)))
  {
    Join1(top * 64 + six, 7, low, rest);
    Join6(top, 1, six, Field(low, 1, rest));
  }

  lemma Join6(hi: nat, m: nat, lo: nat, rest: seq<bool>)
    requires lo < 64
    ensures Field(hi * 64 + lo, m + 6, rest) == Field(hi, m, Field(lo, 6, rest))
  {
    Pow2Values();
    JoinFields(hi, m, lo, 6, 64, rest);
  }

  // The first byte of some, and then the others.
  lemma FirstByte(bs: Data, rest: seq<bool>)
    requires bs != []
    ensures ByteBits(bs) + rest == Field(bs[0], 8, ByteBits(bs[1..]) + rest)
  {
    Associative(ToBits(bs[0], 8), ByteBits(bs[1..]), rest);
  }

  lemma SixBytes(bs: Data, rest: seq<bool>)
    requires |bs| == 6
    ensures ByteBits(bs) + rest ==
            Field(bs[0], 8, Field(bs[1], 8, Field(bs[2], 8, Field(bs[3], 8, Field(bs[4], 8, Field(bs[5], 8, rest))))))
  {
    FirstByte(bs, rest);
    FirstByte(bs[1..], rest);
    FirstByte(bs[2..], rest);
    FirstByte(bs[3..], rest);
    FirstByte(bs[4..], rest);
    FirstByte(bs[5..], rest);
    assert ByteBits(bs[6..]) + rest == rest;
  }

  // ------------------------------------------------------------------ PES headers

  /** A PES packet that carries one access unit. */
  datatype Pes = Pes(streamId: nat, pts: nat, data: Data)

  predicate PesOk(p: Pes) {
    p.streamId in {0xc0, 0xe0} && p.pts < 0x1_0000_0000 && (p.streamId == 0xe0 || |p.data| + 8 < 65536)
  }

  function PesLength(p: Pes): nat { if |p.data| + 8 >= 65536 then 0 else |p.data| + 8 }

  function PesHeader(p: Pes): (bs: Data)
    requires PesOk(p)
    ensures |bs| == 14
  {
    [0x00, 0x00, 0x01, p.streamId, PesLength(p) / 256, PesLength(p) % 256, 0x84, 0x80, 0x05] + PtsBytes(p.pts)
  }

  function PtsBytes(pts: nat): (bs: Data)
    requires pts < 0x1_0000_0000
    ensures |bs| == 5
  {
    [0x21 + 2 * (pts / 0x4000_0000), pts / 0x40_0000 % 256, 2 * (pts / 0x8000 % 128) + 1, pts / 128 % 256,
        2 * (pts % 128) + 1]
  }

  function PesBytes(p: Pes): Data
    requires PesOk(p)
  {
    PesHeader(p) + p.data
  }

  /** The fields of a time stamp: 3, 15 and 15 bits, with marker bits. */
  function PtsBits(pts: nat, rest: seq<bool>): seq<bool> {
    Field(2, 4, Field(pts / 0x4000_0000, 3, Field(1, 1,
      Field(pts / 0x8000 % 0x8000, 15, Field(1, 1, Field(pts % 0x8000, 15, Field(1, 1, rest)))))))
  }

  function FlagBits(rest: seq<bool>): seq<bool> {
    Field(2, 2, Field(0, 2, Field(0, 1, Field(1, 1, Field(0, 1, Field(0, 1,
      Field(2, 2, Field(0, 1, Field(0, 1, Field(0, 1, Field(0, 1, Field(0, 1, Field(0, 1, rest)))))))))))))
  }

  function PesBits(p: Pes, rest: seq<bool>): seq<bool> {
    Field(1, 24, Field(p.streamId, 8, Field(PesLength(p), 16, FlagBits(Field(5, 8, PtsBits(p.pts, rest))))))
  }

  // A 15-bit part of the time stamp and its marker bit.
  lemma PtsPart(x: nat, rest: seq<bool>)
    requires x < 0x8000
    ensures Field(x / 128, 8, Field(2 * (x % 128) + 1, 8, rest)) == Field(x, 15, Field(1, 1, rest))
  {
    Join1(x % 128, 7, 1, rest);
    Join7(x / 128, 8, x % 128, Field(1, 1, rest));
  }

  lemma PtsFirst(x: nat, rest: seq<bool>)
    requires x < 8
    ensures Field(0x21 + 2 * x, 8, rest) == Field(2, 4, Field(x, 3, Field(1, 1, rest)))
  {
    Join1(2 * 8 + x, 7, 1, rest);
    Join3(2, 4, x, Field(1, 1, rest));
  }

  lemma PtsIsBits(pts: nat, rest: Data)
    requires pts < 0x1_0000_0000
    ensures ByteBits(PtsBytes(pts) + rest) == PtsBits(pts, ByteBits(rest))
  {
    var mid, low := pts / 0x8000 % 0x8000, pts % 0x8000;
    PtsDigits(pts);
    SameBytes(pts, pts / 0x4000_0000, mid, low);
    PtsFields(pts / 0x4000_0000, mid, low, rest);
  }

  lemma SameBytes(pts: nat, x: nat, mid: nat, low: nat)
    requires pts < 0x1_0000_0000 && x == pts / 0x4000_0000 && mid < 0x8000 && low < 0x8000
    requires pts / 0x40_0000 % 256 == mid / 128 && pts / 0x8000 % 128 == mid % 128
    requires pts / 128 % 256 == low / 128 && pts % 128 == low % 128
    ensures PtsBytes(pts) == [0x21 + 2 * x, mid / 128, 2 * (mid % 128) + 1, low / 128, 2 * (low % 128) + 1]
  {}

  lemma PtsFields(x: nat, mid: nat, low: nat, rest: Data)
    requires x < 8 && mid < 0x8000 && low < 0x8000
    ensures ByteBits([0x21 + 2 * x, mid / 128, 2 * (mid % 128) + 1, low / 128, 2 * (low % 128) + 1] + rest)
         == Field(2, 4, Field(x, 3,
             Field(1, 1, Field(mid, 15, Field(1, 1, Field(low, 15, Field(1, 1, ByteBits(rest))))))))
  {
    var a: byte, b: byte, c: byte := 0x21 + 2 * x, mid / 128, 2 * (mid % 128) + 1;
    var d: byte, e: byte := low / 128, 2 * (low % 128) + 1;
    Prepend5(a, b, c, d, e, rest);
    FourBytes(a, b, c, d, [e] + rest);
    ByteField(e, rest);
    var bits := ByteBits(rest);
    var end := Field(low, 15, Field(1, 1, bits));
    PtsPart(low, bits);
    PtsPart(mid, end);
    PtsFirst(x, Field(mid, 15, Field(1, 1, end)));
  }

  lemma Prepend5<T>(a: T, b: T, c: T, d: T, e: T, rest: seq<T>)
    ensures [a, b, c, d, e] + rest == [a] + ([b] + ([c] + ([d] + ([e] + rest))))
  {}

  lemma PtsDigits(pts: nat)
    ensures pts / 0x40_0000 % 256 == pts / 0x8000 % 0x8000 / 128
    ensures pts / 0x8000 % 128 == pts / 0x8000 % 0x8000 % 128
    ensures pts / 128 % 256 == pts % 0x8000 / 128
    ensures pts % 128 == pts % 0x8000 % 128
  {
    Digits(pts, 128, 256);
    Digits(pts / 0x8000, 128, 256);
    Digits(pts, 0x8000, 128);
  }

  lemma FlagsAreBits(rest: seq<bool>)
    ensures Field(0x84, 8, Field(0x80, 8, rest)) == FlagBits(rest)
  {
    LastFlags(rest);
    FirstFlags(Field(2, 2, ThreeZeros(ThreeZeros(rest))));
  }

  function ThreeZeros(rest: seq<bool>): seq<bool> { Field(0, 1, Field(0, 1, Field(0, 1, rest))) }

  lemma JoinThreeZeros(v: nat, m: nat, rest: seq<bool>)
    ensures Field(v * 8, m + 3, rest) == Field(v, m, ThreeZeros(rest))
  {
    Join1(v * 4, m + 2, 0, rest);
    Join1(v * 2, m + 1, 0, Field(0, 1, rest));
    Join1(v, m, 0, Field(0, 1, Field(0, 1, rest)));
  }

  lemma LastFlags(rest: seq<bool>)
    ensures Field(0x80, 8, rest) == Field(2, 2, ThreeZeros(ThreeZeros(rest)))
  {
    JoinThreeZeros(0x10, 5, rest);
    JoinThreeZeros(2, 2, ThreeZeros(rest));
  }

  lemma FirstFlags(rest: seq<bool>)
    ensures Field(0x84, 8, rest) == Field(2, 2, Field(0, 2, Field(0, 1, Field(1, 1, Field(0, 1, Field(0, 1, rest))))))
  {
    LowFlags(0x10, 4, rest);
    HighFlags(Field(0, 1, Field(1, 1, Field(0, 1, Field(0, 1, rest)))));
  }

  lemma LowFlags(v: nat, m: nat, rest: seq<bool>)
    ensures Field(v * 8 + 4, m + 4, rest) ==
            Field(v / 2, m, Field(v % 2, 1, Field(1, 1, Field(0, 1, Field(0, 1, rest)))))
  {
    Join1(v * 4 + 2, m + 3, 0, rest);
    Join1(v * 2 + 1, m + 2, 0, Field(0, 1, rest));
    Join1(v, m + 1, 1, Field(0, 1, Field(0, 1, rest)));
    Join1(v / 2, m, v % 2, Field(1, 1, Field(0, 1, Field(0, 1, rest))));
  }

  lemma HighFlags(rest: seq<bool>)
    ensures Field(8, 4, rest) == Field(2, 2, Field(0, 2, rest))
  {
    Join2(2, 2, 0, rest);
  }

  // Three bytes, two bytes.
  lemma StartCode(rest: seq<bool>)
    ensures Field(0, 8, Field(0, 8, Field(1, 8, rest))) == Field(1, 24, rest)
  {
    Join8(0, 8, 1, rest);
    Join16(0, 8, 1, rest);
  }

  lemma Join16(hi: nat, m: nat, lo: nat, rest: seq<bool>)
    requires lo < 65536
    ensures Field(hi * 65536 + lo, m + 16, rest) == Field(hi, m, Field(lo, 16, rest))
  {
    Pow2Values();
    JoinFields(hi, m, lo, 16, 65536, rest);
  }

  lemma PesIsBits(p: Pes)
    requires PesOk(p)
    ensures ByteBits(PesBytes(p)) == PesBits(p, ByteBits(p.data))
  {
    var n := PesLength(p);
    var a: Data := [0x00, 0x00, 0x01, p.streamId];
    var b: Data := [n / 256, n % 256, 0x84, 0x80];
    var end := PtsBytes(p.pts) + p.data;
    assert PesBytes(p) ==
           [a[0]] + ([a[1]] + ([a[2]] + ([a[3]] + ([b[0]] + ([b[1]] + ([b[2]] + ([b[3]] + ([5] + end))))))));
    FourBytes(a[0], a[1], a[2], a[3], [b[0]] + ([b[1]] + ([b[2]] + ([b[3]] + ([5] + end)))));
    FourBytes(b[0], b[1], b[2], b[3], [5] + end);
    ByteField(5, end);
    PtsIsBits(p.pts, p.data);
    PesHeaderFields(p.streamId, n, Field(5, 8, PtsBits(p.pts, ByteBits(p.data))));
  }

  lemma PesHeaderFields(streamId: nat, n: nat, rest: seq<bool>)
    requires n < 65536
    ensures Field(0, 8, Field(0, 8, Field(1, 8, Field(streamId, 8,
              Field(n / 256, 8, Field(n % 256, 8, Field(0x84, 8, Field(0x80, 8, rest))))))))
         == Field(1, 24, Field(streamId, 8, Field(n, 16, FlagBits(rest))))
  {
    LengthAndFlags(n, rest);
    StartCode(Field(streamId, 8, Field(n, 16, FlagBits(rest))));
  }

  lemma LengthAndFlags(n: nat, rest: seq<bool>)
    requires n < 65536
    ensures Field(n / 256, 8, Field(n % 256, 8, Field(0x84, 8, Field(0x80, 8, rest)))) == Field(n, 16, FlagBits(rest))
  {
    FlagsAreBits(rest);
    Join8(n / 256, 8, n % 256, FlagBits(rest));
  }

  /** The 90 kHz time stamp of a time in microseconds, and back: at most 11 microseconds are lost. */
  function ToPts(timeUs: nat): nat { timeUs * 9 / 100 }

  lemma PtsLoss(timeUs: nat)
    ensures 0 <= timeUs - ToPts(timeUs) * 100 / 9 <= 11
  {}
}
