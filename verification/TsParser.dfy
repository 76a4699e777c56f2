/** ATSParser (libstagefright/mpeg2ts/ATSParser.cpp): packets back into program tables and access units. */
module TsParser {
  import opened Bits
  import opened BitReader
  import opened TsFormat

  /** Aborted stands for a failed CHECK, which includes reading past the end of the data. */
  datatype Status = Ok | Malformed | Aborted

  datatype Read = Got(value: nat) | Exhausted {
    predicate IsFailure() { Exhausted? }

    function PropagateFailure(): Status
      requires Exhausted?
    {
      Aborted
    }

    function Extract(): nat
      requires Got?
    {
      value
    }
  }

  ghost predicate Ready(br: ABitReader)
    reads br
  {
    br.Valid() && br.Unmixed()
  }

  /** getBits, which needs that many bits.  If they are the field v, v is what it returns. */
  method Get(br: ABitReader, n: nat, ghost v: nat, ghost rest: seq<bool>) returns (r: Read)
    requires Ready(br) && n <= 32
    modifies br
    ensures Ready(br)
    ensures n > |old(br.Remaining())| ==> r.Exhausted?
    ensures n <= |old(br.Remaining())| ==>
            r == Got(Val(old(br.Remaining())[..n])) && br.Remaining() == old(br.Remaining())[n..]
    ensures old(br.Remaining()) == Field(v, n, rest) && v < Pow2(n) ==> r == Got(v) && br.Remaining() == rest
  {
    var left := br.NumBitsLeft();
    if n > left {
      return Exhausted;
    }
    if v < Pow2(n) { ReadField(v, n, rest); }
    var value := br.GetBits(n);
    r := Got(value);
  }

  /** skipBits, which needs that many bits. */
  method Skip(br: ABitReader, n: nat) returns (r: Read)
    requires Ready(br)
    modifies br
    ensures Ready(br)
    ensures n > |old(br.Remaining())| ==> r.Exhausted?
    ensures n <= |old(br.Remaining())| ==> r == Got(0) && br.Remaining() == old(br.Remaining())[n..]
  {
    var left := br.NumBitsLeft();
    if n > left {
      return Exhausted;
    }
    br.SkipBits(n);
    r := Got(0);
  }

  // Skipping the first part of a concatenation.
  lemma SkipPart(a: seq<bool>, rest: seq<bool>)
    ensures (a + rest)[|a|..] == rest
  {}

  // ------------------------------------------------------------------ PES headers

  const OTHER_IDS: set<nat> := {0xbc, 0xbe, 0xbf, 0xf0, 0xf1, 0xff, 0xf2, 0xf8}
  const STAMP_LIMIT := 0x2_0000_0000

  /** The flags that are passed over. */
  datatype Flags = Flags(scrambling: nat, priority: nat, alignment: nat, copyright: nat, original: nat,
                         trickMode: nat, copyInfo: nat, crc: nat, extension: nat)

  /** PTS_DTS_flags, and the time stamps that it announces. */
  datatype Stamps = NoStamps(code: nat) | Pts(pts: nat) | PtsDts(pts: nat, dts: nat)

  datatype Escr = Escr(reserved: nat, base: nat, extension: nat)

  /** A PES header, with any of its optional fields. */
  datatype PesHead = PesHead(streamId: nat, length: nat, flags: Flags, stamps: Stamps, escr: seq<Escr>,
                             esRate: seq<nat>, stuffing: seq<bool>)

  predicate FlagsOk(f: Flags) {
    && f.scrambling < 4 && f.priority < 2 && f.alignment < 2 && f.copyright < 2 && f.original < 2
    && f.trickMode < 2 && f.copyInfo < 2 && f.crc < 2 && f.extension < 2
  }

  predicate StampsOk(s: Stamps) {
    match s
    case NoStamps(code) => code < 2
    case Pts(pts) => pts < STAMP_LIMIT
    case PtsDts(pts, dts) => pts < STAMP_LIMIT && dts < STAMP_LIMIT
  }

  predicate EscrOk(e: Escr) { e.reserved < 4 && e.base < STAMP_LIMIT && e.extension < 512 }

  function Code(s: Stamps): nat {
    match s
    case NoStamps(code) => code
    case Pts(_) => 2
    case PtsDts(_, _) => 3
  }

  // The bytes that the time stamps take.
  function StampsLength(s: Stamps): nat {
    match s
    case NoStamps(_) => 0
    case Pts(_) => 5
    case PtsDts(_, _) => 10
  }

  function PtsOf(s: Stamps): nat { if s.NoStamps? then 0 else s.pts }

  function DtsOf(s: Stamps): nat { if s.PtsDts? then s.dts else 0 }

  /** PES_header_data_length. */
  function HeaderLength(h: PesHead): nat {
    StampsLength(h.stamps) + 6 * |h.escr| + 3 * |h.esRate| + |h.stuffing| / 8
  }

  predicate HeadOk(h: PesHead) {
    && h.streamId < 256 && h.streamId !in OTHER_IDS && h.length < 65536
    && FlagsOk(h.flags) && StampsOk(h.stamps)
    && |h.escr| <= 1 && (h.escr != [] ==> EscrOk(h.escr[0]))
    && |h.esRate| <= 1 && (h.esRate != [] ==> h.esRate[0] < 0x40_0000)
    && |h.stuffing| % 8 == 0 && HeaderLength(h) < 256
    && (h.length != 0 ==> h.length >= HeaderLength(h) + 3)
  }

  function FirstFlagBits(f: Flags, code: nat, rest: seq<bool>): seq<bool> {
    Field(2, 2, Field(f.scrambling, 2, Field(f.priority, 1, Field(f.alignment, 1,
      Field(f.copyright, 1, Field(f.original, 1, Field(code, 2, rest)))))))
  }

  function LastFlagBits(f: Flags, escr: nat, esRate: nat, rest: seq<bool>): seq<bool> {
    Field(escr, 1, Field(esRate, 1, Field(f.trickMode, 1, Field(f.copyInfo, 1,
      Field(f.crc, 1, Field(f.extension, 1, rest))))))
  }

  function TimeStampBits(pts: nat, rest: seq<bool>): seq<bool> {
    Field(pts / 0x4000_0000, 3,
        Field(1, 1, Field(pts / 0x8000 % 0x8000, 15, Field(1, 1, Field(pts % 0x8000, 15, Field(1, 1, rest))))))
  }

  function StampsBits(s: Stamps, rest: seq<bool>): seq<bool> {
    match s
    case NoStamps(_) => rest
    case Pts(pts) => Field(2, 4, TimeStampBits(pts, rest))
    case PtsDts(pts, dts) => Field(3, 4, TimeStampBits(pts, Field(1, 4, TimeStampBits(dts, rest))))
  }

  function EscrBits(e: Escr, rest: seq<bool>): seq<bool> {
    Field(e.reserved, 2, TimeStampBits(e.base, Field(e.extension, 9, Field(1, 1, rest))))
  }

  function EsRateBits(rate: nat, rest: seq<bool>): seq<bool> {
    Field(1, 1, Field(rate, 22, Field(1, 1, rest)))
  }

  // What comes after the time stamps.
  function ClockBits(h: PesHead, rest: seq<bool>): seq<bool> {
    if h.escr == [] then RateBits(h, rest) else EscrBits(h.escr[0], RateBits(h, rest))
  }

  function RateBits(h: PesHead, rest: seq<bool>): seq<bool> {
    if h.esRate == [] then h.stuffing + rest else EsRateBits(h.esRate[0], h.stuffing + rest)
  }

  // From the flags on.
  function PayloadBits(h: PesHead, rest: seq<bool>): seq<bool> {
    FirstFlagBits(h.flags, Code(h.stamps), LastFlagBits(h.flags, |h.escr|, |h.esRate|,
      Field(HeaderLength(h), 8, StampsBits(h.stamps, ClockBits(h, rest)))))
  }

  function HeadBits(h: PesHead, rest: seq<bool>): seq<bool> {
    Field(1, 24, Field(h.streamId, 8, Field(h.length, 16, PayloadBits(h, rest))))
  }

  // ------------------------------------------------------------------ PES packets

  /** What onPayloadData is called with. */
  datatype Payload = Payload(flags: nat, pts: nat, dts: nat, data: Data)

  datatype PesFlags = PesFlags(ptsDts: nat, escr: nat, esRate: nat)

  /** The two bytes of flags, lines 1034 to 1060. */
  method ReadFlags(br: ABitReader, ghost h: PesHead, ghost rest: seq<bool>) returns (err: Status, f: PesFlags)
    requires Ready(br)
    modifies br
    ensures Ready(br)
    ensures HeadOk(h) && old(br.Remaining()) ==
              FirstFlagBits(h.flags, Code(h.stamps), LastFlagBits(h.flags, |h.escr|, |h.esRate|, rest))
            ==> err == Ok && f == PesFlags(Code(h.stamps), |h.escr|, |h.esRate|) && br.Remaining() == rest
  {
    f := PesFlags(0, 0, 0);
    if HeadOk(h) { FlagsFit(h); }
    ghost var r1 := Field(h.flags.extension, 1, rest);
    ghost var r2 := Field(h.flags.crc, 1, r1);
    ghost var r3 := Field(h.flags.copyInfo, 1, r2);
    ghost var r4 := Field(h.flags.trickMode, 1, r3);
    ghost var r5 := Field(|h.esRate|, 1, r4);
    var ptsDts;
    err, ptsDts := ReadFirstFlags(br, h.flags, Code(h.stamps), Field(|h.escr|, 1, r5));
    if err != Ok {
      return;
    }
    var escr :- Get(br, 1, |h.escr|, r5);
    var esRate :- Get(br, 1, |h.esRate|, r4);
    var _ :- Get(br, 1, h.flags.trickMode, r3);
    var _ :- Get(br, 1, h.flags.copyInfo, r2);
    var _ :- Get(br, 1, h.flags.crc, r1);
    var _ :- Get(br, 1, h.flags.extension, rest);
    return Ok, PesFlags(ptsDts, escr, esRate);
  }

  lemma FlagsFit(h: PesHead)
    requires HeadOk(h)
    ensures h.flags.extension < Pow2(1) && h.flags.crc < Pow2(1) && h.flags.copyInfo < Pow2(1)
    ensures h.flags.trickMode < Pow2(1) && |h.esRate| < Pow2(1) && |h.escr| < Pow2(1) && Code(h.stamps) < 4
  {
    Pow2Values();
  }

  method ReadFirstFlags(br: ABitReader, ghost f: Flags, ghost code: nat, ghost rest: seq<bool>)
    returns (err: Status, ptsDts: nat)
    requires Ready(br)
    modifies br
    ensures Ready(br)
    ensures FlagsOk(f) && code < 4 && old(br.Remaining()) == FirstFlagBits(f, code, rest)
            ==> err == Ok && ptsDts == code && br.Remaining() == rest
  {
    ptsDts := 0;
    Pow2Values();
    ghost var r1 := Field(code, 2, rest);
    ghost var r2 := Field(f.original, 1, r1);
    ghost var r3 := Field(f.copyright, 1, r2);
    ghost var r4 := Field(f.alignment, 1, r3);
    ghost var r5 := Field(f.priority, 1, r4);
    var marker :- Get(br, 2, 2, Field(f.scrambling, 2, r5));
    if marker != 2 {
      return Aborted, 0;
    }
    var _ :- Get(br, 2, f.scrambling, r5);
    var _ :- Get(br, 1, f.priority, r4);
    var _ :- Get(br, 1, f.alignment, r3);
    var _ :- Get(br, 1, f.copyright, r2);
    var _ :- Get(br, 1, f.original, r1);
    ptsDts :- Get(br, 2, code, rest);
    return Ok, ptsDts;
  }

  /** 33 bits in three parts, each followed by a marker bit. */
  method ReadTimeStamp(br: ABitReader, ghost pts: nat, ghost rest: seq<bool>) returns (err: Status, value: nat)
    requires Ready(br)
    modifies br
    ensures Ready(br)
    ensures pts < 0x2_0000_0000 && old(br.Remaining()) == TimeStampBits(pts, rest)
            ==> err == Ok && value == pts && br.Remaining() == rest
  {
    value := 0;
    ghost var hi, mid, low := pts / 0x4000_0000, pts / 0x8000 % 0x8000, pts % 0x8000;
    ghost var r1 := Field(low, 15, Field(1, 1, rest));
    ghost var r2 := Field(mid, 15, Field(1, 1, r1));
    TimeStampParts(pts);
    var a, b, c;
    err, a := ReadPart(br, 3, hi, r2);
    if err != Ok {
      return;
    }
    err, b := ReadPart(br, 15, mid, r1);
    if err != Ok {
      return;
    }
    err, c := ReadPart(br, 15, low, rest);
    value := a * 0x4000_0000 + b * 0x8000 + c;
  }

  lemma TimeStampParts(pts: nat)
    ensures pts == pts / 0x4000_0000 * 0x4000_0000 + pts / 0x8000 % 0x8000 * 0x8000 + pts % 0x8000
    ensures pts < 0x2_0000_0000 ==> pts / 0x4000_0000 < Pow2(3)
    ensures pts / 0x8000 % 0x8000 < Pow2(15) && pts % 0x8000 < Pow2(15)
  {
    Pow2Values();
    Digits(pts, 0x8000, 0x8000);
  }

  // A part and its marker bit.
  method ReadPart(br: ABitReader, n: nat, ghost v: nat, ghost rest: seq<bool>) returns (err: Status, value: nat)
    requires Ready(br) && n <= 32
    modifies br
    ensures Ready(br)
    ensures v < Pow2(n) && old(br.Remaining()) == Field(v, n, Field(1, 1, rest))
            ==> err == Ok && value == v && br.Remaining() == rest
  {
    value := 0;
    value :- Get(br, n, v, Field(1, 1, rest));
    var marker :- Get(br, 1, 1, rest);
    if marker != 1 {
      return Aborted, value;
    }
    err := Ok;
  }

  /** PTS and DTS, lines 1065 to 1101, and how much of the header they leave. */
  method ReadStamps(br: ABitReader, code: nat, length: nat, ghost s: Stamps, ghost rest: seq<bool>)
    returns (err: Status, p: nat, d: nat, left: nat)
    requires Ready(br)
    modifies br
    ensures Ready(br)
    ensures StampsOk(s) && code == Code(s) && length >= StampsLength(s) && old(br.Remaining()) == StampsBits(s, rest)
            ==> err == Ok && p == PtsOf(s) && d == DtsOf(s) && left == length - StampsLength(s)
                && br.Remaining() == rest
  {
    p, d, left := 0, 0, length;
    err := Ok;
    if code == 2 || code == 3 {
      if left < 5 {
        return Aborted, p, d, left;
      }
      ghost var more := if s.PtsDts? then Field(1, 4, TimeStampBits(s.dts, rest)) else rest;
      Pow2Values();
      var marker :- Get(br, 4, code, TimeStampBits(PtsOf(s), more));
      if marker != code {
        return Malformed, p, d, left;
      }
      err, p := ReadTimeStamp(br, PtsOf(s), more);
      if err != Ok {
        return;
      }
      left := left - 5;
      if code == 3 {
        if left < 5 {
          return Aborted, p, d, left;
        }
        marker :- Get(br, 4, 1, TimeStampBits(DtsOf(s), rest));
        if marker != 1 {
          return Aborted, p, d, left;
        }
        err, d := ReadTimeStamp(br, DtsOf(s), rest);
        if err != Ok {
          return;
        }
        left := left - 5;
      }
    }
  }

  /** The time stamps, and what else the optional header holds: lines 1065 to 1133. */
  method ReadOptionalHeader(br: ABitReader, f: PesFlags, length: nat, ghost h: PesHead, ghost rest: seq<bool>)
    returns (err: Status, p: nat, d: nat)
    requires Ready(br)
    modifies br
    ensures Ready(br)
    ensures HeadOk(h) && f == PesFlags(Code(h.stamps), |h.escr|, |h.esRate|) && length == HeaderLength(h)
            && old(br.Remaining()) == StampsBits(h.stamps, ClockBits(h, rest))
            ==> err == Ok && p == PtsOf(h.stamps) && d == DtsOf(h.stamps) && br.Remaining() == rest
  {
    var left;
    err, p, d, left := ReadStamps(br, f.ptsDts, length, h.stamps, ClockBits(h, rest));
    if err != Ok {
      return;
    }
    err := SkipRest(br, f, left, h, rest);
  }

  // ESCR, ES_rate and the stuffing.
  method SkipRest(br: ABitReader, f: PesFlags, length: nat, ghost h: PesHead, ghost rest: seq<bool>)
    returns (err: Status)
    requires Ready(br)
    modifies br
    ensures Ready(br)
    ensures HeadOk(h) && f.escr == |h.escr| && f.esRate == |h.esRate|
            && length == HeaderLength(h) - StampsLength(h.stamps) && old(br.Remaining()) == ClockBits(h, rest)
            ==> err == Ok && br.Remaining() == rest
  {
    var left: nat := length;
    if f.escr == 1 {
      if left < 6 {
        return Aborted;
      }
      err := SkipEscr(br, if h.escr == [] then Escr(0, 0, 0) else h.escr[0], RateBits(h, rest));
      if err != Ok {
        return;
      }
      left := left - 6;
    }
    if f.esRate == 1 {
      if left < 3 {
        return Aborted;
      }
      err := SkipEsRate(br, if h.esRate == [] then 0 else h.esRate[0], h.stuffing + rest);
      if err != Ok {
        return;
      }
      left := left - 3;
    }
    SkipPart(h.stuffing, rest);
    var _ :- Skip(br, left * 8);
    err := Ok;
  }

  method SkipEscr(br: ABitReader, ghost e: Escr, ghost rest: seq<bool>) returns (err: Status)
    requires Ready(br)
    modifies br
    ensures Ready(br)
    ensures EscrOk(e) && old(br.Remaining()) == EscrBits(e, rest) ==> err == Ok && br.Remaining() == rest
  {
    Pow2Values();
    assert Pow2(9) == 512;
    ghost var last := Field(1, 1, rest);
    ghost var end := Field(e.extension, 9, last);
    var _ :- Get(br, 2, e.reserved, TimeStampBits(e.base, end));
    var escr;
    err, escr := ReadTimeStamp(br, e.base, end);
    if err == Ok {
      var _ :- Get(br, 9, e.extension, last);
      var marker :- Get(br, 1, 1, rest);
      err := if marker == 1 then Ok else Aborted;
    }
  }

  method SkipEsRate(br: ABitReader, ghost rate: nat, ghost rest: seq<bool>) returns (err: Status)
    requires Ready(br)
    modifies br
    ensures Ready(br)
    ensures rate < 0x40_0000 && old(br.Remaining()) == EsRateBits(rate, rest) ==> err == Ok && br.Remaining() == rest
  {
    RateFits();
    ghost var end := Field(1, 1, rest);
    var first :- Get(br, 1, 1, Field(rate, 22, end));
    if first != 1 {
      return Aborted;
    }
    var _ :- Get(br, 22, rate, end);
    var last :- Get(br, 1, 1, rest);
    err := if last == 1 then Ok else Aborted;
  }

  lemma RateFits()
    ensures Pow2(22) == 0x40_0000 && Pow2(1) == 2
  {
    Pow2Values();
    Pow2Add(16, 6);
  }

  // br->data(), n bytes.
  method Bytes(br: ABitReader, n: nat, ghost data: Data) returns (bs: Data)
    requires Ready(br) && 8 * n <= |br.Remaining()|
    ensures br.Remaining() == ByteBits(data) ==> n <= |data| && bs == data[..n]
  {
    var offset := br.Data();
    bs := br.bytes[offset..offset + n];
    if br.Remaining() == ByteBits(data) {
      ByteBitsInjective(br.bytes[offset..], data);
      assert br.bytes[offset..offset + n] == br.bytes[offset..][..n];
    }
  }

  /** A PES packet carries what its length leaves after the header, or everything if it has none. */
  function Carried(h: PesHead, data: Data): Data
    requires HeadOk(h) && Whole(h, data)
  {
    if h.length == 0 then data else data[..h.length - 3 - HeaderLength(h)]
  }

  predicate Whole(h: PesHead, data: Data)
    requires HeadOk(h)
  {
    h.length == 0 || h.length - 3 - HeaderLength(h) <= |data|
  }

  predicate Parsed(h: PesHead, data: Data, err: Status, out: seq<Payload>)
    requires HeadOk(h)
  {
    if Whole(h, data) then
      err == Ok && out == [Payload(Code(h.stamps), PtsOf(h.stamps), DtsOf(h.stamps), Carried(h, data))]
    else err == Malformed && out == []
  }

  /** parsePES: a packet with any header is handed on with its time stamps and what it carries, unless it
      carries less than its length says; a stream of another kind is skipped. */
  method ParsePES(buffer: Data, ghost h: PesHead, ghost data: Data) returns (err: Status, out: seq<Payload>)
    ensures HeadOk(h) && ByteBits(buffer) == HeadBits(h, ByteBits(data)) ==> Parsed(h, data, err, out)
    ensures h.streamId in OTHER_IDS && 0 < h.length <= |data| && h.length < 65536
            && ByteBits(buffer) == Field(1, 24, Field(h.streamId, 8, Field(h.length, 16, ByteBits(data))))
            ==> err == Ok && out == []
  {
    out := [];
    var br := new ABitReader(buffer);
    PrefixFits(h);
    ghost var end := if h.streamId in OTHER_IDS then ByteBits(data) else PayloadBits(h, ByteBits(data));
    var prefix :- Get(br, 24, 1, Field(h.streamId, 8, Field(h.length, 16, end)));
    if prefix != 1 {
      return Malformed, [];
    }
    var streamId :- Get(br, 8, h.streamId, Field(h.length, 16, end));
    var length :- Get(br, 16, h.length, end);
    if streamId in OTHER_IDS {
      if length == 0 {
        return Aborted, [];
      }
      var _ :- Skip(br, length * 8);
      return Ok, [];
    }
    err, out := ParsePesPayload(br, length, h, data);
  }

  lemma PrefixFits(h: PesHead)
    ensures 1 < Pow2(24) && Pow2(8) == 256 && Pow2(16) == 65536
    ensures HeadOk(h) || h.streamId in OTHER_IDS ==> h.streamId < Pow2(8)
  {
    Pow2Values();
    Pow2Add(8, 16);
  }

  method ParsePesPayload(br: ABitReader, length: nat, ghost h: PesHead, ghost data: Data)
    returns (err: Status, out: seq<Payload>)
    requires Ready(br)
    modifies br
    ensures Ready(br)
    ensures HeadOk(h) && length == h.length && old(br.Remaining()) == PayloadBits(h, ByteBits(data))
            ==> Parsed(h, data, err, out)
  {
    out := [];
    Pow2Values();
    ghost var end := StampsBits(h.stamps, ClockBits(h, ByteBits(data)));
    var f;
    err, f := ReadFlags(br, h, Field(HeaderLength(h), 8, end));
    if err != Ok {
      return;
    }
    var headerLength :- Get(br, 8, HeaderLength(h), end);
    var pts, dts;
    err, pts, dts := ReadOptionalHeader(br, f, headerLength, h, ByteBits(data));
    if err != Ok {
      return;
    }
    var carried;
    err, carried := ReadData(br, length, headerLength, h, data);
    if err == Ok {
      out := [Payload(f.ptsDts, pts, dts, carried)];
    }
  }

  // The access unit's bytes: as many as the length field leaves, or all that are left.
  method ReadData(br: ABitReader, length: nat, headerLength: nat, ghost h: PesHead, ghost data: Data)
    returns (err: Status, bs: Data)
    requires Ready(br)
    ensures HeadOk(h) && length == h.length && headerLength == HeaderLength(h) && br.Remaining() == ByteBits(data) ==>
            if Whole(h, data) then err == Ok && bs == Carried(h, data) else err == Malformed
  {
    bs := [];
    var left := br.NumBitsLeft();
    var n := left / 8;
    if length != 0 {
      if length < headerLength + 3 {
        return Aborted, bs;
      }
      n := length - 3 - headerLength;
      if left < n * 8 {
        return Malformed, bs;
      }
    } else if left % 8 != 0 {
      return Aborted, bs;
    }
    bs := Bytes(br, n, data);
    err := Ok;
  }

  // ------------------------------------------------------------------ the packets that are written

  predicate Delivers(payload: Payload, p: Pes) {
    payload.flags == 2 && payload.pts == p.pts && payload.data == p.data
  }

  /** The header that the multiplexer writes: a PTS and nothing else. */
  function AsHead(p: Pes): PesHead {
    PesHead(p.streamId, PesLength(p), Flags(0, 0, 1, 0, 0, 0, 0, 0, 0), Pts(p.pts), [], [], [])
  }

  /** It is one of the headers that are parsed, and the packet carries all its data. */
  lemma WrittenHead(p: Pes)
    requires PesOk(p)
    ensures HeadOk(AsHead(p)) && ByteBits(PesBytes(p)) == HeadBits(AsHead(p), ByteBits(p.data))
    ensures Whole(AsHead(p), p.data) && Carried(AsHead(p), p.data) == p.data
  {
    PesIsBits(p);
    PtsOnly(p, ByteBits(p.data));
  }

  lemma PtsOnly(p: Pes, rest: seq<bool>)
    ensures PayloadBits(AsHead(p), rest) == FlagBits(Field(5, 8, PtsBits(p.pts, rest)))
  {
    assert [] + rest == rest;
    assert StampsBits(Pts(p.pts), ClockBits(AsHead(p), rest)) == PtsBits(p.pts, rest);
  }
}
