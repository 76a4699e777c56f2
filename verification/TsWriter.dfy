/** MPEG2TSWriter (libstagefright/MPEG2TSWriter.cpp): access units cut into 188-byte packets, and the two
    tables in front of them. */
module TsWriter {
  import opened Bits
  import opened BitReader
  import opened Crc
  import opened Sequences
  import opened TsFormat

  const PACKET_SIZE: nat := 188

  function NextCounter(cc: nat): nat { if cc + 1 == 16 then 0 else cc + 1 }

  // ------------------------------------------------------------------ access units

  // The bytes the first packet has too many.
  function FirstPadding(size: nat): nat { if size < 162 then 162 - size else 0 }

  function FirstPayload(p: Pes): Data
    requires PesOk(p)
  {
    PesHeader(p) + if |p.data| < 162 then p.data else p.data[..162]
  }

  /** The first packet of an access unit always has an adaptation field, for the PCR. */
  function FirstWire(pid: nat, cc: nat, p: Pes, pcr: Data): Wire
    requires PesOk(p)
  {
    Wire(true, pid, 3, cc, [0x10] + pcr + Fill(FirstPadding(|p.data|)), FirstPayload(p))
  }

  // The adaptation field of n bytes that fills a packet, without its length byte.
  function PaddingField(n: nat): (bs: Data)
    requires n >= 1
    ensures |bs| == n - 1
  {
    if n >= 2 then [0x00] + Fill(n - 2) else []
  }

  /** A later packet: padded by an adaptation field when it is the last and not full. */
  function NextWire(pid: nat, cc: nat, data: Data, offset: nat): Wire
    requires offset < |data|
  {
    var left := |data| - offset;
    if left < 184 then
      Wire(false, pid, 3, cc, PaddingField(184 - left), data[offset..])
    else
      Wire(false, pid, 1, cc, [], data[offset..offset + 184])
  }

  function MoreWires(pid: nat, cc: nat, data: Data, offset: nat): seq<Wire>
    decreases |data| - offset
  {
    if offset >= |data| then [] else
      var w := NextWire(pid, cc, data, offset);
      [w] + MoreWires(pid, NextCounter(cc), data, offset + |w.payload|)
  }

  /** The packets of an access unit; `cc` is the first packet's counter. */
  function UnitWires(pid: nat, cc: nat, p: Pes, pcr: Data): seq<Wire>
    requires PesOk(p)
  {
    [FirstWire(pid, cc, p, pcr)] + MoreWires(pid, NextCounter(cc), p.data, 162)
  }

  /** A well-formed packet of 188 bytes with no payload lost. */
  predicate GoodWire(w: Wire, pid: nat) {
    WireOk(w) && w.pid == pid && |Encoded(w)| == PACKET_SIZE && |w.payload| > 0
  }

  lemma FirstWireGood(pid: nat, cc: nat, p: Pes, pcr: Data)
    requires PesOk(p) && pid < 0x2000 && cc < 16 && |pcr| == 6
    ensures GoodWire(FirstWire(pid, cc, p, pcr), pid)
  {}

  lemma NextWireGood(pid: nat, cc: nat, data: Data, offset: nat)
    requires offset < |data| && pid < 0x2000 && cc < 16
    ensures GoodWire(NextWire(pid, cc, data, offset), pid)
  {}

  /** All packets of a unit are 188 bytes, on its PID, with consecutive counters. */
  predicate InSequence(ws: seq<Wire>, pid: nat, cc: nat) {
    ws == [] || (GoodWire(ws[0], pid) && ws[0].cc == cc && InSequence(ws[1..], pid, NextCounter(cc)))
  }

  function Payloads(ws: seq<Wire>): Data {
    if ws == [] then [] else ws[0].payload + Payloads(ws[1..])
  }

  lemma {:induction false} MoreWiresCarry(pid: nat, cc: nat, data: Data, offset: nat)
    requires pid < 0x2000 && cc < 16
    ensures var ws := MoreWires(pid, cc, data, offset);
            && InSequence(ws, pid, cc)
            && Payloads(ws) == (if offset >= |data| then [] else data[offset..])
            && forall k :: 0 <= k < |ws| ==> !ws[k].start
    decreases |data| - offset
  {
    if offset < |data| {
      NextWireGood(pid, cc, data, offset);
      var w := NextWire(pid, cc, data, offset);
      var next := offset + |w.payload|;
      MoreWiresCarry(pid, NextCounter(cc), data, next);
      assert MoreWires(pid, cc, data, offset)[1..] == MoreWires(pid, NextCounter(cc), data, next);
      if next < |data| {
        SplitTail(data, offset, next);
      } else {
        assert w.payload + [] == data[offset..];
      }
    }
  }

  /** Nothing is lost: the payloads, put together, are the PES packet; only the first packet starts one. */
  lemma UnitWiresCarry(pid: nat, cc: nat, p: Pes, pcr: Data)
    requires PesOk(p) && pid < 0x2000 && cc < 16 && |pcr| == 6
    ensures var ws := UnitWires(pid, cc, p, pcr);
            && InSequence(ws, pid, cc)
            && Payloads(ws) == PesBytes(p)
            && ws[0].start && forall k :: 0 < k < |ws| ==> !ws[k].start
  {
    FirstWireGood(pid, cc, p, pcr);
    MoreWiresCarry(pid, NextCounter(cc), p.data, 162);
    var ws, more := UnitWires(pid, cc, p, pcr), MoreWires(pid, NextCounter(cc), p.data, 162);
    assert ws[1..] == more;
    if |p.data| <= 162 {
      assert p.data[..|p.data|] == p.data && FirstPayload(p) + [] == FirstPayload(p);
    } else {
      Associative(PesHeader(p), p.data[..162], p.data[162..]);
      assert p.data[..162] + p.data[162..] == p.data;
    }
  }

  // ------------------------------------------------------------------ tables

  const PMT_PID: nat := 0x1e0
  const AAC: nat := 0x0f
  const AVC: nat := 0x1b

  datatype Source = Source(streamType: nat, cc: nat)

  function PidOf(i: nat): nat { 0x1e0 + i + 1 }

  function StreamId(streamType: nat): nat { if streamType == AAC then 0xc0 else 0xe0 }

  /** One program, number 1, its map on PMT_PID. */
  const PAT_SECTION: Data := [0x00, 0xb0, 0x0d, 0x00, 0x00, 0xc3, 0x00, 0x00, 0x00, 0x01, 0xe1, 0xe0]

  function MapEntry(streamType: byte, pid: nat): (bs: Data)
    requires pid < 0x2000
    ensures |bs| == 5
  {
    [streamType, 0xe0 + pid / 256, pid % 256, 0xf0, 0x00]
  }

  // The entries of sources 0 to n.
  function MapEntries(sources: seq<Source>, n: nat): (bs: Data)
    requires n <= |sources| <= 33 && forall i :: 0 <= i < |sources| ==> sources[i].streamType < 256
    ensures |bs| == 5 * n
  {
    if n == 0 then [] else MapEntries(sources, n - 1) + MapEntry(sources[n - 1].streamType, PidOf(n - 1))
  }

  function PmtSection(sources: seq<Source>): (bs: Data)
    requires |sources| <= 33 && forall i :: 0 <= i < |sources| ==> sources[i].streamType < 256
    ensures |bs| == 12 + 5 * |sources|
  {
    [0x02, 0xb0, 5 * |sources| + 13] + (PMT_MIDDLE + ([0xf0, 0x00] + MapEntries(sources, |sources|)))
  }

  /** Program number 1, version, section numbers, PCR PID 0x1e1. */
  const PMT_MIDDLE: Data := [0x00, 0x01, 0xc3, 0x00, 0x00, 0xe1, 0xe1]

  /** A section in a packet of its own: pointer field, section, its CRC, padding. */
  function SectionWire(pid: nat, cc: nat, section: Data, crc: Data): Wire
    requires |section| + |crc| <= 183
  {
    Wire(true, pid, 1, cc, [], [0x00] + section + crc + Fill(183 - |section| - |crc|))
  }

  function SectionCrc(section: Data): (bs: Data)
    ensures |bs| == 4
  {
    CrcBytes(CrcOf(ToBits(POLYNOMIAL, 32), ALL_ONES, section))
  }

  // ------------------------------------------------------------------ the packet buffer

  /** A buffer of padding bytes. */
  method NewBuffer() returns (buffer: array<byte>)
    ensures fresh(buffer) && buffer.Length == PACKET_SIZE && buffer[..] == [] + Fill(PACKET_SIZE)
  {
    buffer := new byte[PACKET_SIZE];
    var i := 0;
    while i < PACKET_SIZE
      invariant 0 <= i <= PACKET_SIZE && buffer[..i] == Fill(i)
    {
      buffer[i] := 0xff;
      assert buffer[..i + 1] == buffer[..i] + [0xff];
      i := i + 1;
    }
    assert buffer[..] == buffer[..PACKET_SIZE];
    assert [] + Fill(PACKET_SIZE) == Fill(PACKET_SIZE);
  }

  /** Writes bytes at the pointer; `done` is what is in front of it and padding is behind it. */
  method Put(buffer: array<byte>, ptr: nat, bs: Data, ghost done: Data) returns (ptr': nat)
    requires buffer.Length == PACKET_SIZE && ptr == |done| && ptr + |bs| <= PACKET_SIZE
    requires buffer[..] == done + Fill(PACKET_SIZE - ptr)
    modifies buffer
    ensures ptr' == ptr + |bs| && buffer[..] == (done + bs) + Fill(PACKET_SIZE - ptr')
  {
    forall i | 0 <= i < |bs| {
      buffer[ptr + i] := bs[i];
    }
    ptr' := ptr + |bs|;
    FillMore(|bs|, PACKET_SIZE - ptr');
    Overwrite(done, Fill(|bs|), bs, Fill(PACKET_SIZE - ptr'), buffer[..]);
  }

  /** The adaptation field that only pads: its length, and if there is room flags of zero. */
  method PutPadding(buffer: array<byte>, ptr: nat, padding: nat, ghost done: Data) returns (ptr': nat)
    requires buffer.Length == PACKET_SIZE && ptr == |done| && 1 <= padding <= 184 && ptr + padding <= PACKET_SIZE
    requires buffer[..] == done + Fill(PACKET_SIZE - ptr)
    modifies buffer
    ensures ptr' == ptr + padding
    ensures buffer[..] == (done + ([padding - 1] + PaddingField(padding))) + Fill(PACKET_SIZE - ptr')
  {
    var length: byte := padding - 1;
    ptr' := Put(buffer, ptr, [length], done);
    if padding >= 2 {
      ptr' := Put(buffer, ptr', [0x00], done + [length]);
      Skipped(done + [length] + [0x00], padding - 2, PACKET_SIZE - ptr');
      PaddingParts(done, length, padding);
      ptr' := ptr' + padding - 2;
    } else {
      assert [length] + [] == [length];
    }
  }

  lemma PaddingParts(done: Data, length: byte, padding: nat)
    requires padding >= 2
    ensures done + [length] + [0x00] + Fill(padding - 2) == done + ([length] + PaddingField(padding))
  {
    FourParts(done, [length], [0x00], Fill(padding - 2));
  }

  lemma FourParts<T>(a: seq<T>, b: seq<T>, c: seq<T>, d: seq<T>)
    ensures a + b + c + d == a + (b + (c + d))
  {}

  lemma Overwrite(done: Data, was: Data, bs: Data, end: Data, r: Data)
    requires |was| == |bs| && |r| == |done| + |bs| + |end|
    requires forall i :: 0 <= i < |bs| ==> r[|done| + i] == bs[i]
    requires forall i :: 0 <= i < |r| && !(|done| <= i < |done| + |bs|) ==> r[i] == (done + (was + end))[i]
    ensures r == (done + bs) + end
  {}

  // The pointer moves over padding.
  lemma Skipped(done: Data, n: nat, left: nat)
    requires n <= left
    ensures done + Fill(left) == (done + Fill(n)) + Fill(left - n)
  {
    FillMore(n, left - n);
    Associative(done, Fill(n), Fill(left - n));
  }

  // ------------------------------------------------------------------ the writer

  function LaidOut(ws: seq<Wire>): (packets: seq<Data>)
    requires forall k :: 0 <= k < |ws| ==> WireOk(ws[k])
    ensures |packets| == |ws| && forall k :: 0 <= k < |ws| ==> packets[k] == Encoded(ws[k])
  {
    seq(|ws|, k requires 0 <= k < |ws| => Encoded(ws[k]))
  }

  predicate AllOk(ws: seq<Wire>) {
    forall k :: 0 <= k < |ws| ==> WireOk(ws[k])
  }

  lemma {:induction false} InSequenceOk(ws: seq<Wire>, pid: nat, cc: nat)
    requires InSequence(ws, pid, cc)
    ensures AllOk(ws)
  {
    if ws != [] {
      InSequenceOk(ws[1..], pid, NextCounter(cc));
      forall k | 0 <= k < |ws| ensures WireOk(ws[k]) {
        if k > 0 { assert ws[k] == ws[1..][k - 1]; }
      }
    }
  }

  predicate SourcesOk(sources: seq<Source>) {
    |sources| <= 33 && forall i :: 0 <= i < |sources| ==> sources[i].cc < 16 && sources[i].streamType in {AAC, AVC}
  }

  /** The PES packet of an access unit. */
  function PesOf(streamType: nat, timeUs: nat, data: Data): Pes {
    Pes(StreamId(streamType), ToPts(timeUs) % 0x1_0000_0000, data)
  }

  class MPEG2TSWriter {
    const crcTable: seq<word>            // mCrcTable
    var sources: seq<Source>             // mSources
    var patCounter: nat                  // mPATContinuityCounter
    var pmtCounter: nat                  // mPMTContinuityCounter
    var packetsWritten: nat              // mNumTSPacketsWritten
    var packetsBeforeMeta: nat           // mNumTSPacketsBeforeMeta
    var file: seq<Data>                  // what internalWrite was given

    ghost predicate Valid()
      reads this
    {
      SourcesOk(sources) && patCounter < 16 && pmtCounter < 16 && IsTable(ToBits(POLYNOMIAL, 32), crcTable)
    }

    constructor (table: seq<word>, sources: seq<Source>)
      requires IsTable(ToBits(POLYNOMIAL, 32), table) && SourcesOk(sources)
      ensures Valid() && this.sources == sources && file == [] && patCounter == pmtCounter == 0
      ensures packetsWritten == packetsBeforeMeta == 0
    {
      crcTable, this.sources, file := table, sources, [];
      patCounter, pmtCounter, packetsWritten, packetsBeforeMeta := 0, 0, 0, 0;
    }

    method Count(i: nat) returns (cc: nat)
      requires Valid() && i < |sources|
      modifies `sources
      ensures Valid() && cc == NextCounter(old(sources[i].cc))
      ensures sources == old(sources)[i := old(sources[i]).(cc := cc)]
    {
      cc := if sources[i].cc + 1 == 16 then 0 else sources[i].cc + 1;
      sources := sources[i := sources[i].(cc := cc)];
    }

    /** Cuts an access unit into packets; `clock` is its PCR, a multiple of 1 / 27 MHz. */
    method WriteAccessUnit(i: nat, timeUs: nat, data: Data, clock: nat) returns (ghost ws: seq<Wire>)
      requires Valid() && i < |sources|
      requires |data| + 8 >= 65536 ==> sources[i].streamType == AVC
      modifies `sources, `file
      ensures var p := PesOf(old(sources[i].streamType), timeUs, data);
              PesOk(p) && ws == UnitWires(PidOf(i), NextCounter(old(sources[i].cc)), p, PcrBytes(clock))
      ensures InSequence(ws, PidOf(i), NextCounter(old(sources[i].cc))) && AllOk(ws)
      ensures file == old(file) + LaidOut(ws)
      ensures Valid() && i < |sources| && sources[i].cc < 16
      ensures sources == old(sources)[i := old(sources[i]).(cc := sources[i].cc)]
      ensures sources[i].cc == CounterAfter(old(sources[i].cc), |ws|)
    {
      var cc := Count(i);
      var p, pcr := PesOf(sources[i].streamType, timeUs, data), PcrBytes(clock);
      UnitWiresAre(PidOf(i), cc, p, pcr);
      WriteFirst(PidOf(i), cc, p, pcr);
      ghost var first := FirstWire(PidOf(i), cc, p, pcr);
      ghost var more := WriteRest(i, data, if |data| < 162 then |data| else 162);
      ws := UnitWires(PidOf(i), cc, p, pcr);
      FirstAndRest(old(file), file, first, more, ws);
      CounterShift(old(sources[i].cc), |more|);
    }

    // The loop: everything from `offset` on.
    method WriteRest(i: nat, data: Data, offset: nat) returns (ghost ws: seq<Wire>)
      requires Valid() && i < |sources|
      modifies `sources, `file
      ensures Valid() && i < |sources| && sources == old(sources)[i := old(sources[i]).(cc := sources[i].cc)]
      ensures ws == MoreWires(PidOf(i), NextCounter(old(sources[i].cc)), data, offset) && AllOk(ws)
      ensures file == old(file) + LaidOut(ws)
      ensures sources[i].cc == CounterAfter(old(sources[i].cc), |ws|)
    {
      ws := [];
      ghost var cc0, all := sources[i].cc, MoreWires(PidOf(i), NextCounter(sources[i].cc), data, offset);
      ghost var rest := all;
      WrittenNone(file, all);
      var at := offset;
      while at < |data|
        invariant Valid() && i < |sources|
        invariant sources == old(sources)[i := old(sources[i]).(cc := sources[i].cc)]
        invariant sources[i].cc == CounterAfter(cc0, |ws|)
        invariant rest == MoreWires(PidOf(i), NextCounter(sources[i].cc), data, at)
        invariant Written(old(file), file, all, ws, rest)
        decreases |data| - at
      {
        ghost var before, w := file, rest[0];
        MoreWiresNext(PidOf(i), NextCounter(sources[i].cc), data, at);
        at := WriteMore(i, data, at);
        WrittenOne(old(file), before, all, ws, w, rest, rest[1..]);
        rest := rest[1..];
        ws := ws + [w];
      }
      WrittenAll(old(file), file, all, ws);
    }

    // The body of the loop: the next packet, with the next counter.
    method WriteMore(i: nat, data: Data, offset: nat) returns (offset': nat)
      requires Valid() && i < |sources| && offset < |data|
      modifies `sources, `file
      ensures Valid() && sources == old(sources)[i := old(sources[i]).(cc := NextCounter(old(sources[i].cc)))]
      ensures var w := NextWire(PidOf(i), NextCounter(old(sources[i].cc)), data, offset);
              WireOk(w) && file == old(file) + [Encoded(w)] && offset < offset' == offset + |w.payload|
    {
      var cc := Count(i);
      offset' := WriteNext(PidOf(i), cc, data, offset);
    }

    method WriteFirst(pid: nat, cc: nat, p: Pes, pcr: Data)
      requires PesOk(p) && pid < 0x2000 && cc < 16 && |pcr| == 6
      modifies `file
      ensures WireOk(FirstWire(pid, cc, p, pcr)) && file == old(file) + [Encoded(FirstWire(pid, cc, p, pcr))]
    {
      FirstWireGood(pid, cc, p, pcr);
      var buffer := NewBuffer();
      var padding := FirstPadding(|p.data|);
      var header := Header(true, pid, 3, cc);
      var ptr := Put(buffer, 0, header, []);
      var head: Data := [padding + 7, 0x10];
      ptr := Put(buffer, ptr, head, [] + header);
      ptr := Put(buffer, ptr, pcr, [] + header + head);
      Skipped([] + header + head + pcr, padding, PACKET_SIZE - ptr);
      ptr := ptr + padding;
      ptr := Put(buffer, ptr, PesHeader(p), [] + header + head + pcr + Fill(padding));
      var copy := if |p.data| < PACKET_SIZE - ptr then |p.data| else PACKET_SIZE - ptr;
      ptr := Put(buffer, ptr, p.data[..copy], [] + header + head + pcr + Fill(padding) + PesHeader(p));
      FirstLayout(header, padding + 7, pcr, Fill(padding), PesHeader(p), p.data[..copy]);
      assert p.data[..|p.data|] == p.data;
      file := file + [buffer[..]];
    }

    method WriteNext(pid: nat, cc: nat, data: Data, offset: nat) returns (offset': nat)
      requires offset < |data| && pid < 0x2000 && cc < 16
      modifies `file
      ensures WireOk(NextWire(pid, cc, data, offset)) && file == old(file) + [Encoded(NextWire(pid, cc, data, offset))]
      ensures offset' == offset + |NextWire(pid, cc, data, offset).payload|
    {
      var buffer := NewBuffer();
      var last := |data| - offset < 184;
      var header := Header(false, pid, if last then 3 else 1, cc);
      var ptr := Put(buffer, 0, header, []);
      ghost var done := [] + header;
      if last {
        var padding := 184 - (|data| - offset);
        ptr := PutPadding(buffer, ptr, padding, done);
        done := done + ([padding - 1] + PaddingField(padding));
      }
      var copy := if |data| - offset > PACKET_SIZE - ptr then PACKET_SIZE - ptr else |data| - offset;
      ptr := Put(buffer, ptr, data[offset..offset + copy], done);
      NextLayout(pid, cc, data, offset, buffer[..]);
      file := file + [buffer[..]];
      offset' := offset + copy;
    }

    /** The tables are written once: the packet counter that should bring them round again never moves. */
    method WriteTS() returns (ghost ws: seq<Wire>)
      requires Valid()
      modifies `patCounter, `pmtCounter, `packetsBeforeMeta, `file
      ensures Valid() && AllOk(ws) && file == old(file) + LaidOut(ws)
      ensures old(packetsWritten) < old(packetsBeforeMeta) ==> ws == [] && packetsBeforeMeta == old(packetsBeforeMeta)
      ensures old(packetsWritten) >= old(packetsBeforeMeta) ==>
                && packetsBeforeMeta == old(packetsWritten) + 2500
                && ws == TableWires(sources, NextCounter(old(patCounter)), NextCounter(old(pmtCounter)))
    {
      ws := [];
      assert file + [] == file;
      if packetsWritten >= packetsBeforeMeta {
        WriteTables();
        packetsBeforeMeta := packetsWritten + 2500;
        ws := TableWires(sources, patCounter, pmtCounter);
      }
    }

    method WriteTables()
      requires Valid()
      modifies `patCounter, `pmtCounter, `file
      ensures Valid() && patCounter == NextCounter(old(patCounter)) && pmtCounter == NextCounter(old(pmtCounter))
      ensures var ws := TableWires(sources, patCounter, pmtCounter);
              AllOk(ws) && file == old(file) + LaidOut(ws)
    {
      WriteSections(PAT_SECTION, PmtSection(sources));
    }

    method WriteSections(pat: Data, pmt: Data)
      requires Valid() && |pat| <= 179 && |pmt| <= 179
      modifies `patCounter, `pmtCounter, `file
      ensures Valid() && patCounter == NextCounter(old(patCounter)) && pmtCounter == NextCounter(old(pmtCounter))
      ensures var ws := SectionWires(pat, patCounter, pmt, pmtCounter);
              AllOk(ws) && file == old(file) + LaidOut(ws)
    {
      patCounter := if patCounter + 1 == 16 then 0 else patCounter + 1;
      var first := WriteSection(0, patCounter, pat);
      pmtCounter := if pmtCounter + 1 == 16 then 0 else pmtCounter + 1;
      var second := WriteSection(PMT_PID, pmtCounter, pmt);
      TwoPackets(SectionWire(0, patCounter, pat, SectionCrc(pat)),
          SectionWire(PMT_PID, pmtCounter, pmt, SectionCrc(pmt)));
      Associative(old(file), [first], [second]);
    }

    method WriteSection(pid: nat, cc: nat, section: Data) returns (packet: Data)
      requires IsTable(ToBits(POLYNOMIAL, 32), crcTable) && pid < 0x2000 && cc < 16 && |section| <= 179
      modifies `file
      ensures WireOk(SectionWire(pid, cc, section, SectionCrc(section)))
      ensures packet == Encoded(SectionWire(pid, cc, section, SectionCrc(section))) && file == old(file) + [packet]
    {
      var buffer := NewBuffer();
      var header := Header(true, pid, 1, cc);
      var ptr := Put(buffer, 0, header, []);
      ptr := Put(buffer, ptr, [0x00], [] + header);
      ptr := Put(buffer, ptr, section, [] + header + [0x00]);
      var crc := Crc32(ToBits(POLYNOMIAL, 32), crcTable, ALL_ONES, section);
      ptr := Put(buffer, ptr, CrcBytes(crc), [] + header + [0x00] + section);
      SectionLayout(header, section, CrcBytes(crc), Fill(PACKET_SIZE - ptr));
      packet := buffer[..];
      file := file + [packet];
    }
  }

  function SectionWires(pat: Data, patCc: nat, pmt: Data, pmtCc: nat): seq<Wire>
    requires |pat| <= 179 && |pmt| <= 179
  {
    [SectionWire(0, patCc, pat, SectionCrc(pat)), SectionWire(PMT_PID, pmtCc, pmt, SectionCrc(pmt))]
  }

  function TableWires(sources: seq<Source>, patCc: nat, pmtCc: nat): seq<Wire>
    requires SourcesOk(sources)
  {
    SectionWires(PAT_SECTION, patCc, PmtSection(sources), pmtCc)
  }

  /** The counter after n packets. */
  function CounterAfter(cc: nat, n: nat): nat {
    if n == 0 then cc else NextCounter(CounterAfter(cc, n - 1))
  }

  lemma LaidOutNext(ws: seq<Wire>, w: Wire)
    requires AllOk(ws) && WireOk(w)
    ensures LaidOut(ws + [w]) == LaidOut(ws) + [Encoded(w)]
  {}

  lemma UnitWiresAre(pid: nat, cc: nat, p: Pes, pcr: Data)
    requires PesOk(p) && 0x1e0 < pid < 0x2000 && cc < 16 && |pcr| == 6
    ensures var ws := UnitWires(pid, cc, p, pcr);
            && ws == [FirstWire(pid, cc, p, pcr)]
                     + MoreWires(pid, NextCounter(cc), p.data, if |p.data| < 162 then |p.data| else 162)
            && InSequence(ws, pid, cc) && AllOk(ws)
  {
    UnitWiresCarry(pid, cc, p, pcr);
    InSequenceOk(UnitWires(pid, cc, p, pcr), pid, cc);
  }

  lemma FirstAndRest(before: seq<Data>, file: seq<Data>, first: Wire, more: seq<Wire>, ws: seq<Wire>)
    requires WireOk(first) && AllOk(more) && ws == [first] + more
    requires file == before + [Encoded(first)] + LaidOut(more)
    ensures AllOk(ws) && file == before + LaidOut(ws) && |ws| == |more| + 1
  {
    LaidOutFirst(first, more);
    Associative(before, [Encoded(first)], LaidOut(more));
  }

  lemma LaidOutFirst(w: Wire, more: seq<Wire>)
    requires WireOk(w) && AllOk(more)
    ensures AllOk([w] + more) && LaidOut([w] + more) == [Encoded(w)] + LaidOut(more)
  {}

  lemma {:induction false} CounterShift(cc: nat, n: nat)
    ensures CounterAfter(NextCounter(cc), n) == NextCounter(CounterAfter(cc, n))
  {
    if n > 0 { CounterShift(cc, n - 1); }
  }

  // These packets have been added to the file; the rest of them have not.
  ghost predicate Written(before: seq<Data>, file: seq<Data>, all: seq<Wire>, ws: seq<Wire>, rest: seq<Wire>) {
    AllOk(ws) && file == before + LaidOut(ws) && all == ws + rest
  }

  lemma WrittenNone(file: seq<Data>, all: seq<Wire>)
    ensures Written(file, file, all, [], all)
  {}

  lemma MoreWiresNext(pid: nat, cc: nat, data: Data, offset: nat)
    requires offset < |data|
    ensures var w, rest := NextWire(pid, cc, data, offset), MoreWires(pid, cc, data, offset);
            rest != [] && rest[0] == w && rest[1..] == MoreWires(pid, NextCounter(cc), data, offset + |w.payload|)
  {}

  lemma WrittenAll(before: seq<Data>, file: seq<Data>, all: seq<Wire>, ws: seq<Wire>)
    requires Written(before, file, all, ws, [])
    ensures ws == all && AllOk(ws) && file == before + LaidOut(ws)
  {
    assert ws + [] == ws;
  }

  lemma WrittenOne(before: seq<Data>, file: seq<Data>, all: seq<Wire>, ws: seq<Wire>, w: Wire,
                   more: seq<Wire>, rest: seq<Wire>)
    requires Written(before, file, all, ws, more) && more != [] && w == more[0] && rest == more[1..] && WireOk(w)
    ensures Written(before, file + [Encoded(w)], all, ws + [w], rest)
  {
    assert more == [w] + rest;
    LaidOutNext(ws, w);
    Associative(before, LaidOut(ws), [Encoded(w)]);
    Associative(ws, [w], rest);
  }

  lemma TwoPackets(a: Wire, b: Wire)
    requires WireOk(a) && WireOk(b)
    ensures AllOk([a, b]) && LaidOut([a, b]) == [Encoded(a)] + [Encoded(b)]
  {}

  lemma FirstLayout(header: Data, length: byte, pcr: Data, fill: Data, pes: Data, data: Data)
    ensures [] + header + [length, 0x10] + pcr + fill + pes + data + Fill(0)
         == header + (([length] + ([0x10] + pcr + fill)) + (pes + data))
  {}

  lemma SectionLayout(header: Data, section: Data, crc: Data, fill: Data)
    ensures [] + header + [0x00] + section + crc + fill == header + ([] + ([0x00] + section + crc + fill))
  {}

  lemma NextLayout(pid: nat, cc: nat, data: Data, offset: nat, buffer: Data)
    requires offset < |data| && pid < 0x2000 && cc < 16
    requires var left := |data| - offset;
             buffer == if left >= 184 then [] + Header(false, pid, 1, cc) + data[offset..offset + 184] + Fill(0)
                       else [] + Header(false, pid, 3, cc) + ([183 - left] + PaddingField(184 - left))
                            + data[offset..offset + left] + Fill(0)
    ensures WireOk(NextWire(pid, cc, data, offset)) && buffer == Encoded(NextWire(pid, cc, data, offset))
  {
    NextWireGood(pid, cc, data, offset);
    var left := |data| - offset;
    if left < 184 {
      assert data[offset..offset + left] == data[offset..];
      Packed(Header(false, pid, 3, cc), [183 - left] + PaddingField(184 - left), data[offset..]);
    } else {
      Packed(Header(false, pid, 1, cc), [], data[offset..offset + 184]);
      assert [] + Header(false, pid, 1, cc) + [] == [] + Header(false, pid, 1, cc);
    }
  }

  lemma Packed(header: Data, adaptation: Data, data: Data)
    ensures [] + header + adaptation + data + Fill(0) == header + (adaptation + data)
  {}
}
