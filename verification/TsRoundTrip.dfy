/** The multiplexer and the demultiplexer undo each other. */
module TsRoundTrip {
  import opened Bits
  import opened BitReader
  import opened Crc
  import opened Sequences
  import opened TsFormat
  import opened TsParser
  import opened TsDemux
  import opened TsWriter

  // ------------------------------------------------------------------ the tables are read as written

  // A byte and the next, as fields: four marked bits and a 12-bit length.
  lemma LengthBytes(length: nat, rest: seq<bool>)
    requires length < 256
    ensures Field(0xb0, 8, Field(length, 8, rest)) == Field(11, 4, Field(length, 12, rest))
  {
    Join4(11, 4, 0, Field(length, 8, rest));
    Join8(0, 4, length, rest);
  }

  lemma PatLength(length: nat, rest: seq<bool>)
    requires length < 256
    ensures Field(0xb0, 8, Field(length, 8, rest)) == Field(1, 1, Field(3, 3, Field(length, 12, rest)))
  {
    LengthBytes(length, rest);
    Join3(1, 1, 3, Field(length, 12, rest));
  }

  lemma PmtLength(length: nat, rest: seq<bool>)
    requires length < 256
    ensures Field(0xb0, 8, Field(length, 8, rest)) == Field(1, 1, Field(0, 1, Field(3, 2, Field(length, 12, rest))))
  {
    LengthBytes(length, rest);
    Join2(2, 2, 3, Field(length, 12, rest));
    Join1(1, 1, 0, Field(3, 2, Field(length, 12, rest)));
  }

  // Three reserved bits and a PID.
  lemma PidField(pid: nat, rest: seq<bool>)
    requires pid < 0x2000
    ensures Field(0xe0 + pid / 256, 8, Field(pid % 256, 8, rest)) == Field(7, 3, Field(pid, 13, rest))
  {
    Join5(7, 3, pid / 256, Field(pid % 256, 8, rest));
    Join8(pid / 256, 5, pid % 256, rest);
  }

  // Four reserved bits and a zero length.
  lemma NoLength(rest: seq<bool>)
    ensures Field(0xf0, 8, Field(0, 8, rest)) == Field(15, 4, Field(0, 12, rest))
  {
    Join4(15, 4, 0, Field(0, 8, rest));
    Join8(0, 4, 0, rest);
  }

  const PAT_MIDDLE: Data := [0x00, 0x00, 0xc3, 0x00, 0x00]

  lemma PatEntryFields(number: nat, pid: nat, rest: seq<bool>)
    requires number < 256 && pid < 0x2000
    ensures Field(0, 8, Field(number, 8, Field(0xe0 + pid / 256, 8, Field(pid % 256, 8, rest))))
         == Field(number, 16, Field(7, 3, Field(pid, 13, rest)))
  {
    PidField(pid, rest);
    Join8(0, 8, number, Field(7, 3, Field(pid, 13, rest)));
  }

  lemma OnePatEntry(number: nat, pid: nat, rest: seq<bool>)
    ensures PatEntryBits([PatEntry(number, pid)], rest) == Field(number, 16, Field(7, 3, Field(pid, 13, rest)))
  {
    assert [PatEntry(number, pid)][1..] == [];
  }

  lemma PatEntryBytes(number: byte, pid: nat, tail: Data)
    requires pid < 0x2000
    ensures ByteBits([0x00, number, 0xe0 + pid / 256, pid % 256] + tail) ==
            PatEntryBits([PatEntry(number, pid)], ByteBits(tail))
  {
    var hi: byte, lo: byte := 0xe0 + pid / 256, pid % 256;
    Prepend4(0x00, number, hi, lo, tail);
    FourBytes(0x00, number, hi, lo, tail);
    PatEntryFields(number, pid, ByteBits(tail));
    OnePatEntry(number, pid, ByteBits(tail));
  }

  lemma Prepend3<T>(a: T, b: T, c: T, rest: seq<T>)
    ensures [a, b, c] + rest == [a] + ([b] + ([c] + rest))
  {}

  lemma ThreeBytes(a: byte, b: byte, c: byte, rest: Data)
    ensures ByteBits([a, b, c] + rest) == Field(a, 8, Field(b, 8, Field(c, 8, ByteBits(rest))))
  {
    Prepend3(a, b, c, rest);
    ByteField(a, [b] + ([c] + rest));
    ByteField(b, [c] + rest);
    ByteField(c, rest);
  }

  lemma HeaderBytes(a: byte, b: byte, length: byte, middle: Data, body: Data, whole: seq<bool>)
    requires Field(a, 8, Field(b, 8, Field(length, 8, ByteBits(middle) + ByteBits(body)))) == whole
    ensures ByteBits([a, b, length] + (middle + body)) == whole
  {
    ThreeBytes(a, b, length, middle + body);
    ByteBitsConcat(middle, body);
  }

  lemma PatHeaderBytes(length: nat, entries: seq<PatEntry>, middle: seq<bool>, x: seq<bool>, rest: seq<bool>)
    requires length < 256 && length == 9 + 4 * |entries| && x == middle + PatEntryBits(entries, rest)
    ensures Field(0, 8, Field(0xb0, 8, Field(length, 8, x))) == PatBits(entries, middle, rest)
  {
    PatLength(length, x);
  }

  lemma PatBytesOf(length: byte, entries: seq<PatEntry>, middle: Data, body: Data, rest: seq<bool>)
    requires length == 9 + 4 * |entries| && ByteBits(body) == PatEntryBits(entries, rest)
    ensures ByteBits([0x00, 0xb0, length] + (middle + body)) == PatBits(entries, ByteBits(middle), rest)
  {
    PatHeaderBytes(length, entries, ByteBits(middle), ByteBits(middle) + ByteBits(body), rest);
    HeaderBytes(0x00, 0xb0, length, middle, body, PatBits(entries, ByteBits(middle), rest));
  }

  lemma PatParts(tail: Data)
    ensures PAT_SECTION + tail == [0x00, 0xb0, 0x0d] + (PAT_MIDDLE + ([0x00, 0x01, 0xe1, 0xe0] + tail))
  {}

  lemma PatBytes(tail: Data)
    ensures ByteBits(PAT_SECTION + tail) == PatBits([PatEntry(1, PMT_PID)], ByteBits(PAT_MIDDLE), ByteBits(tail))
  {
    PatParts(tail);
    PatEntryBytes(1, PMT_PID, tail);
    PatBytesOf(0x0d, [PatEntry(1, PMT_PID)], PAT_MIDDLE, [0x00, 0x01, 0xe1, 0xe0] + tail, ByteBits(tail));
  }

  function PatTable(tail: Data): Table { Pat([PatEntry(1, PMT_PID)], ByteBits(PAT_MIDDLE), ByteBits(tail)) }

  lemma PatHolds(tail: Data)
    requires |tail| >= 4
    ensures Holds(PAT_SECTION + tail, PatTable(tail))
  {
    PatBytes(tail);
  }

  /** The streams of the first n sources. */
  function Infos(sources: seq<Source>, n: nat): (infos: seq<StreamInfo>)
    requires n <= |sources|
    ensures |infos| == n
  {
    if n == 0 then [] else Infos(sources, n - 1) + [StreamInfo(sources[n - 1].streamType, PidOf(n - 1))]
  }

  lemma {:induction false} InfosOk(sources: seq<Source>, n: nat)
    requires SourcesOk(sources) && n <= |sources|
    ensures PmtOk(Infos(sources, n))
    ensures forall k :: 0 <= k < n ==> Infos(sources, n)[k] == StreamInfo(sources[k].streamType, PidOf(k))
  {
    if n > 0 { InfosOk(sources, n - 1); }
  }

  lemma {:induction false} InfoBitsAppend(infos: seq<StreamInfo>, e: StreamInfo, rest: seq<bool>)
    ensures InfoBits(infos + [e], rest) == InfoBits(infos, InfoBits([e], rest))
  {
    if infos == [] {
      assert [] + [e] == [e];
    } else {
      assert (infos + [e])[1..] == infos[1..] + [e];
      InfoBitsAppend(infos[1..], e, rest);
    }
  }

  lemma MapEntryBytes(streamType: byte, pid: nat, tail: Data)
    requires pid < 0x2000
    ensures ByteBits(MapEntry(streamType, pid) + tail) == InfoBits([StreamInfo(streamType, pid)], ByteBits(tail))
  {
    var rest := ByteBits(tail);
    var e := StreamInfo(streamType, pid);
    Prepend5(streamType, 0xe0 + pid / 256, pid % 256, 0xf0, 0x00, tail);
    FourBytes(streamType, 0xe0 + pid / 256, pid % 256, 0xf0, [0x00] + tail);
    ByteField(0x00, tail);
    NoLength(rest);
    PidField(pid, Field(15, 4, Field(0, 12, rest)));
    assert [e][1..] == [];
  }

  lemma {:induction false} MapEntriesBytes(sources: seq<Source>, n: nat, tail: Data)
    requires SourcesOk(sources) && n <= |sources|
    ensures ByteBits(MapEntries(sources, n) + tail) == InfoBits(Infos(sources, n), ByteBits(tail))
  {
    if n == 0 {
      assert [] + tail == tail;
    } else {
      var entry := MapEntry(sources[n - 1].streamType, PidOf(n - 1));
      Associative(MapEntries(sources, n - 1), entry, tail);
      MapEntriesBytes(sources, n - 1, entry + tail);
      MapEntryBytes(sources[n - 1].streamType, PidOf(n - 1), tail);
      InfoBitsAppend(Infos(sources, n - 1), StreamInfo(sources[n - 1].streamType, PidOf(n - 1)), ByteBits(tail));
    }
  }

  function PmtMiddle(): (bits: seq<bool>)
    ensures |bits| == 60
  {
    ByteBits(PMT_MIDDLE) + ToBits(15, 4)
  }

  // The part of the section after its length.
  lemma PmtBody(entries: Data, infos: seq<bool>)
    requires ByteBits(entries) == infos
    ensures ByteBits(PMT_MIDDLE + ([0xf0, 0x00] + entries)) == PmtMiddle() + Field(0, 12, infos)
  {
    ByteBitsConcat(PMT_MIDDLE, [0xf0, 0x00] + entries);
    Associative([0xf0], [0x00], entries);
    assert [0xf0, 0x00] == [0xf0] + [0x00];
    ByteField(0xf0, [0x00] + entries);
    ByteField(0x00, entries);
    NoLength(ByteBits(entries));
    Associative(ByteBits(PMT_MIDDLE), ToBits(15, 4), Field(0, 12, infos));
  }

  lemma PmtParts(sources: seq<Source>, tail: Data)
    requires SourcesOk(sources)
    ensures PmtSection(sources) + tail
         == [0x02, 0xb0, 5 * |sources| + 13] + (PMT_MIDDLE + ([0xf0, 0x00] + (MapEntries(sources, |sources|) + tail)))
  {
    FiveParts([0x02, 0xb0, 5 * |sources| + 13], PMT_MIDDLE, [0xf0, 0x00], MapEntries(sources, |sources|), tail);
  }

  lemma FiveParts<T>(a: seq<T>, b: seq<T>, c: seq<T>, d: seq<T>, e: seq<T>)
    ensures (a + (b + (c + d))) + e == a + (b + (c + (d + e)))
  {}

  lemma {:induction false} PmtBytes(sources: seq<Source>, tail: Data)
    requires SourcesOk(sources)
    ensures ByteBits(PmtSection(sources) + tail) == PmtBits(Infos(sources, |sources|), PmtMiddle(), ByteBits(tail))
  {
    var n := |sources|;
    var infos := InfoBits(Infos(sources, n), ByteBits(tail));
    var entries := MapEntries(sources, n) + tail;
    MapEntriesBytes(sources, n, tail);
    PmtBody(entries, infos);
    PmtParts(sources, tail);
    ThreeBytes(0x02, 0xb0, 5 * n + 13, PMT_MIDDLE + ([0xf0, 0x00] + entries));
    PmtLength(5 * n + 13, PmtMiddle() + Field(0, 12, infos));
  }

  function PmtTable(sources: seq<Source>, tail: Data): Table {
    Pmt(Infos(sources, |sources|), PmtMiddle(), ByteBits(tail))
  }

  lemma {:induction false} PmtHolds(sources: seq<Source>, tail: Data)
    requires SourcesOk(sources) && |tail| >= 4
    ensures Holds(PmtSection(sources) + tail, PmtTable(sources, tail))
  {
    PmtBytes(sources, tail);
    InfosOk(sources, |sources|);
    PmtStart(sources, tail);
  }

  lemma PmtStart(sources: seq<Source>, tail: Data)
    requires SourcesOk(sources) && |tail| >= 4
    ensures Complete(PmtSection(sources) + tail)
  {
    var data := PmtSection(sources) + tail;
    assert data[1] == PmtSection(sources)[1] && data[2] == PmtSection(sources)[2];
  }

  // The streams that the map adds.
  lemma {:induction false} AddedStreams(sources: seq<Source>, n: nat)
    requires SourcesOk(sources) && n <= |sources|
    ensures var streams := AddStreams(map[], Infos(sources, n));
            && (forall i :: 0 <= i < n ==>
                  PidOf(i) in streams && streams[PidOf(i)] == Stream(sources[i].streamType, -1, false, []))
            && (forall pid :: pid in streams ==> exists i :: 0 <= i < n && pid == PidOf(i))
  {
    if n > 0 {
      AddedStreams(sources, n - 1);
      assert Infos(sources, n)[..n - 1] == Infos(sources, n - 1);
      var before := AddStreams(map[], Infos(sources, n - 1));
      assert PidOf(n - 1) !in before;
    }
  }

  // ------------------------------------------------------------------ what was muxed and what came out

  datatype AccessUnit = AccessUnit(source: nat, timeUs: nat, data: Data, clock: nat)

  /** The units belong to sources; an audio unit's length fits in 16 bits. */
  predicate UnitOk(types: seq<nat>, u: AccessUnit) {
    u.source < |types| && (|u.data| + 8 >= 65536 ==> types[u.source] == AVC)
  }

  predicate UnitsOk(types: seq<nat>, units: seq<AccessUnit>) {
    && |types| <= 33 && (forall i :: 0 <= i < |types| ==> types[i] in {AAC, AVC})
    && forall k :: 0 <= k < |units| ==> UnitOk(types, units[k])
  }

  /** The access units of source i, in order. */
  function UnitsOf(types: seq<nat>, units: seq<AccessUnit>, i: nat): seq<Pes>
    requires i < |types|
  {
    if units == [] then [] else
      var u := units[|units| - 1];
      UnitsOf(types, units[..|units| - 1], i) + if u.source == i then [PesOf(types[i], u.timeUs, u.data)] else []
  }

  /** What was delivered on a PID, in order. */
  function DeliveredOn(delivered: seq<Delivery>, pid: nat): seq<Payload> {
    if delivered == [] then [] else
      var d := delivered[|delivered| - 1];
      DeliveredOn(delivered[..|delivered| - 1], pid) + if d.pid == pid then [d.payload] else []
  }

  /** The same units, one for one. */
  predicate Match(payloads: seq<Payload>, ps: seq<Pes>) {
    |payloads| == |ps| && forall k :: 0 <= k < |ps| ==> Delivers(payloads[k], ps[k])
  }

  lemma DeliveredOneMore(before: seq<Delivery>, after: seq<Delivery>, pid: nat)
    requires |after| == |before| + 1 && after[..|before|] == before
    ensures DeliveredOn(after, pid)
         == DeliveredOn(before, pid) + if after[|before|].pid == pid then [after[|before|].payload] else []
  {}

  lemma MatchOneMore(payloads: seq<Payload>, ps: seq<Pes>, payload: Payload, p: Pes)
    requires Match(payloads, ps) && Delivers(payload, p)
    ensures Match(payloads + [payload], ps + [p])
  {}

  // ------------------------------------------------------------------ feeding one access unit

  /** The parser knows one program; the stream on this PID is s. */
  predicate StreamIs(st: State, pid: nat, s: Stream) {
    && |st.programs| == 1 && pid in st.programs[0].streams && st.programs[0].streams[pid] == s
    && pid !in st.sections && pid < 0x1fff
  }

  /** Nothing but this stream has changed. */
  predicate OnlyStream(st: State, st': State, pid: nat, s: Stream)
    requires |st.programs| == 1
  {
    st'.programs == Replaced(st.programs, 0, pid, s) && st'.sections == st.sections
  }

  /** The stream before a unit whose first counter is cc: fresh, or holding the unit before. */
  predicate Awaits(s: Stream, cc: nat, last: seq<Pes>) {
    && s.streamType in KNOWN_TYPES && |last| <= 1
    && if last == [] then !s.started && s.buffer == [] && s.expected == -1
       else s.started && PesOk(last[0]) && s.buffer == PesBytes(last[0]) && s.expected == cc
  }

  lemma {:induction false} PayloadsAppend(ws: seq<Wire>, w: Wire)
    ensures Payloads(ws + [w]) == Payloads(ws) + w.payload
  {
    if ws == [] {
      assert [] + [w] == [w] && [w][1..] == [];
      assert w.payload + [] == w.payload && [] + w.payload == w.payload;
    } else {
      assert (ws + [w])[1..] == ws[1..] + [w];
      PayloadsAppend(ws[1..], w);
      Associative(ws[0].payload, Payloads(ws[1..]), w.payload);
    }
  }

  // The first packet of a unit: what was held is delivered, and the new unit begins.
  lemma FirstStep(st: State, st': State, pid: nat, s: Stream, w: Wire, p: Pes, last: seq<Pes>)
    requires StreamIs(st, pid, s) && Awaits(s, w.cc, last) && (last != [] ==> p == last[0]) && w.start && w.cc < 16
    requires OnStream(st, st', pid, w.cc, true, w.payload, p)
    ensures StreamIs(st', pid, Stream(s.streamType, NextCounter(w.cc), true, w.payload))
    ensures OnlyStream(st, st', pid, Stream(s.streamType, NextCounter(w.cc), true, w.payload))
    ensures if last == [] then st'.delivered == st.delivered else
              && |st'.delivered| == |st.delivered| + 1 && st'.delivered[..|st.delivered|] == st.delivered
              && st'.delivered[|st.delivered|].pid == pid && Delivers(st'.delivered[|st.delivered|].payload, p)
  {
    assert Owner(st.programs, pid, 0) == 0;
    assert [] + w.payload == w.payload;
  }

  // A later packet.
  lemma NextStep(st: State, st': State, pid: nat, s: Stream, w: Wire, p: Pes)
    requires StreamIs(st, pid, s) && s.streamType in KNOWN_TYPES && s.started && s.expected == w.cc && !w.start
             && w.cc < 16
    requires OnStream(st, st', pid, w.cc, false, w.payload, p)
    ensures var s' := Stream(s.streamType, NextCounter(w.cc), true, s.buffer + w.payload);
            StreamIs(st', pid, s') && OnlyStream(st, st', pid, s') && st'.delivered == st.delivered
  {
    assert Owner(st.programs, pid, 0) == 0;
  }

  lemma OnlyStreamTwice(a: State, b: State, c: State, pid: nat, s: Stream, s': Stream)
    requires |a.programs| == 1 && OnlyStream(a, b, pid, s) && |b.programs| == 1 && OnlyStream(b, c, pid, s')
    ensures OnlyStream(a, c, pid, s')
  {
    assert a.programs[0].streams[pid := s][pid := s'] == a.programs[0].streams[pid := s'];
    assert c.programs == Replaced(a.programs, 0, pid, s');
  }

  /** The clock of a unit is in its first packet alone, and is read back up to 33 bits of base. */
  lemma ClockComesThrough(pid: nat, cc: nat, p: Pes, clock: nat)
    requires PesOk(p)
    ensures var ws := UnitWires(pid, cc, p, PcrBytes(clock));
            && FieldOk(ws[0].field) && ClockOf(ws[0].field) == [clock % PCR_LIMIT]
            && forall k :: 0 < k < |ws| ==> FieldOk(ws[k].field) && ClockOf(ws[k].field) == []
  {
    var ws := UnitWires(pid, cc, p, PcrBytes(clock));
    assert ws[0].field[1..7] == PcrBytes(clock);
    PcrRoundTrip(clock);
    assert ws[1..] == MoreWires(pid, NextCounter(cc), p.data, 162);
    forall k | 0 < k < |ws| ensures FieldOk(ws[k].field) && ClockOf(ws[k].field) == [] {
      assert ws[k] == ws[1..][k - 1];
      NoMoreClocks(pid, NextCounter(cc), p.data, 162, k - 1);
    }
  }

  lemma {:induction false} NoMoreClocks(pid: nat, cc: nat, data: Data, offset: nat, k: nat)
    requires k < |MoreWires(pid, cc, data, offset)|
    ensures var field := MoreWires(pid, cc, data, offset)[k].field; FieldOk(field) && ClockOf(field) == []
    decreases k
  {
    if k > 0 {
      NoMoreClocks(pid, NextCounter(cc), data, offset + |NextWire(pid, cc, data, offset).payload|, k - 1);
    }
  }

  // What one unit does to the parser.
  predicate UnitFed(st: State, st': State, pid: nat, s': Stream, last: seq<Pes>) {
    && |st.programs| == 1 && StreamIs(st', pid, s') && OnlyStream(st, st', pid, s')
    && if last == [] then st'.delivered == st.delivered else
         && |st'.delivered| == |st.delivered| + 1 && st'.delivered[..|st.delivered|] == st.delivered
         && st'.delivered[|st.delivered|].pid == pid && Delivers(st'.delivered[|st.delivered|].payload, last[0])
  }

  const NO_PES := Pes(0xc0, 0, [])

  method FeedFirst(parser: ATSParser, packet: Data, ghost w: Wire, ghost pid: nat, ghost s: Stream,
          ghost last: seq<Pes>)
    requires StreamIs(parser.St(), pid, s) && Awaits(s, w.cc, last) && GoodWire(w, pid) && w.start
             && packet == Encoded(w)
    modifies parser
    ensures UnitFed(old(parser.St()), parser.St(), pid, Stream(s.streamType, NextCounter(w.cc), true, w.payload), last)
  {
    ghost var before := parser.St();
    ghost var p := if last == [] then NO_PES else last[0];
    assert Owner(before.programs, pid, 0) == 0;
    var err := parser.FeedTSPacket(packet, w, p, PatTable([]));
    FirstStep(before, parser.St(), pid, s, w, p, last);
  }

  method FeedNext(parser: ATSParser, packet: Data, ghost w: Wire, ghost pid: nat, ghost s: Stream)
    requires StreamIs(parser.St(), pid, s) && s.streamType in KNOWN_TYPES && s.started && s.expected == w.cc
    requires GoodWire(w, pid) && !w.start && packet == Encoded(w)
    modifies parser
    ensures var s' := Stream(s.streamType, NextCounter(w.cc), true, s.buffer + w.payload);
            && StreamIs(parser.St(), pid, s') && OnlyStream(old(parser.St()), parser.St(), pid, s')
            && parser.delivered == old(parser.delivered)
  {
    ghost var before := parser.St();
    assert Owner(before.programs, pid, 0) == 0;
    var err := parser.FeedTSPacket(packet, w, NO_PES, PatTable([]));
    NextStep(before, parser.St(), pid, s, w, NO_PES);
  }

  /** All packets of a unit: no gap is seen, and the stream holds exactly the PES packet. */
  method FeedUnit(parser: ATSParser, packets: seq<Data>, ghost ws: seq<Wire>, ghost pid: nat, ghost cc: nat,
          ghost s: Stream, ghost last: seq<Pes>)
    requires StreamIs(parser.St(), pid, s) && Awaits(s, cc, last) && cc < 16
    requires ws != [] && InSequence(ws, pid, cc) && AllOk(ws) && packets == LaidOut(ws)
    requires ws[0].start && forall k :: 0 < k < |ws| ==> !ws[k].start
    modifies parser
    ensures UnitFed(old(parser.St()), parser.St(), pid,
            Stream(s.streamType, CounterAfter(cc, |ws|), true, Payloads(ws)), last)
  {
    FeedFirst(parser, packets[0], ws[0], pid, s, last);
    ghost var c, first := NextCounter(cc), parser.St();
    var k := 1;
    assert ws[..1] == [] + [ws[0]];
    PayloadsAppend([], ws[0]);
    assert [] + ws[0].payload == ws[0].payload;
    while k < |packets|
      invariant 1 <= k <= |ws| && c == CounterAfter(cc, k) < 16 && InSequence(ws[k..], pid, c)
      invariant UnitFed(old(parser.St()), parser.St(), pid, Stream(s.streamType, c, true, Payloads(ws[..k])), last)
    {
      ghost var before, now := parser.St(), Stream(s.streamType, c, true, Payloads(ws[..k]));
      TakeOneMore(ws, k);
      FeedNext(parser, packets[k], ws[k], pid, now);
      PayloadsAppend(ws[..k], ws[k]);
      OnlyStreamTwice(old(parser.St()), before, parser.St(), pid, now,
                      Stream(s.streamType, NextCounter(c), true, Payloads(ws[..k + 1])));
      c := NextCounter(c);
      k := k + 1;
    }
    assert ws[..|ws|] == ws;
  }

  // ------------------------------------------------------------------ feeding the tables

  // The payload of a table packet is a zero byte and the section, then its CRC and padding.
  lemma SectionPayload(pid: nat, cc: nat, section: Data, crc: Data)
    requires |section| + |crc| <= 183
    ensures var w, tail := SectionWire(pid, cc, section, crc), crc + Fill(183 - |section| - |crc|);
            w.payload != [] && w.payload[0] == 0 && w.payload[1..] == section + tail
  {
    var fill := Fill(183 - |section| - |crc|);
    Associative([0x00], section, crc + fill);
    Associative([0x00] + section, crc, fill);
    assert ([0x00] + section + crc + fill)[1..] == section + (crc + fill);
  }

  const START := State([], map[0 := Section([], 0)], [])
  const WITH_PROGRAM := State([Program(1, PMT_PID, map[])], map[0 := Section([], 0), PMT_PID := Section([], 0)], [])

  lemma PatEffect(st': State, tail: Data)
    requires OnTable(START, st', 0, PatTable(tail))
    ensures st' == WITH_PROGRAM
  {
    var e := PatEntry(1, PMT_PID);
    assert [e][..0] == [];
    assert AddPrograms(START, [e]) == AddProgram(START, e);
    assert st'.sections == WITH_PROGRAM.sections;
  }

  lemma {:induction false} PmtEffect(st': State, sources: seq<Source>, tail: Data)
    requires SourcesOk(sources) && OnTable(WITH_PROGRAM, st', PMT_PID, PmtTable(sources, tail))
    ensures st'.programs == [Program(1, PMT_PID, AddStreams(map[], Infos(sources, |sources|)))]
    ensures st'.sections == WITH_PROGRAM.sections && st'.delivered == []
  {
    assert MapOwner(WITH_PROGRAM.programs, PMT_PID, 0) == 0;
    assert !PidsChanged(map[], Infos(sources, |sources|));
    FirstMap(WITH_PROGRAM, st', PMT_PID, Infos(sources, |sources|), PmtMiddle(), ByteBits(tail));
  }

  lemma FirstMap(st: State, st': State, pid: nat, infos: seq<StreamInfo>, middle: seq<bool>, rest: seq<bool>)
    requires OnTable(st, st', pid, Pmt(infos, middle, rest)) && pid != 0 && MapOwner(st.programs, pid, 0) == 0
    requires |st.programs| == 1 && !PidsChanged(st.programs[0].streams, infos)
    ensures st'.programs == [st.programs[0].(streams := AddStreams(st.programs[0].streams, infos))]
    ensures st'.sections == st.sections[pid := Section([], 0)] && st'.delivered == st.delivered
  {}

  // The packet of a section, as FeedTSPacket expects it.
  lemma SectionPacket(st: State, pid: nat, cc: nat, section: Data, t: Table)
    requires |section| <= 179 && pid < 0x1fff && cc < 16 && Holds(section + TableTail(section), t)
             && Expected(st, pid, t)
    ensures var w := SectionWire(pid, cc, section, SectionCrc(section));
            WireOk(w) && Is(Encoded(w), w) && |Encoded(w)| == 188 && TablePacket(st, pid, w.start, w.payload, t)
  {
    SectionPayload(pid, cc, section, SectionCrc(section));
  }

  method FeedTable(parser: ATSParser, packet: Data, ghost pid: nat, ghost cc: nat, ghost section: Data, ghost t: Table)
    requires |section| <= 179 && pid < 0x1fff && cc < 16 && pid in parser.sections
    requires packet == Encoded(SectionWire(pid, cc, section, SectionCrc(section)))
    requires Holds(section + TableTail(section), t) && Expected(parser.St(), pid, t)
    modifies parser
    ensures OnTable(old(parser.St()), parser.St(), pid, t)
  {
    ghost var w := SectionWire(pid, cc, section, SectionCrc(section));
    SectionPacket(parser.St(), pid, cc, section, t);
    var err := parser.FeedTSPacket(packet, w, NO_PES, t);
  }

  // What follows a section in its packet.
  function TableTail(section: Data): Data
    requires |section| <= 179
  {
    SectionCrc(section) + Fill(179 - |section|)
  }

  /** Both tables, as they arrive in the demultiplexer's sections, pass its CRC test. */
  lemma TablesPassCrc(sources: seq<Source>)
    requires SourcesOk(sources)
    ensures var p, data := ToBits(POLYNOMIAL, 32), PAT_SECTION + TableTail(PAT_SECTION);
            Covered(data, 1) <= |data| && CrcOkay(p, data, 1)
    ensures var p, data := ToBits(POLYNOMIAL, 32), PmtSection(sources) + TableTail(PmtSection(sources));
            Covered(data, 1) <= |data| && CrcOkay(p, data, 1)
  {
    SectionPasses(PAT_SECTION);
    PmtStart(sources, [0, 0, 0, 0]);
    SectionPasses(PmtSection(sources));
  }

  lemma SectionPasses(section: Data)
    requires 3 <= |section| <= 179 && section[1] >= 0x80 && SectionLength(section) == |section| + 1
    ensures var p, data := ToBits(POLYNOMIAL, 32), section + TableTail(section);
            Covered(data, 1) <= |data| && CrcOkay(p, data, 1)
  {
    WrittenCrcIsOkay(section, Fill(179 - |section|));
    Associative(section, SectionCrc(section), Fill(179 - |section|));
  }

  method FeedPat(parser: ATSParser, packet: Data, ghost cc: nat, ghost section: Data)
    requires section == PAT_SECTION && cc < 16 && parser.St() == START
    requires packet == Encoded(SectionWire(0, cc, section, SectionCrc(section)))
    modifies parser
    ensures parser.St() == WITH_PROGRAM
  {
    ghost var t := PatTable(TableTail(section));
    PatHolds(TableTail(section));
    FeedTable(parser, packet, 0, cc, section, t);
    PatEffect(parser.St(), TableTail(section));
  }

  method FeedPmt(parser: ATSParser, packet: Data, ghost sources: seq<Source>, ghost cc: nat, ghost section: Data)
    requires SourcesOk(sources) && section == PmtSection(sources) && cc < 16 && parser.St() == WITH_PROGRAM
    requires packet == Encoded(SectionWire(PMT_PID, cc, section, SectionCrc(section)))
    modifies parser
    ensures parser.programs == [Program(1, PMT_PID, AddStreams(map[], Infos(sources, |sources|)))]
    ensures parser.sections == WITH_PROGRAM.sections && parser.delivered == []
  {
    ghost var t := PmtTable(sources, TableTail(section));
    PmtHolds(sources, TableTail(section));
    PmtExpected(t);
    FeedTable(parser, packet, PMT_PID, cc, section, t);
    PmtEffect(parser.St(), sources, TableTail(section));
  }

  lemma PmtExpected(t: Table)
    requires t.Pmt?
    ensures Expected(WITH_PROGRAM, PMT_PID, t) && PMT_PID in WITH_PROGRAM.sections
  {
    assert MapOwner(WITH_PROGRAM.programs, PMT_PID, 0) == 0;
  }

  /** The parser learns exactly the streams of the sources. */
  method FeedTables(parser: ATSParser, packets: seq<Data>, ghost sources: seq<Source>, ghost patCc: nat,
          ghost pmtCc: nat)
    requires SourcesOk(sources) && patCc < 16 && pmtCc < 16 && parser.St() == START
    requires AllOk(TableWires(sources, patCc, pmtCc)) && packets == LaidOut(TableWires(sources, patCc, pmtCc))
    modifies parser
    ensures parser.programs == [Program(1, PMT_PID, AddStreams(map[], Infos(sources, |sources|)))]
    ensures parser.sections == WITH_PROGRAM.sections && parser.delivered == []
  {
    ghost var pat, pmt := PAT_SECTION, PmtSection(sources);
    FeedPat(parser, packets[0], patCc, pat);
    FeedPmt(parser, packets[1], sources, pmtCc, pmt);
  }

  // ------------------------------------------------------------------ any interleaving of access units

  /** Source i and its stream agree: everything but the last unit was delivered, and that is held. */
  predicate Linked(types: seq<nat>, st: State, units: seq<AccessUnit>, i: nat, cc: nat)
    requires i < |types| && |st.programs| == 1
  {
    && cc < 16 && PidOf(i) in st.programs[0].streams
    && var s := st.programs[0].streams[PidOf(i)];
    var us, out := UnitsOf(types, units, i), DeliveredOn(st.delivered, PidOf(i));
       && s.streamType == types[i]
       && if us == [] then !s.started && s.buffer == [] && s.expected == -1 && out == []
          else && s.started && s.expected == NextCounter(cc)
               && PesOk(us[|us| - 1]) && s.buffer == PesBytes(us[|us| - 1]) && Match(out, us[..|us| - 1])
  }

  predicate AllLinked(types: seq<nat>, st: State, units: seq<AccessUnit>, sources: seq<Source>) {
    && |st.programs| == 1 && st.sections == WITH_PROGRAM.sections && |sources| == |types|
    && (forall pid :: pid in st.programs[0].streams ==> PidOf(0) <= pid < PidOf(|types|))
    && forall i :: 0 <= i < |types| ==> Linked(types, st, units, i, sources[i].cc)
  }

  // The unit that is still held.
  function Last(us: seq<Pes>): seq<Pes> { if us == [] then [] else [us[|us| - 1]] }

  // Source j after one of its units.
  lemma UnitLinksOwn(types: seq<nat>, st: State, st': State, units: seq<AccessUnit>, u: AccessUnit, cc: nat, cc': nat,
          s': Stream)
    requires u.source < |types| && |st.programs| == 1 && Linked(types, st, units, u.source, cc) && cc' < 16
    requires UnitFed(st, st', PidOf(u.source), s', Last(UnitsOf(types, units, u.source)))
    requires PesOk(PesOf(types[u.source], u.timeUs, u.data))
    requires s' == Stream(types[u.source], NextCounter(cc'), true, PesBytes(PesOf(types[u.source], u.timeUs, u.data)))
    ensures |st'.programs| == 1 && Linked(types, st', units + [u], u.source, cc')
  {
    var i, us := u.source, UnitsOf(types, units, u.source);
    var p := PesOf(types[i], u.timeUs, u.data);
    assert (units + [u])[..|units|] == units;
    assert UnitsOf(types, units + [u], i) == us + [p];
    if us != [] {
      DeliveredOneMore(st.delivered, st'.delivered, PidOf(i));
      MatchOneMore(DeliveredOn(st.delivered, PidOf(i)), us[..|us| - 1], st'.delivered[|st.delivered|].payload,
          us[|us| - 1]);
      assert us[..|us| - 1] + [us[|us| - 1]] == us;
    }
    assert (us + [p])[..|us|] == us;
  }

  // The other sources are not affected.
  lemma UnitLinksOther(types: seq<nat>, st: State, st': State, units: seq<AccessUnit>, u: AccessUnit, i: nat, cc: nat,
          s': Stream)
    requires u.source < |types| && i < |types| && i != u.source && |st.programs| == 1 && Linked(types, st, units, i, cc)
    requires UnitFed(st, st', PidOf(u.source), s', Last(UnitsOf(types, units, u.source)))
    ensures |st'.programs| == 1 && Linked(types, st', units + [u], i, cc)
  {
    assert (units + [u])[..|units|] == units;
    assert UnitsOf(types, units + [u], i) == UnitsOf(types, units, i) + [];
    if UnitsOf(types, units, u.source) != [] {
      DeliveredOneMore(st.delivered, st'.delivered, PidOf(i));
    }
  }

  predicate TypesOf(types: seq<nat>, sources: seq<Source>) {
    |types| == |sources| && forall i :: 0 <= i < |types| ==> sources[i].streamType == types[i]
  }

  /** One access unit goes through both. */
  method RemuxUnit(writer: MPEG2TSWriter, parser: ATSParser, u: AccessUnit, ghost types: seq<nat>,
          ghost units: seq<AccessUnit>)
    requires writer.Valid() && UnitOk(types, u) && TypesOf(types, writer.sources)
    requires AllLinked(types, parser.St(), units, writer.sources)
    modifies writer`sources, writer`file, parser
    ensures writer.Valid() && TypesOf(types, writer.sources)
    ensures AllLinked(types, parser.St(), units + [u], writer.sources)
  {
    ghost var j, before, sources0 := u.source, parser.St(), writer.sources;
    ghost var cc := NextCounter(sources0[j].cc);
    ghost var us := UnitsOf(types, units, j);
    var n := |writer.file|;
    ghost var p := PesOf(types[j], u.timeUs, u.data);
    assert Linked(types, before, units, j, sources0[j].cc);
    ghost var ws := writer.WriteAccessUnit(u.source, u.timeUs, u.data, u.clock);
    UnitWiresCarry(PidOf(j), cc, p, PcrBytes(u.clock));
    FeedUnit(parser, writer.file[n..], ws, PidOf(j), cc, before.programs[0].streams[PidOf(j)], Last(us));
    CounterShift(sources0[j].cc, |ws|);
    ghost var s' := Stream(types[j], NextCounter(writer.sources[j].cc), true, PesBytes(p));
    UnitLinksAll(types, before, parser.St(), units, u, sources0, writer.sources, s');
    TypesKept(types, sources0, writer.sources, j);
  }

  lemma TypesKept(types: seq<nat>, sources: seq<Source>, sources': seq<Source>, j: nat)
    requires TypesOf(types, sources) && j < |sources| == |sources'| && sources'[j].streamType == sources[j].streamType
    requires sources' == sources[j := sources'[j]]
    ensures TypesOf(types, sources')
  {}

  lemma UnitLinksAll(types: seq<nat>, st: State, st': State, units: seq<AccessUnit>, u: AccessUnit,
                     sources: seq<Source>, sources': seq<Source>, s': Stream)
    requires AllLinked(types, st, units, sources) && u.source < |types| && |sources'| == |sources|
    requires sources'[u.source].cc < 16 && sources' == sources[u.source := sources'[u.source]]
    requires UnitFed(st, st', PidOf(u.source), s', Last(UnitsOf(types, units, u.source)))
    requires PesOk(PesOf(types[u.source], u.timeUs, u.data))
    requires s' == Stream(types[u.source], NextCounter(sources'[u.source].cc), true,
                          PesBytes(PesOf(types[u.source], u.timeUs, u.data)))
    ensures AllLinked(types, st', units + [u], sources')
  {
    var j := u.source;
    assert Linked(types, st, units, j, sources[j].cc);
    UnitLinksOwn(types, st, st', units, u, sources[j].cc, sources'[j].cc, s');
    forall i | 0 <= i < |types| && i != j ensures Linked(types, st', units + [u], i, sources'[i].cc) {
      assert Linked(types, st, units, i, sources[i].cc);
      UnitLinksOther(types, st, st', units, u, i, sources[i].cc, s');
    }
  }

  // Before the first unit.
  lemma {:induction false} TablesLink(types: seq<nat>, st: State, sources: seq<Source>)
    requires SourcesOk(sources) && TypesOf(types, sources) && st.sections == WITH_PROGRAM.sections && st.delivered == []
    requires st.programs == [Program(1, PMT_PID, AddStreams(map[], Infos(sources, |sources|)))]
    ensures AllLinked(types, st, [], sources)
  {
    AddedStreams(sources, |sources|);
  }

  /** The first call of writeTS writes the tables, and no later one does. */
  method RemuxTables(writer: MPEG2TSWriter, parser: ATSParser, ghost types: seq<nat>)
    requires writer.Valid() && writer.file == [] && TypesOf(types, writer.sources) && parser.St() == START
    requires writer.packetsWritten == writer.packetsBeforeMeta == 0
    modifies writer`patCounter, writer`pmtCounter, writer`packetsBeforeMeta, writer`file, parser
    ensures writer.Valid() && writer.packetsBeforeMeta == 2500
    ensures AllLinked(types, parser.St(), [], writer.sources)
  {
    ghost var patCc, pmtCc := NextCounter(writer.patCounter), NextCounter(writer.pmtCounter);
    ghost var ws := writer.WriteTS();
    assert [] + LaidOut(ws) == LaidOut(ws);
    FeedTables(parser, writer.file, writer.sources, patCc, pmtCc);
    TablesLink(types, parser.St(), writer.sources);
  }

  // ------------------------------------------------------------------ the last units

  /** All of source i has come out. */
  predicate Done(types: seq<nat>, delivered: seq<Delivery>, units: seq<AccessUnit>, i: nat)
    requires i < |types|
  {
    Match(DeliveredOn(delivered, PidOf(i)), UnitsOf(types, units, i))
  }

  // What is held on one PID.
  function HeldOn(ps: seq<Held>, pid: nat): seq<Pes> {
    if ps == [] then [] else
      var p := ps[|ps| - 1];
      HeldOn(ps[..|ps| - 1], pid) + if p.pid == pid then [p.pes] else []
  }

  lemma {:induction false} HeldOnePerPid(held: map<nat, Pes>, n: nat, pid: nat)
    ensures HeldOn(HeldTo(held, n), pid) == if pid < n && pid in held then [held[pid]] else []
  {
    if n > 0 {
      HeldOnePerPid(held, n - 1, pid);
      var most := HeldTo(held, n - 1);
      if n - 1 in held {
        assert HeldTo(held, n)[..|most|] == most;
      } else {
        assert HeldTo(held, n) == most + [] == most;
      }
    }
  }

  // Handing on what is held adds to each PID what was held on it.
  lemma {:induction false} DeliveredExtended(before: seq<Delivery>, after: seq<Delivery>, ps: seq<Held>, pid: nat,
          us: seq<Pes>)
    requires Extended(before, after, ps) && Match(DeliveredOn(before, pid), us)
    ensures Match(DeliveredOn(after, pid), us + HeldOn(ps, pid))
    decreases |ps|
  {
    if ps == [] {
      assert after == before;
    } else {
      var n := |ps| - 1;
      var most, p := after[..|before| + n], ps[n];
      assert most[..|before|] == before;
      DeliveredExtended(before, most, ps[..n], pid, us);
      DeliveredOneMore(most, after, pid);
      assert after[|before| + n] == after[|most|];
      if p.pid == pid {
        MatchOneMore(DeliveredOn(most, pid), us + HeldOn(ps[..n], pid), after[|most|].payload, p.pes);
        Associative(us, HeldOn(ps[..n], pid), [p.pes]);
      }
    }
  }

  // The last unit of every source that has one.
  function LastUnits(types: seq<nat>, units: seq<AccessUnit>): map<nat, Pes> {
    map pid: nat | pid < PIDS && UnitsOn(types, units, pid) != [] ::
      UnitsOn(types, units, pid)[|UnitsOn(types, units, pid)| - 1]
  }

  function UnitsOn(types: seq<nat>, units: seq<AccessUnit>, pid: nat): seq<Pes> {
    if PidOf(0) <= pid < PidOf(|types|) then UnitsOf(types, units, pid - PidOf(0)) else []
  }

  lemma LinkedHolds(types: seq<nat>, st: State, units: seq<AccessUnit>, i: nat, cc: nat)
    requires i < |types| <= 33 && |st.programs| == 1 && Linked(types, st, units, i, cc)
    ensures var s, held := st.programs[0].streams[PidOf(i)], LastUnits(types, units);
            StreamHolds(s, held, PidOf(i))
  {
    assert UnitsOn(types, units, PidOf(i)) == UnitsOf(types, units, i);
  }

  lemma StreamHoldsLast(types: seq<nat>, st: State, units: seq<AccessUnit>, sources: seq<Source>, pid: nat)
    requires AllLinked(types, st, units, sources) && |types| <= 33 && pid in st.programs[0].streams
    ensures StreamHolds(st.programs[0].streams[pid], LastUnits(types, units), pid)
  {
    LinkedHolds(types, st, units, pid - PidOf(0), sources[pid - PidOf(0)].cc);
  }

  lemma LastHasStream(types: seq<nat>, st: State, units: seq<AccessUnit>, sources: seq<Source>, pid: nat)
    requires AllLinked(types, st, units, sources) && pid in LastUnits(types, units)
    ensures pid in st.programs[0].streams
  {
    assert UnitsOn(types, units, pid) != [];
    assert Linked(types, st, units, pid - PidOf(0), sources[pid - PidOf(0)].cc);
  }

  lemma AllLinkedHold(types: seq<nat>, st: State, units: seq<AccessUnit>, sources: seq<Source>)
    requires AllLinked(types, st, units, sources) && |types| <= 33
    ensures SmallPids(st.programs) && Holding(st.programs, [LastUnits(types, units)])
  {
    var streams, held := st.programs[0].streams, LastUnits(types, units);
    forall pid | pid in streams ensures StreamHolds(streams[pid], held, pid) {
      StreamHoldsLast(types, st, units, sources, pid);
    }
    forall pid | pid in held ensures pid in streams {
      LastHasStream(types, st, units, sources, pid);
    }
    assert StreamsHold(streams, held);
  }

  lemma AllHeldOn(held: map<nat, Pes>, n: nat, pid: nat)
    requires pid < n == PIDS
    ensures HeldOn(AllHeld([held]), pid) == if pid in held then [held[pid]] else []
  {
    assert AllHeld([held][..0]) == [];
    assert AllHeld([held]) == HeldTo(held, n);
    HeldOnePerPid(held, n, pid);
  }

  lemma LastOfSource(types: seq<nat>, units: seq<AccessUnit>, n: nat, i: nat)
    requires i < |types| <= 33 && n == PIDS
    ensures HeldOn(AllHeld([LastUnits(types, units)]), PidOf(i)) == Last(UnitsOf(types, units, i))
  {
    AllHeldOn(LastUnits(types, units), n, PidOf(i));
    assert UnitsOn(types, units, PidOf(i)) == UnitsOf(types, units, i);
  }

  // What source i gets at the end.
  lemma HeldFinishes(types: seq<nat>, st: State, units: seq<AccessUnit>, i: nat, cc: nat, held: seq<Held>,
          after: seq<Delivery>)
    requires i < |types| && |st.programs| == 1 && Linked(types, st, units, i, cc)
    requires Extended(st.delivered, after, held) && HeldOn(held, PidOf(i)) == Last(UnitsOf(types, units, i))
    ensures Done(types, after, units, i)
  {
    var us := UnitsOf(types, units, i);
    var most := if us == [] then [] else us[..|us| - 1];
    DeliveredExtended(st.delivered, after, held, PidOf(i), most);
    assert us == most + Last(us);
  }

  method FlushAll(parser: ATSParser, ghost types: seq<nat>, ghost units: seq<AccessUnit>, ghost sources: seq<Source>)
    requires AllLinked(types, parser.St(), units, sources) && |types| <= 33
    modifies parser
    ensures forall i :: 0 <= i < |types| ==> Done(types, parser.delivered, units, i)
  {
    ghost var before := parser.St();
    AllLinkedHold(types, before, units, sources);
    ghost var held := LastUnits(types, units);
    parser.SignalEOS([held]);
    forall i | 0 <= i < |types| ensures Done(types, parser.delivered, units, i) {
      LastOfSource(types, units, PIDS, i);
      HeldFinishes(types, before, units, i, sources[i].cc, AllHeld([held]), parser.delivered);
    }
  }

  // Unit k.
  method RemuxNext(writer: MPEG2TSWriter, parser: ATSParser, ghost types: seq<nat>, units: seq<AccessUnit>, k: nat)
    requires k < |units| && UnitOk(types, units[k]) && writer.Valid() && TypesOf(types, writer.sources)
    requires AllLinked(types, parser.St(), units[..k], writer.sources)
    modifies writer`sources, writer`file, parser
    ensures writer.Valid() && TypesOf(types, writer.sources)
    ensures AllLinked(types, parser.St(), units[..k + 1], writer.sources)
  {
    RemuxUnit(writer, parser, units[k], types, units[..k]);
    assert units[..k + 1] == units[..k] + [units[k]];
  }

  method RemuxUnits(writer: MPEG2TSWriter, parser: ATSParser, ghost types: seq<nat>, units: seq<AccessUnit>)
    requires writer.Valid() && UnitsOk(types, units) && TypesOf(types, writer.sources)
    requires AllLinked(types, parser.St(), units[..0], writer.sources)
    modifies writer`sources, writer`file, parser
    ensures writer.Valid() && TypesOf(types, writer.sources)
    ensures AllLinked(types, parser.St(), units[..|units|], writer.sources)
  {
    var k := 0;
    while k < |units|
      invariant 0 <= k <= |units| && writer.Valid() && TypesOf(types, writer.sources)
      invariant AllLinked(types, parser.St(), units[..k], writer.sources)
    {
      RemuxNext(writer, parser, types, units, k);
      k := k + 1;
    }
  }

  /** For any interleaving of access units over the sources, what the demultiplexer hands on for each of
      them is exactly its access units, in order, with the same bytes and time stamps. */
  method Remux(types: seq<nat>, units: seq<AccessUnit>) returns (delivered: seq<Delivery>)
    requires UnitsOk(types, units)
    ensures forall i :: 0 <= i < |types| ==> Match(DeliveredOn(delivered, PidOf(i)), UnitsOf(types, units, i))
  {
    if |units| == 0 {
      return [];
    }
    var table := new word[256](_ => Zeros(32));
    InitCrcTable(ToBits(POLYNOMIAL, 32), table);
    var sources := seq(|types|, i requires 0 <= i < |types| => Source(types[i], 0));
    var writer := new MPEG2TSWriter(table[..], sources);
    var parser := new ATSParser();
    RemuxTables(writer, parser, types);
    assert units[..0] == [] && units[..|units|] == units;
    RemuxUnits(writer, parser, types, units);
    FlushAll(parser, types, units, writer.sources);
    delivered := parser.delivered;
    forall i | 0 <= i < |types| ensures Match(DeliveredOn(delivered, PidOf(i)), UnitsOf(types, units, i)) {
      assert Done(types, delivered, units, i);
    }
  }
}
