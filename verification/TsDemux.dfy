/** ATSParser (libstagefright/mpeg2ts/ATSParser.cpp), continued: streams, sections and packets. */
module TsDemux {
  import opened Bits
  import opened BitReader
  import opened Sequences
  import opened TsFormat
  import opened TsParser

  // ------------------------------------------------------------------ streams

  /** mStreamType, mExpectedContinuityCounter, mPayloadStarted and mBuffer of a Stream. */
  datatype Stream = Stream(streamType: nat, expected: int, started: bool, buffer: Data)

  const KNOWN_TYPES: set<nat> := {0x01, 0x02, 0x03, 0x04, 0x0f, 0x10, 0x1b, 0x83}

  predicate Gap(s: Stream, cc: nat) { s.expected >= 0 && s.expected != cc }

  /** A new PES packet begins while one is under way. */
  predicate Flushes(s: Stream, cc: nat, start: bool) {
    s.streamType in KNOWN_TYPES && !Gap(s, cc) && start && s.started && s.buffer != []
  }

  /** The stream after a packet, if what it flushes is well formed. */
  function After(s: Stream, cc: nat, start: bool, payload: Data): Stream {
    if s.streamType !in KNOWN_TYPES then s
    else if Gap(s, cc) && !start then Stream(s.streamType, -1, false, [])
    else
      var going := s.started && !Gap(s, cc);
      var kept := if Gap(s, cc) || (start && going) then [] else s.buffer;
      if going || start then Stream(s.streamType, (cc + 1) % 16, true, kept + payload)
      else Stream(s.streamType, (cc + 1) % 16, false, kept)
  }

  /** A packet on the PID of a stream; `ok` says that it was not one whose flush failed. */
  datatype Heard = Heard(cc: nat, start: bool, payload: Data, ok: bool)

  // What a packet does.  When a flush fails, its own payload is lost.
  function Hears(s: Stream, h: Heard): Stream {
    if h.ok then After(s, h.cc, h.start, h.payload)
    else Stream(s.streamType, (h.cc + 1) % 16, s.started, [])
  }

  /** Stream::parse and flush.  What is handed on is parsed from the buffer of a stream that a new start
      finds under way. */
  method ParseStream(s: Stream, cc: nat, start: bool, payload: Data, ghost p: Pes)
    returns (err: Status, s': Stream, out: seq<Payload>)
    ensures s' == Hears(s, Heard(cc, start, payload, err == Ok))
    ensures err != Ok || out != [] ==> Flushes(s, cc, start)
    ensures !Flushes(s, cc, start) ==> err == Ok && out == [] && s' == After(s, cc, start, payload)
    ensures Flushes(s, cc, start) && PesOk(p) && s.buffer == PesBytes(p) ==>
              err == Ok && |out| == 1 && Delivers(out[0], p) && s' == After(s, cc, start, payload)
  {
    out, s' := [], s;
    if s.streamType !in KNOWN_TYPES {
      return Ok, s', out;
    }
    if s'.expected >= 0 && s'.expected != cc {
      s' := s'.(started := false, buffer := [], expected := -1);
      if !start {
        return Ok, s', out;
      }
    }
    s' := s'.(expected := (cc + 1) % 16);
    if start {
      if s'.started && s'.buffer != [] {
        if PesOk(p) { WrittenHead(p); }
        err, out := ParsePES(s'.buffer, AsHead(p), p.data);
        s' := s'.(buffer := []);
        if err != Ok {
          return;
        }
      }
      s' := s'.(started := true);
    }
    if s'.started {
      s' := s'.(buffer := s'.buffer + payload);
    }
    err := Ok;
  }

  // ------------------------------------------------------------------ what a stream has heard

  /** A stream of this type after these packets. */
  function StreamAfter(streamType: nat, hs: seq<Heard>): Stream {
    if hs == [] then Stream(streamType, -1, false, [])
    else Hears(StreamAfter(streamType, hs[..|hs| - 1]), hs[|hs| - 1])
  }

  /** Packets as they can be heard: only a flush can fail. */
  predicate Possible(streamType: nat, hs: seq<Heard>) {
    && streamType in KNOWN_TYPES
    && forall i :: 0 <= i < |hs| ==>
         hs[i].cc < 16 && (!hs[i].ok ==> Flushes(StreamAfter(streamType, hs[..i]), hs[i].cc, hs[i].start))
  }

  lemma PossibleBefore(streamType: nat, hs: seq<Heard>, n: nat)
    requires Possible(streamType, hs) && n <= |hs|
    ensures Possible(streamType, hs[..n])
  {
    forall i | 0 <= i < n
      ensures hs[i].cc < 16 && (!hs[i].ok ==> Flushes(StreamAfter(streamType, hs[..n][..i]), hs[i].cc, hs[i].start)) {
      assert hs[..n][..i] == hs[..i];
    }
  }

  /** Packet k starts a PES packet, and all packets since then have counters without a gap and do not start
      another. */
  predicate Begun(hs: seq<Heard>, k: nat) {
    && k < |hs| && hs[k].start
    && forall j :: k < j < |hs| ==> !hs[j].start && hs[j].cc == (hs[j - 1].cc + 1) % 16
  }

  function Joined(hs: seq<Heard>): Data {
    if hs == [] then [] else Joined(hs[..|hs| - 1]) + hs[|hs| - 1].payload
  }

  // From the packet that starts the PES packet on, or from the one behind it if the flush at the start failed.
  function Collected(hs: seq<Heard>, k: nat): Data
    requires k < |hs|
  {
    Joined(if hs[k].ok then hs[k..] else hs[k + 1..])
  }

  // One packet more.
  lemma BegunNext(hs: seq<Heard>, n: nat, k: nat)
    requires k < n == |hs| - 1
    ensures Begun(hs, k) <==> Begun(hs[..n], k) && !hs[n].start && hs[n].cc == (hs[n - 1].cc + 1) % 16
    ensures Collected(hs, k) == Collected(hs[..n], k) + hs[n].payload
  {
    CollectedNext(hs, n, k);
    if Begun(hs, k) { BegunBefore(hs, n, k); }
    if Begun(hs[..n], k) && !hs[n].start && hs[n].cc == (hs[n - 1].cc + 1) % 16 { BegunAfter(hs, n, k); }
  }

  lemma BegunBefore(hs: seq<Heard>, n: nat, k: nat)
    requires k < n == |hs| - 1 && Begun(hs, k)
    ensures Begun(hs[..n], k)
  {
    var init := hs[..n];
    forall j | k < j < n ensures !init[j].start && init[j].cc == (init[j - 1].cc + 1) % 16 {
      assert init[j] == hs[j] && init[j - 1] == hs[j - 1];
    }
  }

  lemma BegunAfter(hs: seq<Heard>, n: nat, k: nat)
    requires k < n == |hs| - 1 && Begun(hs[..n], k) && !hs[n].start && hs[n].cc == (hs[n - 1].cc + 1) % 16
    ensures Begun(hs, k)
  {
    var init := hs[..n];
    forall j | k < j < |hs| ensures !hs[j].start && hs[j].cc == (hs[j - 1].cc + 1) % 16 {
      if j < n { assert init[j] == hs[j] && init[j - 1] == hs[j - 1]; }
    }
  }

  lemma CollectedNext(hs: seq<Heard>, n: nat, k: nat)
    requires k < n == |hs| - 1
    ensures Collected(hs, k) == Collected(hs[..n], k) + hs[n].payload
  {
    JoinedNext(hs, n, if hs[k].ok then k else k + 1);
  }

  lemma JoinedNext(hs: seq<Heard>, n: nat, from: nat)
    requires from <= n == |hs| - 1
    ensures Joined(hs[from..]) == Joined(hs[..n][from..]) + hs[n].payload
  {
    assert hs[from..][..|hs[from..]| - 1] == hs[..n][from..];
  }

  // The packet that was just heard.
  lemma BegunLast(hs: seq<Heard>, n: nat)
    requires n == |hs| - 1
    ensures Begun(hs, n) <==> hs[n].start
    ensures Collected(hs, n) == if hs[n].ok then hs[n].payload else []
  {
    assert hs[n..] == [hs[n]] && hs[n + 1..] == [];
    assert [hs[n]][..0] == [];
    assert Joined([hs[n]]) == Joined([]) + hs[n].payload;
  }

  // What the law below says of a stream.
  ghost predicate BufferOk(hs: seq<Heard>, s: Stream) {
    && s.streamType in KNOWN_TYPES
    && (s.started <==> exists k :: Begun(hs, k))
    && (forall k :: Begun(hs, k) ==> s.buffer == Collected(hs, k))
    && (!s.started ==> s.buffer == [])
    && (s.expected == -1 || (hs != [] && s.expected == (hs[|hs| - 1].cc + 1) % 16))
    && (s.started ==> s.expected >= 0)
  }

  lemma HearsStart(hs: seq<Heard>, n: nat, before: Stream, s: Stream)
    requires n == |hs| - 1 && hs[n].start && hs[n].cc < 16
    requires BufferOk(hs[..n], before) && s == Hears(before, hs[n])
    requires !hs[n].ok ==> Flushes(before, hs[n].cc, hs[n].start)
    ensures BufferOk(hs, s)
  {
    BegunLast(hs, n);
    forall k: nat | k < n ensures !Begun(hs, k) {
      BegunNext(hs, n, k);
    }
  }

  lemma HearsGap(hs: seq<Heard>, n: nat, before: Stream, s: Stream)
    requires n == |hs| - 1 && !hs[n].start && hs[n].cc < 16 && Gap(before, hs[n].cc)
    requires BufferOk(hs[..n], before) && s == Hears(before, hs[n])
    requires !hs[n].ok ==> Flushes(before, hs[n].cc, hs[n].start)
    ensures BufferOk(hs, s)
  {
    BegunLast(hs, n);
    forall k: nat | k < n ensures !Begun(hs, k) {
      BegunNext(hs, n, k);
    }
  }

  lemma HearsMore(hs: seq<Heard>, n: nat, before: Stream, s: Stream)
    requires n == |hs| - 1 && !hs[n].start && hs[n].cc < 16 && !Gap(before, hs[n].cc)
    requires BufferOk(hs[..n], before) && s == Hears(before, hs[n])
    requires !hs[n].ok ==> Flushes(before, hs[n].cc, hs[n].start)
    ensures BufferOk(hs, s)
  {
    BegunLast(hs, n);
    forall k: nat | k < n
      ensures Begun(hs, k) <==> Begun(hs[..n], k) && before.started
      ensures Collected(hs, k) == Collected(hs[..n], k) + hs[n].payload {
      BegunNext(hs, n, k);
    }
    if before.started {
      var k :| Begun(hs[..n], k);
      assert Begun(hs, k);
    }
  }

  /** Over every sequence of packets, whatever their counters and starts: a stream is collecting exactly
      when one of them starts a PES packet and none since then has left a gap or started another; its buffer
      is then the payloads from that packet on.  Otherwise nothing is buffered. */
  lemma {:induction false} BufferIsRun(streamType: nat, hs: seq<Heard>)
    requires Possible(streamType, hs)
    ensures var s := StreamAfter(streamType, hs);
            && (s.started <==> exists k :: Begun(hs, k))
            && (forall k :: Begun(hs, k) ==> s.buffer == Collected(hs, k))
            && (!s.started ==> s.buffer == [])
    ensures BufferOk(hs, StreamAfter(streamType, hs))
    decreases |hs|
  {
    if hs != [] {
      var n := |hs| - 1;
      var before := StreamAfter(streamType, hs[..n]);
      PossibleBefore(streamType, hs, n);
      BufferIsRun(streamType, hs[..n]);
      if hs[n].start {
        HearsStart(hs, n, before, Hears(before, hs[n]));
      } else if Gap(before, hs[n].cc) {
        HearsGap(hs, n, before, Hears(before, hs[n]));
      } else {
        HearsMore(hs, n, before, Hears(before, hs[n]));
      }
    }
  }

  /** What a new start flushes was received without a gap, up to the packet just before it, and begins with
      a start, unless the flush at that start had failed. */
  lemma FlushedIsRun(streamType: nat, hs: seq<Heard>, cc: nat)
    requires Possible(streamType, hs) && Flushes(StreamAfter(streamType, hs), cc, true)
    ensures exists k :: Begun(hs, k) && StreamAfter(streamType, hs).buffer == Collected(hs, k)
    ensures hs != [] && cc == (hs[|hs| - 1].cc + 1) % 16
  {
    BufferIsRun(streamType, hs);
    var k :| Begun(hs, k);
  }

  /** After a gap nothing is buffered, and so nothing flushed, until a packet starts. */
  lemma GapDropsAll(streamType: nat, hs: seq<Heard>, g: nat)
    requires Possible(streamType, hs) && 0 < g < |hs| && hs[g].cc != (hs[g - 1].cc + 1) % 16
    requires forall i :: g <= i < |hs| ==> !hs[i].start
    ensures !StreamAfter(streamType, hs).started && StreamAfter(streamType, hs).buffer == []
  {
    BufferIsRun(streamType, hs);
    forall k: nat ensures !Begun(hs, k) {
      if k < g {
        assert g < |hs|;
      } else if k < |hs| {
        assert !hs[k].start;
      }
    }
  }

  /** A start whose flush fails loses its own payload but counts as a start: what follows is then collected
      without it. */
  lemma FailedFlushLosesStart(streamType: nat, hs: seq<Heard>, h: Heard, next: Heard)
    requires Possible(streamType, hs + [h, next]) && !h.ok && !next.start && next.cc == (h.cc + 1) % 16
    ensures StreamAfter(streamType, hs + [h, next]).started
    ensures StreamAfter(streamType, hs + [h, next]).buffer == next.payload
  {
    var all, n := hs + [h, next], |hs|;
    assert all[n] == h && all[n + 1] == next;
    assert Possible(streamType, all) ==> Flushes(StreamAfter(streamType, all[..n]), h.cc, h.start);
    BufferIsRun(streamType, all);
    assert Begun(all, n);
    assert all[n + 1..] == [next] && [next][..0] == [];
    assert Joined([next]) == Joined([]) + next.payload;
  }

  // ------------------------------------------------------------------ the parser's state

  datatype Program = Program(number: nat, mapPid: nat, streams: map<nat, Stream>)

  /** mBuffer and mSkipBytes of a PSISection. */
  datatype Section = Section(buffer: Data, skip: nat)

  /** One call of onPayloadData. */
  datatype Delivery = Delivery(pid: nat, payload: Payload)

  datatype State = State(programs: seq<Program>, sections: map<nat, Section>, delivered: seq<Delivery>)

  // The first program, from k on, with a stream on this PID; the number of programs if there is none.
  function Owner(programs: seq<Program>, pid: nat, k: nat): (g: nat)
    requires k <= |programs|
    ensures k <= g <= |programs| && (g < |programs| ==> pid in programs[g].streams)
    decreases |programs| - k
  {
    if k == |programs| || pid in programs[k].streams then k else Owner(programs, pid, k + 1)
  }

  /** If a packet makes its stream flush, what is flushed is p. */
  predicate FlushesOnly(st: State, pid: nat, cc: nat, start: bool, p: Pes) {
    var g := Owner(st.programs, pid, 0);
    g < |st.programs| && Flushes(st.programs[g].streams[pid], cc, start) ==>
      PesOk(p) && st.programs[g].streams[pid].buffer == PesBytes(p)
  }

  function Replaced(programs: seq<Program>, g: nat, pid: nat, s: Stream): seq<Program>
    requires g < |programs|
  {
    programs[g := programs[g].(streams := programs[g].streams[pid := s])]
  }

  /** The first program with a stream on this PID has it hear the packet; nothing else changes but what was
      delivered. */
  predicate StreamHears(st: State, st': State, pid: nat, h: Heard) {
    var g := Owner(st.programs, pid, 0);
    && st'.sections == st.sections
    && st'.programs == if g == |st.programs| then st.programs
                       else Replaced(st.programs, g, pid, Hears(st.programs[g].streams[pid], h))
  }

  /** What a packet on a stream's PID does. */
  predicate OnStream(st: State, st': State, pid: nat, cc: nat, start: bool, payload: Data, p: Pes) {
    var g := Owner(st.programs, pid, 0);
    if g == |st.programs| then st' == st else
      var s := st.programs[g].streams[pid];
      && st'.programs == Replaced(st.programs, g, pid, After(s, cc, start, payload))
      && st'.sections == st.sections
      && if Flushes(s, cc, start) then
           && |st'.delivered| == |st.delivered| + 1 && st'.delivered[..|st.delivered|] == st.delivered
           && st'.delivered[|st.delivered|].pid == pid && Delivers(st'.delivered[|st.delivered|].payload, p)
         else st'.delivered == st.delivered
  }

  // ------------------------------------------------------------------ the tables

  datatype PatEntry = PatEntry(number: nat, mapPid: nat)
  datatype StreamInfo = StreamInfo(streamType: nat, pid: nat)

  function OnePatEntryBits(e: PatEntry, rest: seq<bool>): seq<bool> {
    Field(e.number, 16, Field(7, 3, Field(e.mapPid, 13, rest)))
  }

  function PatEntryBits(entries: seq<PatEntry>, rest: seq<bool>): seq<bool> {
    if entries == [] then rest else OnePatEntryBits(entries[0], PatEntryBits(entries[1..], rest))
  }

  // The start of an association section whose length field says n.
  function PatHeaderBits(n: nat, body: seq<bool>): seq<bool> {
    Field(0, 8, Field(1, 1, Field(3, 3, Field(n, 12, body))))
  }

  /** A program association section with these entries; `middle` is what is between its length and them. */
  function PatBits(entries: seq<PatEntry>, middle: seq<bool>, rest: seq<bool>): seq<bool> {
    PatHeaderBits(9 + 4 * |entries|, middle + PatEntryBits(entries, rest))
  }

  predicate PatOk(entries: seq<PatEntry>) {
    |entries| <= 253 && forall k :: 0 <= k < |entries| ==>
        0 < entries[k].number < 0x1_0000 && entries[k].mapPid < 0x2000
  }

  function IndexOfProgram(programs: seq<Program>, number: nat, k: nat): (g: nat)
    requires k <= |programs|
    ensures k <= g <= |programs|
    decreases |programs| - k
  {
    if k == |programs| || programs[k].number == number then k else IndexOfProgram(programs, number, k + 1)
  }

  /** A program is added, or found and given its map PID, which gets a section. */
  function AddProgram(st: State, e: PatEntry): State {
    var g := IndexOfProgram(st.programs, e.number, 0);
    st.(programs := if g < |st.programs| then st.programs[g := st.programs[g].(mapPid := e.mapPid)]
                    else st.programs + [Program(e.number, e.mapPid, map[])],
        sections := if e.mapPid in st.sections then st.sections else st.sections[e.mapPid := Section([], 0)])
  }

  function AddPrograms(st: State, entries: seq<PatEntry>): State {
    if entries == [] then st else AddProgram(AddPrograms(st, entries[..|entries| - 1]), entries[|entries| - 1])
  }

  function OneInfoBits(e: StreamInfo, rest: seq<bool>): seq<bool> {
    Field(e.streamType, 8, Field(7, 3, Field(e.pid, 13, Field(15, 4, Field(0, 12, rest)))))
  }

  function InfoBits(infos: seq<StreamInfo>, rest: seq<bool>): seq<bool> {
    if infos == [] then rest else OneInfoBits(infos[0], InfoBits(infos[1..], rest))
  }

  // The start of a map section whose length field says n.
  function PmtHeaderBits(n: nat, body: seq<bool>): seq<bool> {
    Field(2, 8, Field(1, 1, Field(0, 1, Field(3, 2, Field(n, 12, body)))))
  }

  /** A program map section with these streams and no descriptors; `middle` is what is between its length
      and the length of its program information. */
  function PmtBits(infos: seq<StreamInfo>, middle: seq<bool>, rest: seq<bool>): seq<bool> {
    PmtHeaderBits(13 + 5 * |infos|, middle + Field(0, 12, InfoBits(infos, rest)))
  }

  predicate PmtOk(infos: seq<StreamInfo>) {
    |infos| <= 201 && forall k :: 0 <= k < |infos| ==> infos[k].streamType < 256 && infos[k].pid < 0x2000
  }

  /** Anything that describes a stream. */
  datatype Descriptor = Descriptor(tag: nat, content: Data)

  /** A stream as a map section can list it. */
  datatype Entry = Entry(info: StreamInfo, descriptors: seq<Descriptor>)

  predicate DescriptorsOk(ds: seq<Descriptor>) {
    forall k :: 0 <= k < |ds| ==> ds[k].tag < 256 && |ds[k].content| < 256
  }

  function DescriptorsLength(ds: seq<Descriptor>): nat {
    if ds == [] then 0 else 2 + |ds[0].content| + DescriptorsLength(ds[1..])
  }

  function DescriptorBits(ds: seq<Descriptor>, rest: seq<bool>): seq<bool> {
    if ds == [] then rest
    else Field(ds[0].tag, 8, Field(|ds[0].content|, 8, ByteBits(ds[0].content) + DescriptorBits(ds[1..], rest)))
  }

  predicate EntryOk(e: Entry) {
    && e.info.streamType < 256 && e.info.pid < 0x2000
    && DescriptorsOk(e.descriptors) && DescriptorsLength(e.descriptors) < 0x400
  }

  function EntriesLength(es: seq<Entry>): nat {
    if es == [] then 0 else 5 + DescriptorsLength(es[0].descriptors) + EntriesLength(es[1..])
  }

  function EntryBits(e: Entry, rest: seq<bool>): seq<bool> {
    Field(e.info.streamType, 8, Field(7, 3, Field(e.info.pid, 13, Field(15, 4,
      Field(DescriptorsLength(e.descriptors), 12, DescriptorBits(e.descriptors, rest))))))
  }

  function EntriesBits(es: seq<Entry>, rest: seq<bool>): seq<bool> {
    if es == [] then rest else EntryBits(es[0], EntriesBits(es[1..], rest))
  }

  function MapLength(es: seq<Entry>, info: Data): nat { 13 + |info| + EntriesLength(es) }

  predicate MapOk(es: seq<Entry>, info: Data) {
    |info| < 0x400 && MapLength(es, info) <= 1021 && forall k :: 0 <= k < |es| ==> EntryOk(es[k])
  }

  /** A program map section with descriptors of the program and of each stream. */
  function MapBits(es: seq<Entry>, info: Data, middle: seq<bool>, rest: seq<bool>): seq<bool> {
    PmtHeaderBits(MapLength(es, info), middle + InfoAndEntries(es, info, rest))
  }

  function InfoAndEntries(es: seq<Entry>, info: Data, rest: seq<bool>): seq<bool> {
    Field(|info|, 12, ByteBits(info) + EntriesBits(es, rest))
  }

  function InfosOf(es: seq<Entry>): (infos: seq<StreamInfo>)
    ensures |infos| == |es| && forall k :: 0 <= k < |es| ==> infos[k] == es[k].info
  {
    seq(|es|, k requires 0 <= k < |es| => es[k].info)
  }

  // The same streams without descriptors.
  function Undescribed(infos: seq<StreamInfo>): (es: seq<Entry>)
    ensures |es| == |infos| && forall k :: 0 <= k < |es| ==> es[k] == Entry(infos[k], [])
  {
    seq(|infos|, k requires 0 <= k < |infos| => Entry(infos[k], []))
  }

  lemma {:induction false} UndescribedBits(infos: seq<StreamInfo>, rest: seq<bool>)
    ensures EntriesBits(Undescribed(infos), rest) == InfoBits(infos, rest)
    ensures EntriesLength(Undescribed(infos)) == 5 * |infos|
  {
    if infos != [] {
      UndescribedBits(infos[1..], rest);
      assert Undescribed(infos)[1..] == Undescribed(infos[1..]);
    }
  }

  // A map section without descriptors is a map section.
  lemma PmtIsMap(infos: seq<StreamInfo>, middle: seq<bool>, rest: seq<bool>)
    requires PmtOk(infos)
    ensures var es := Undescribed(infos);
            && MapOk(es, []) && MapBits(es, [], middle, rest) == PmtBits(infos, middle, rest)
            && InfosOf(es) == infos
  {
    UndescribedBits(infos, rest);
    assert ByteBits([]) + InfoBits(infos, rest) == InfoBits(infos, rest);
  }

  predicate PidsChanged(streams: map<nat, Stream>, infos: seq<StreamInfo>) {
    exists k :: 0 <= k < |infos| && Changed(streams, infos[k])
  }

  predicate Changed(streams: map<nat, Stream>, info: StreamInfo) {
    info.pid in streams && streams[info.pid].streamType != info.streamType
  }

  function AddStreams(streams: map<nat, Stream>, infos: seq<StreamInfo>): map<nat, Stream> {
    if infos == [] then streams else
      var before := AddStreams(streams, infos[..|infos| - 1]);
      var info := infos[|infos| - 1];
      if info.pid in before then before else before[info.pid := Stream(info.streamType, -1, false, [])]
  }

  /** Two streams that traded PIDs. */
  predicate Swapped(streams: map<nat, Stream>, infos: seq<StreamInfo>) {
    && |infos| == 2 && |streams| == 2 && infos[0].pid != infos[1].pid
    && infos[0].pid in streams && infos[1].pid in streams
    && infos[0].streamType == streams[infos[1].pid].streamType
    && infos[1].streamType == streams[infos[0].pid].streamType
  }

  /** The streams with their PIDs traded back. */
  function Traded(streams: map<nat, Stream>, infos: seq<StreamInfo>): map<nat, Stream>
    requires Swapped(streams, infos)
  {
    map[infos[0].pid := streams[infos[1].pid], infos[1].pid := streams[infos[0].pid]]
  }

  lemma {:induction false} NothingMissing(streams: map<nat, Stream>, infos: seq<StreamInfo>)
    requires forall k :: 0 <= k < |infos| ==> infos[k].pid in streams
    ensures AddStreams(streams, infos) == streams
  {
    if infos != [] { NothingMissing(streams, infos[..|infos| - 1]); }
  }

  // ------------------------------------------------------------------ what the tables do

  // The first stream of a map section on this PID.
  predicate FirstOn(infos: seq<StreamInfo>, k: int, pid: nat) {
    0 <= k < |infos| && infos[k].pid == pid && forall j :: 0 <= j < k ==> infos[j].pid != pid
  }

  /** A map section leaves every stream alone that is there.  Each PID it lists besides gets one stream, of
      the type it is listed with first, which waits for its first start. */
  lemma {:induction false} StreamsAdded(streams: map<nat, Stream>, infos: seq<StreamInfo>, pid: nat)
    ensures var r := AddStreams(streams, infos);
            && (pid in streams ==> pid in r && r[pid] == streams[pid])
            && (pid !in streams ==>
                  if pid in r then
                    exists k :: FirstOn(infos, k, pid) && r[pid] == Stream(infos[k].streamType, -1, false, [])
                  else forall k :: 0 <= k < |infos| ==> infos[k].pid != pid)
  {
    if infos != [] {
      var n := |infos| - 1;
      StreamsAdded(streams, infos[..n], pid);
      var before := AddStreams(streams, infos[..n]);
      if pid !in streams && pid in before {
        var k :| FirstOn(infos[..n], k, pid) && before[pid] == Stream(infos[k].streamType, -1, false, []);
        assert FirstOn(infos, k, pid);
      } else if pid !in before && infos[n].pid == pid {
        forall j | 0 <= j < n ensures infos[j].pid != pid { assert infos[..n][j] == infos[j]; }
        assert FirstOn(infos, n, pid);
      }
    }
  }

  /** When two streams traded PIDs, no stream is lost, none loses what it has buffered, and each is on the
      PID that the section lists its type with. */
  lemma TradedAgrees(streams: map<nat, Stream>, infos: seq<StreamInfo>)
    requires Swapped(streams, infos)
    ensures var r := Traded(streams, infos);
            && r.Keys == streams.Keys && r.Values == streams.Values
            && forall k :: 0 <= k < 2 ==> r[infos[k].pid].streamType == infos[k].streamType
    ensures !PidsChanged(Traded(streams, infos), infos)
  {
    var a, b := infos[0].pid, infos[1].pid;
    var r := Traded(streams, infos);
    assert r.Keys == {a, b};
    TwoKeys(streams.Keys, a, b);
    assert r[a] == streams[b] && r[b] == streams[a];
  }

  lemma TwoKeys(keys: set<nat>, a: nat, b: nat)
    requires |keys| == 2 && a in keys && b in keys && a != b
    ensures keys == {a, b}
  {
    var rest := keys - {a} - {b};
    assert |rest| == 0;
    assert keys == {a, b} + rest;
  }

  // The last entry for this program.
  predicate LastFor(entries: seq<PatEntry>, k: int, number: nat) {
    0 <= k < |entries| && entries[k].number == number && forall j :: k < j < |entries| ==> entries[j].number != number
  }

  predicate Listed(entries: seq<PatEntry>, number: nat) {
    exists k :: 0 <= k < |entries| && entries[k].number == number
  }

  // One program to a number.
  predicate Unique(programs: seq<Program>) {
    forall g, h :: 0 <= g < h < |programs| ==> programs[g].number != programs[h].number
  }

  predicate Has(programs: seq<Program>, number: nat) {
    exists g :: 0 <= g < |programs| && programs[g].number == number
  }

  /** What an association section makes of the program in place g: its number and streams stay, and its map
      is on the PID it is listed with last.  A program that is new is listed and has no streams. */
  ghost predicate ProgramOk(old_: seq<Program>, entries: seq<PatEntry>, p: Program, g: nat) {
    && (if g < |old_| then p.number == old_[g].number && p.streams == old_[g].streams
        else p.streams == map[] && Listed(entries, p.number))
    && if Listed(entries, p.number) then exists k :: LastFor(entries, k, p.number) && p.mapPid == entries[k].mapPid
       else g < |old_| && p.mapPid == old_[g].mapPid
  }

  /** An association section keeps the programs in place, adds one for each new number and none else. */
  lemma {:induction false} ProgramsAdded(st: State, entries: seq<PatEntry>)
    requires Unique(st.programs)
    ensures var programs := AddPrograms(st, entries).programs;
            && Unique(programs) && |st.programs| <= |programs|
            && (forall g :: 0 <= g < |programs| ==> ProgramOk(st.programs, entries, programs[g], g))
            && (forall k :: 0 <= k < |entries| ==> Has(programs, entries[k].number))
  {
    if entries != [] {
      var n := |entries| - 1;
      var e, before := entries[n], AddPrograms(st, entries[..n]);
      ProgramsAdded(st, entries[..n]);
      var programs := AddProgram(before, e).programs;
      ProgramAdded(before, e);
      forall g | 0 <= g < |programs| ensures ProgramOk(st.programs, entries, programs[g], g) {
        if programs[g].number == e.number {
          assert entries[n].number == e.number && LastFor(entries, n, e.number);
        } else {
          OtherProgram(st.programs, entries, n, programs[g], g);
        }
      }
      forall k | 0 <= k < |entries| ensures Has(programs, entries[k].number) {
        if k < n {
          assert entries[..n][k] == entries[k];
          var g :| 0 <= g < |before.programs| && before.programs[g].number == entries[k].number;
          assert programs[g].number == entries[k].number;
        }
      }
    }
  }

  // One entry.
  lemma ProgramAdded(st: State, e: PatEntry)
    requires Unique(st.programs)
    ensures var programs := AddProgram(st, e).programs;
            && Unique(programs) && |st.programs| <= |programs| <= |st.programs| + 1 && Has(programs, e.number)
            && (forall g :: 0 <= g < |st.programs| ==>
                  programs[g].number == st.programs[g].number && programs[g].streams == st.programs[g].streams)
            && (forall g :: 0 <= g < |st.programs| && programs[g].number != e.number ==> programs[g] == st.programs[g])
            && (forall g :: 0 <= g < |programs| && programs[g].number == e.number ==> programs[g].mapPid == e.mapPid)
            && (forall g :: |st.programs| <= g < |programs| ==> programs[g] == Program(e.number, e.mapPid, map[]))
  {
    NumberFound(st.programs, e.number, 0);
    var g := IndexOfProgram(st.programs, e.number, 0);
    assert AddProgram(st, e).programs[g].number == e.number;
  }

  lemma {:induction false} NumberFound(programs: seq<Program>, number: nat, k: nat)
    requires k <= |programs|
    ensures var g := IndexOfProgram(programs, number, k);
            && (g < |programs| ==> programs[g].number == number)
            && forall h :: k <= h < g ==> programs[h].number != number
    decreases |programs| - k
  {
    if k < |programs| && programs[k].number != number { NumberFound(programs, number, k + 1); }
  }

  // What one entry more does not touch.
  lemma OtherProgram(old_: seq<Program>, entries: seq<PatEntry>, n: nat, p: Program, g: nat)
    requires n == |entries| - 1 && p.number != entries[n].number && ProgramOk(old_, entries[..n], p, g)
    ensures ProgramOk(old_, entries, p, g)
  {
    var init := entries[..n];
    if Listed(init, p.number) {
      var k :| LastFor(init, k, p.number) && p.mapPid == init[k].mapPid;
      forall j | k < j < |entries| ensures entries[j].number != p.number {
        if j < n { assert entries[j] == init[j]; }
      }
      assert entries[k] == init[k] && LastFor(entries, k, p.number);
    } else {
      forall k | 0 <= k < |entries| ensures entries[k].number != p.number {
        if k < n { assert entries[k] == init[k]; }
      }
    }
  }

  predicate MapListed(entries: seq<PatEntry>, pid: nat) {
    exists k :: 0 <= k < |entries| && entries[k].mapPid == pid
  }

  /** Every map PID that is listed gets an empty section unless it has one; the sections there are stay. */
  lemma {:induction false} SectionsAdded(st: State, entries: seq<PatEntry>, pid: nat)
    ensures var sections := AddPrograms(st, entries).sections;
            && (pid in sections <==> pid in st.sections || MapListed(entries, pid))
            && (pid in sections ==> sections[pid] == if pid in st.sections then st.sections[pid] else Section([], 0))
    ensures AddPrograms(st, entries).delivered == st.delivered
  {
    if entries != [] {
      var n := |entries| - 1;
      SectionsAdded(st, entries[..n], pid);
      assert MapListed(entries, pid) <==> MapListed(entries[..n], pid) || entries[n].mapPid == pid by {
        if MapListed(entries[..n], pid) {
          var k :| 0 <= k < n && entries[..n][k].mapPid == pid;
          assert entries[k].mapPid == pid;
        }
        if MapListed(entries, pid) && entries[n].mapPid != pid {
          var k :| 0 <= k < |entries| && entries[k].mapPid == pid;
          assert entries[..n][k].mapPid == pid;
        }
      }
    }
  }

  // ------------------------------------------------------------------ reading the tables

  lemma PatEntryFits(e: PatEntry)
    requires PatOk([e])
    ensures e.number < Pow2(16) && 7 < Pow2(3) && e.mapPid < Pow2(13)
  {
    assert [e][0] == e;
    Pow2Values();
    Pow2Add(5, 8);
  }

  // Entries read so far, and the bits of those to come.
  ghost predicate PatLeft(bits: seq<bool>, entries: seq<PatEntry>, found: seq<PatEntry>, rest: seq<bool>) {
    && PatOk(entries) && |found| <= |entries|
    && found == entries[..|found|] && bits == PatEntryBits(entries[|found|..], rest)
  }

  lemma PatLeftAtStart(entries: seq<PatEntry>, rest: seq<bool>)
    requires PatOk(entries)
    ensures PatLeft(PatEntryBits(entries, rest), entries, [], rest)
  {
    assert entries[0..] == entries;
  }

  lemma PatLeftNext(bits: seq<bool>, entries: seq<PatEntry>, found: seq<PatEntry>, rest: seq<bool>)
    returns (e: PatEntry, more: seq<bool>)
    requires PatLeft(bits, entries, found, rest) && |found| < |entries|
    ensures PatOk([e]) && bits == OnePatEntryBits(e, more) && PatLeft(more, entries, found + [e], rest)
  {
    e := entries[|found|];
    more := PatEntryBits(entries[|found| + 1..], rest);
    assert entries[|found|..][0] == e && entries[|found|..][1..] == entries[|found| + 1..];
    assert entries[..|found| + 1] == found + [e];
  }

  /** The entries of an association section. */
  method ReadPatEntries(br: ABitReader, n: nat, ghost entries: seq<PatEntry>, ghost rest: seq<bool>)
    returns (err: Status, found: seq<PatEntry>)
    requires Ready(br)
    modifies br
    ensures Ready(br)
    ensures PatOk(entries) && n == |entries| && old(br.Remaining()) == PatEntryBits(entries, rest)
            ==> err == Ok && found == entries && br.Remaining() == rest
  {
    found := [];
    ghost var good := PatOk(entries) && n == |entries| && br.Remaining() == PatEntryBits(entries, rest);
    if good { PatLeftAtStart(entries, rest); }
    while |found| < n
      invariant Ready(br) && |found| <= n
      invariant good ==> n == |entries| && PatLeft(br.Remaining(), entries, found, rest)
      decreases n - |found|
    {
      ghost var e, more := PatEntry(0, 0), [];
      if good { e, more := PatLeftNext(br.Remaining(), entries, found, rest); }
      var next;
      err, next := ReadPatEntry(br, e, more);
      if err != Ok {
        return;
      }
      found := found + [next];
    }
    err := Ok;
    assert good ==> found == entries && entries[|found|..] == [];
  }

  method ReadPatEntry(br: ABitReader, ghost e: PatEntry, ghost more: seq<bool>) returns (err: Status, found: PatEntry)
    requires Ready(br)
    modifies br
    ensures Ready(br)
    ensures PatOk([e]) && old(br.Remaining()) == OnePatEntryBits(e, more) ==>
            err == Ok && found == e && br.Remaining() == more
  {
    found := PatEntry(0, 0);
    if PatOk([e]) { PatEntryFits(e); }
    ghost var r := Field(e.mapPid, 13, more);
    var number :- Get(br, 16, e.number, Field(7, 3, r));
    var _ :- Get(br, 3, 7, r);
    var pid :- Get(br, 13, e.mapPid, more);
    return Ok, PatEntry(number, pid);
  }

  lemma PatHeaderFits(entries: seq<PatEntry>)
    requires PatOk(entries)
    ensures 0 < Pow2(8) && 1 < Pow2(1) && 3 < Pow2(3) && 9 + 4 * |entries| < Pow2(12)
  {
    Pow2Values();
    Pow2Add(4, 8);
  }

  /** parseProgramAssociationTable, up to what it does with the entries. */
  method ReadPat(br: ABitReader, ghost entries: seq<PatEntry>, ghost middle: seq<bool>, ghost rest: seq<bool>)
    returns (err: Status, found: seq<PatEntry>)
    requires Ready(br)
    modifies br
    ensures Ready(br)
    ensures PatOk(entries) && |middle| == 40 && |rest| >= 32 && old(br.Remaining()) == PatBits(entries, middle, rest)
            ==> err == Ok && found == entries
  {
    found := [];
    if PatOk(entries) { PatHeaderFits(entries); }
    var isPat, length;
    err, isPat, length := ReadPatHeader(br, 9 + 4 * |entries|, middle + PatEntryBits(entries, rest));
    if err == Ok && isPat {
      err, found := ReadPatBody(br, length, entries, middle, rest);
    }
  }

  // What follows the length of an association section.
  method ReadPatBody(br: ABitReader, length: nat, ghost entries: seq<PatEntry>, ghost middle: seq<bool>,
          ghost rest: seq<bool>)
    returns (err: Status, found: seq<PatEntry>)
    requires Ready(br)
    modifies br
    ensures Ready(br)
    ensures PatOk(entries) && |middle| == 40 && |rest| >= 32 && length == 9 + 4 * |entries|
            && old(br.Remaining()) == middle + PatEntryBits(entries, rest)
            ==> err == Ok && found == entries
  {
    found := [];
    SkipPart(middle, PatEntryBits(entries, rest));
    var _ :- Skip(br, 40);
    if length < 9 || (length - 9) % 4 != 0 {
      return Aborted, found;
    }
    err, found := ReadPatEntries(br, (length - 9) / 4, entries, rest);
    if err == Ok {
      var _ :- Get(br, 32, 0, []);
    }
  }

  method ReadPatHeader(br: ABitReader, ghost n: nat, ghost tail: seq<bool>)
          returns (err: Status, isPat: bool, length: nat)
    requires Ready(br)
    modifies br
    ensures Ready(br)
    ensures n < Pow2(12) && old(br.Remaining()) == PatHeaderBits(n, tail)
            ==> err == Ok && isPat && length == n && br.Remaining() == tail
  {
    isPat, length := false, 0;
    PatHeaderFits([]);
    ghost var r2 := Field(n, 12, tail);
    ghost var r1 := Field(3, 3, r2);
    var tableId :- Get(br, 8, 0, Field(1, 1, r1));
    if tableId != 0 {
      return Ok, false, 0;
    }
    var _ :- Get(br, 1, 1, r1);
    var _ :- Get(br, 3, 3, r2);
    length :- Get(br, 12, n, tail);
    return Ok, true, length;
  }

  // Streams read so far, and the bits of those to come.
  ghost predicate EntriesLeft(bits: seq<bool>, left: nat, es: seq<Entry>, found: seq<StreamInfo>, rest: seq<bool>) {
    && (forall k :: 0 <= k < |es| ==> EntryOk(es[k])) && |found| <= |es| && left == EntriesLength(es[|found|..])
    && found == InfosOf(es)[..|found|] && bits == EntriesBits(es[|found|..], rest)
  }

  lemma EntriesLeftAtStart(es: seq<Entry>, rest: seq<bool>)
    requires forall k :: 0 <= k < |es| ==> EntryOk(es[k])
    ensures EntriesLeft(EntriesBits(es, rest), EntriesLength(es), es, [], rest)
  {
    assert es[0..] == es;
  }

  lemma SomeLeft(es: seq<Entry>, n: nat)
    requires n <= |es| && EntriesLength(es[n..]) > 0
    ensures n < |es|
  {
    assert EntriesLength([]) == 0;
  }

  lemma EntriesLeftNext(bits: seq<bool>, left: nat, es: seq<Entry>, found: seq<StreamInfo>, rest: seq<bool>)
    returns (e: Entry, more: seq<bool>)
    requires EntriesLeft(bits, left, es, found, rest) && left > 0
    ensures EntryOk(e) && left >= 5 + DescriptorsLength(e.descriptors) && bits == EntryBits(e, more)
            && EntriesLeft(more, left - 5 - DescriptorsLength(e.descriptors), es, found + [e.info], rest)
  {
    var n := |found|;
    SomeLeft(es, n);
    e := es[n];
    more := EntriesBits(es[n + 1..], rest);
    assert es[n..][0] == e && es[n..][1..] == es[n + 1..];
    assert InfosOf(es)[..n + 1] == found + [e.info];
  }

  /** The descriptors of a stream, in `length` bytes: each is a tag, a length and so many bytes.  Whenever
      they are accepted, exactly the bytes of the descriptors are gone. */
  method SkipDescriptors(br: ABitReader, length: nat, ghost ds: seq<Descriptor>, ghost rest: seq<bool>)
    returns (err: Status)
    requires Ready(br)
    modifies br
    ensures Ready(br)
    ensures err == Ok ==> 8 * length <= |old(br.Remaining())| && br.Remaining() == old(br.Remaining())[8 * length..]
    ensures DescriptorsOk(ds) && length == DescriptorsLength(ds) && old(br.Remaining()) == DescriptorBits(ds, rest)
            ==> err == Ok && br.Remaining() == rest
  {
    ghost var all, more := br.Remaining(), ds;
    ghost var good := DescriptorsLeft(all, length, ds, rest);
    ghost var gone: nat := 0;
    var left: nat := length;
    while left >= 2
      invariant Ready(br) && left <= length
      invariant gone == 8 * (length - left) && gone <= |all| && br.Remaining() == all[gone..]
      invariant good ==> DescriptorsLeft(br.Remaining(), left, more, rest)
    {
      ghost var before, d, tail := left, Descriptor(0, []), [];
      if good { d, more, tail := DescriptorsLeftNext(br.Remaining(), left, more, rest); }
      err, left := SkipDescriptor(br, left, d, tail);
      if err != Ok {
        return;
      }
      DropTwice(all, gone, 8 * (before - left));
      gone := gone + 8 * (before - left);
    }
    if good && left == 0 { NoDescriptorsLeft(br.Remaining(), more, rest); }
    err := if left == 0 then Ok else Aborted;
  }

  // Descriptors to come.
  ghost predicate DescriptorsLeft(bits: seq<bool>, left: nat, ds: seq<Descriptor>, rest: seq<bool>) {
    DescriptorsOk(ds) && left == DescriptorsLength(ds) && bits == DescriptorBits(ds, rest)
  }

  lemma DescriptorsLeftNext(bits: seq<bool>, left: nat, ds: seq<Descriptor>, rest: seq<bool>)
    returns (d: Descriptor, more: seq<Descriptor>, tail: seq<bool>)
    requires DescriptorsLeft(bits, left, ds, rest) && left > 0
    ensures d.tag < 256 && |d.content| < 256 && 2 + |d.content| <= left
    ensures bits == Field(d.tag, 8, Field(|d.content|, 8, ByteBits(d.content) + tail))
    ensures DescriptorsLeft(tail, left - 2 - |d.content|, more, rest)
  {
    d, more := ds[0], ds[1..];
    tail := DescriptorBits(more, rest);
  }

  lemma NoDescriptorsLeft(bits: seq<bool>, ds: seq<Descriptor>, rest: seq<bool>)
    requires DescriptorsLeft(bits, 0, ds, rest)
    ensures bits == rest
  {}

  lemma DropTwice<T>(s: seq<T>, m: nat, n: nat)
    requires m + n <= |s|
    ensures s[m..][n..] == s[m + n..]
  {}

  // One descriptor, which must fit in what is left.
  method SkipDescriptor(br: ABitReader, length: nat, ghost d: Descriptor, ghost rest: seq<bool>)
    returns (err: Status, left: nat)
    requires Ready(br) && length >= 2
    modifies br
    ensures Ready(br)
    ensures err == Ok ==> left <= length - 2 && 8 * (length - left) <= |old(br.Remaining())|
                          && br.Remaining() == old(br.Remaining())[8 * (length - left)..]
    ensures d.tag < 256 && |d.content| < 256 && 2 + |d.content| <= length
            && old(br.Remaining()) == Field(d.tag, 8, Field(|d.content|, 8, ByteBits(d.content) + rest))
            ==> err == Ok && left == length - 2 - |d.content| && br.Remaining() == rest
  {
    left := length;
    ghost var all := br.Remaining();
    var n;
    err, n := ReadTagAndLength(br, d.tag, |d.content|, ByteBits(d.content) + rest);
    if err != Ok {
      return;
    }
    if left < 2 + n {
      return Aborted, left;
    }
    SkipPart(ByteBits(d.content), rest);
    if 16 + n * 8 <= |all| { DropTwice(all, 16, n * 8); }
    var _ :- Skip(br, n * 8);
    return Ok, left - 2 - n;
  }

  method ReadTagAndLength(br: ABitReader, ghost tag: nat, ghost length: nat, ghost rest: seq<bool>)
    returns (err: Status, n: nat)
    requires Ready(br)
    modifies br
    ensures Ready(br)
    ensures err == Ok ==> 16 <= |old(br.Remaining())| && br.Remaining() == old(br.Remaining())[16..]
    ensures tag < 256 && length < 256 && old(br.Remaining()) == Field(tag, 8, Field(length, 8, rest))
            ==> err == Ok && n == length && br.Remaining() == rest
  {
    n := 0;
    Pow2Values();
    ghost var all := br.Remaining();
    if |all| >= 16 { DropTwice(all, 8, 8); }
    var _ :- Get(br, 8, tag, Field(length, 8, rest));
    n :- Get(br, 8, length, rest);
    err := Ok;
  }

  /** The streams of a map section, in what is left of it. */
  method ReadInfos(br: ABitReader, bytes: nat, ghost es: seq<Entry>, ghost rest: seq<bool>)
    returns (err: Status, found: seq<StreamInfo>)
    requires Ready(br)
    modifies br
    ensures Ready(br)
    ensures (forall k :: 0 <= k < |es| ==> EntryOk(es[k])) && bytes == EntriesLength(es)
            && old(br.Remaining()) == EntriesBits(es, rest)
            ==> err == Ok && found == InfosOf(es) && br.Remaining() == rest
  {
    found := [];
    ghost var good := (forall k :: 0 <= k < |es| ==> EntryOk(es[k])) && bytes == EntriesLength(es)
                      && br.Remaining() == EntriesBits(es, rest);
    if good { EntriesLeftAtStart(es, rest); }
    var left: nat := bytes;
    while left > 0
      invariant Ready(br)
      invariant good ==> EntriesLeft(br.Remaining(), left, es, found, rest)
      decreases left
    {
      ghost var e, more := Entry(StreamInfo(0, 0), []), [];
      if good { e, more := EntriesLeftNext(br.Remaining(), left, es, found, rest); }
      if left < 5 {
        return Aborted, found;
      }
      var info, length;
      err, info, length := ReadStream(br, left, e, more);
      if err != Ok {
        return;
      }
      found := found + [info];
      left := left - 5 - length;
    }
    err := Ok;
    if good { NoneLeft(es, |found|); }
  }

  lemma NoneLeft(es: seq<Entry>, n: nat)
    requires n <= |es| && EntriesLength(es[n..]) == 0
    ensures n == |es| && es[n..] == [] && InfosOf(es)[..n] == InfosOf(es)
  {}

  // One stream and its descriptors, which must fit.
  method ReadStream(br: ABitReader, left: nat, ghost e: Entry, ghost more: seq<bool>)
    returns (err: Status, info: StreamInfo, length: nat)
    requires Ready(br) && left >= 5
    modifies br
    ensures Ready(br) && (err == Ok ==> length <= left - 5)
    ensures EntryOk(e) && left >= 5 + DescriptorsLength(e.descriptors) && old(br.Remaining()) == EntryBits(e, more)
            ==> err == Ok && info == e.info && length == DescriptorsLength(e.descriptors) && br.Remaining() == more
  {
    err, info, length := ReadInfo(br, e.info, DescriptorsLength(e.descriptors), DescriptorBits(e.descriptors, more));
    if err == Ok {
      if left - 5 < length {
        err := Aborted;
      } else {
        err := SkipDescriptors(br, length, e.descriptors, more);
      }
    }
  }

  method ReadInfo(br: ABitReader, ghost e: StreamInfo, ghost n: nat, ghost more: seq<bool>)
          returns (err: Status, info: StreamInfo, length: nat)
    requires Ready(br)
    modifies br
    ensures Ready(br)
    ensures e.streamType < 256 && e.pid < 0x2000 && n < 0x400 && old(br.Remaining()) ==
              Field(e.streamType, 8, Field(7, 3, Field(e.pid, 13, Field(15, 4, Field(n, 12, more)))))
            ==> err == Ok && info == e && length == n && br.Remaining() == more
  {
    info, length := StreamInfo(0, 0), 0;
    InfoFits();
    ghost var r2 := Field(n, 12, more);
    ghost var r1 := Field(15, 4, r2);
    ghost var r0 := Field(e.pid, 13, r1);
    var streamType :- Get(br, 8, e.streamType, Field(7, 3, r0));
    var _ :- Get(br, 3, 7, r0);
    var pid :- Get(br, 13, e.pid, r1);
    var _ :- Get(br, 4, 15, r2);
    length :- Get(br, 12, n, more);
    if length >= 0x400 {
      return Aborted, info, length;
    }
    return Ok, StreamInfo(streamType, pid), length;
  }

  lemma InfoFits()
    ensures Pow2(8) == 256 && 7 < Pow2(3) && Pow2(13) == 0x2000 && 15 < Pow2(4) && Pow2(12) == 0x1000
  {
    Pow2Values();
    Pow2Add(5, 8);
    Pow2Add(4, 8);
  }

  /** parseProgramMap, up to what it does with the streams. */
  method ReadPmt(br: ABitReader, ghost es: seq<Entry>, ghost info: Data, ghost middle: seq<bool>,
          ghost rest: seq<bool>)
    returns (err: Status, found: seq<StreamInfo>)
    requires Ready(br)
    modifies br
    ensures Ready(br)
    ensures MapOk(es, info) && |middle| == 60 && |rest| >= 32 && old(br.Remaining()) == MapBits(es, info, middle, rest)
            ==> err == Ok && found == InfosOf(es)
  {
    found := [];
    var length;
    err, length := ReadPmtHeader(br, MapLength(es, info), middle + InfoAndEntries(es, info, rest));
    if err == Ok {
      err, found := ReadPmtBody(br, length, es, info, middle, rest);
    }
  }

  // What follows the length of a map section.
  method ReadPmtBody(br: ABitReader, length: nat, ghost es: seq<Entry>, ghost info: Data, ghost middle: seq<bool>,
          ghost rest: seq<bool>)
    returns (err: Status, found: seq<StreamInfo>)
    requires Ready(br)
    modifies br
    ensures Ready(br)
    ensures MapOk(es, info) && |middle| == 60 && |rest| >= 32 && length == MapLength(es, info)
            && old(br.Remaining()) == middle + InfoAndEntries(es, info, rest)
            ==> err == Ok && found == InfosOf(es)
  {
    found := [];
    var infoLength;
    err, infoLength := SkipProgramInfo(br, info, middle, EntriesBits(es, rest));
    if err != Ok {
      return;
    }
    if length < 13 + infoLength {
      return Aborted, found;
    }
    err, found := ReadInfos(br, length - 13 - infoLength, es, rest);
    if err == Ok {
      var _ :- Get(br, 32, 0, []);
    }
  }

  // From the program number to the reserved bits after the PCR PID, and the program's descriptors.
  method SkipProgramInfo(br: ABitReader, ghost info: Data, ghost middle: seq<bool>, ghost more: seq<bool>)
          returns (err: Status, infoLength: nat)
    requires Ready(br)
    modifies br
    ensures Ready(br)
    ensures |info| < 0x400 && |middle| == 60
            && old(br.Remaining()) == middle + Field(|info|, 12, ByteBits(info) + more)
            ==> err == Ok && infoLength == |info| && br.Remaining() == more
  {
    infoLength := 0;
    InfoFits();
    SkipPart(middle, Field(|info|, 12, ByteBits(info) + more));
    var _ :- Skip(br, 60);
    infoLength :- Get(br, 12, |info|, ByteBits(info) + more);
    if infoLength >= 0x400 {
      return Aborted, infoLength;
    }
    SkipPart(ByteBits(info), more);
    var _ :- Skip(br, infoLength * 8);
    err := Ok;
  }

  method ReadPmtHeader(br: ABitReader, ghost n: nat, ghost tail: seq<bool>) returns (err: Status, length: nat)
    requires Ready(br)
    modifies br
    ensures Ready(br)
    ensures n <= 1021 && old(br.Remaining()) == PmtHeaderBits(n, tail)
            ==> err == Ok && length == n && br.Remaining() == tail
  {
    length := 0;
    PmtHeaderFits();
    ghost var r3 := Field(n, 12, tail);
    ghost var r2 := Field(3, 2, r3);
    ghost var r1 := Field(0, 1, r2);
    var tableId :- Get(br, 8, 2, Field(1, 1, r1));
    if tableId != 2 {
      return Malformed, length;
    }
    var syntax :- Get(br, 1, 1, r1);
    if syntax != 1 {
      return Malformed, length;
    }
    var zero :- Get(br, 1, 0, r2);
    if zero != 0 {
      return Aborted, length;
    }
    var _ :- Get(br, 2, 3, r3);
    length :- Get(br, 12, n, tail);
    err := if length <= 1021 then Ok else Aborted;
  }

  lemma PmtHeaderFits()
    ensures 2 < Pow2(8) && 1 < Pow2(1) && 3 < Pow2(2) && 1021 < Pow2(12)
  {
    Pow2Values();
    Pow2Add(4, 8);
  }

  // ------------------------------------------------------------------ adaptation fields

  // The clock reference in a field, if there is one.
  function ClockOf(field: Data): seq<nat>
    requires FieldOk(field)
  {
    if HasPcr(field) then [PcrOf(field[1..7])] else []
  }

  /** parseAdaptationField: whatever the field holds, if a PCR it announces has room, it is skipped to its
      last byte and its PCR is found. */
  method ParseAdaptationField(br: ABitReader, ghost field: Data, ghost rest: seq<bool>)
    returns (err: Status, clock: seq<nat>)
    requires Ready(br)
    modifies br
    ensures Ready(br)
    ensures FieldOk(field) && old(br.Remaining()) == Field(|field|, 8, ByteBits(field) + rest)
            ==> err == Ok && br.Remaining() == rest && clock == ClockOf(field)
  {
    Pow2Values();
    clock := [];
    ghost var good := FieldOk(field) && br.Remaining() == Field(|field|, 8, ByteBits(field) + rest);
    var length :- Get(br, 8, |field|, ByteBits(field) + rest);
    if length > 0 {
      err, clock := ParseField(br, length, field, rest);
    } else {
      assert good ==> ByteBits(field) + rest == rest;
      err := Ok;
    }
  }

  // The field's bytes.
  method ParseField(br: ABitReader, length: nat, ghost field: Data, ghost rest: seq<bool>)
    returns (err: Status, clock: seq<nat>)
    requires Ready(br)
    modifies br
    ensures Ready(br)
    ensures FieldOk(field) && 0 < |field| == length && old(br.Remaining()) == ByteBits(field) + rest
            ==> err == Ok && br.Remaining() == rest && clock == ClockOf(field)
  {
    clock := [];
    ghost var good := FieldOk(field) && 0 < |field| == length && br.Remaining() == ByteBits(field) + rest;
    ghost var all := br.Remaining();
    if good { FirstByte(field, rest); }
    var flag;
    err, flag := ReadFieldFlags(br, if good then field[0] else 0, if good then ByteBits(field[1..]) + rest else []);
    if err != Ok {
      return;
    }
    var read := 4;
    if flag == 1 {
      if good { ClockStarts(field, rest); }
      var pcr;
      err, pcr := ReadPcr(br, all, if good then field[1..7] else NO_CLOCK,
                          if good then ByteBits(field[7..]) + rest else []);
      if err != Ok {
        return;
      }
      clock, read := [pcr], 56;
    }
    if length * 8 < read {
      return Aborted, clock;  // the difference wraps around
    }
    if good { FieldEnds(field, rest, read, br.Remaining()); }
    var _ :- Skip(br, length * 8 - read);
  }

  const NO_CLOCK: Data := [0, 0, 0, 0, 0, 0]

  // A PCR: 52 bits after the first four.
  method ReadPcr(br: ABitReader, ghost all: seq<bool>, ghost bs: Data, ghost rest: seq<bool>)
    returns (err: Status, pcr: nat)
    requires Ready(br) && |all| >= 4 && br.Remaining() == all[4..] && |bs| == 6
    modifies br
    ensures Ready(br) && (err == Ok || err == Aborted)
    ensures err == Ok <==> |all| >= 56
    ensures err == Ok ==> br.Remaining() == all[56..]
    ensures |all| >= 56 && all[8..] == PcrBits(bs, rest) ==> pcr == PcrOf(bs)
  {
    PcrFits(bs);
    err, pcr := ReadClock(br, all, Word(bs[0], bs[1], bs[2], bs[3]), bs[4] / 128, bs[4] / 2 % 64,
                          LowNine(bs[4], bs[5]), rest);
  }

  method ReadClock(br: ABitReader, ghost all: seq<bool>, ghost w: nat, ghost bit: nat, ghost six: nat, ghost nine: nat,
          ghost rest: seq<bool>)
    returns (err: Status, pcr: nat)
    requires Ready(br) && |all| >= 4 && br.Remaining() == all[4..]
    requires w < Pow2(32) && bit < Pow2(1) && nine < Pow2(9)
    modifies br
    ensures Ready(br) && (err == Ok || err == Aborted)
    ensures err == Ok <==> |all| >= 56
    ensures err == Ok ==> br.Remaining() == all[56..]
    ensures |all| >= 56 && all[8..] == Field(w, 32, Field(bit, 1, Field(six, 6, Field(nine, 9, rest))))
            ==> pcr == (w * 2 + bit) * 300 + nine
  {
    pcr := 0;
    var _ :- Skip(br, 4);
    SliceOfTail(all, 4, 4);
    var high;
    err, high := ReadBase(br, all[8..], w, bit, six, Field(nine, 9, rest));
    if err != Ok {
      return;
    }
    SliceOfTail(all, 8, 39);
    var last :- Get(br, 9, nine, rest);
    SliceOfTail(all, 47, 9);
    err, pcr := Ok, high * 300 + last;
  }

  // The 33 bits of the base and the six behind them.
  method ReadBase(br: ABitReader, ghost all: seq<bool>, ghost w: nat, ghost bit: nat, ghost six: nat,
          ghost rest: seq<bool>)
    returns (err: Status, base: nat)
    requires Ready(br) && br.Remaining() == all
    modifies br
    ensures Ready(br) && (err == Ok || err == Aborted)
    ensures err == Ok <==> |all| >= 39
    ensures err == Ok ==> br.Remaining() == all[39..]
    ensures all == Field(w, 32, Field(bit, 1, Field(six, 6, rest))) && w < Pow2(32) && bit < Pow2(1)
            ==> err == Ok && base == w * 2 + bit && br.Remaining() == rest
  {
    base := 0;
    var high :- Get(br, 32, w, Field(bit, 1, Field(six, 6, rest)));
    var low :- Get(br, 1, bit, Field(six, 6, rest));
    SliceOfTail(all, 32, 1);
    var _ :- Skip(br, 6);
    SliceOfTail(all, 33, 6);
    SkipPart(ToBits(six, 6), rest);
    err, base := Ok, high * 2 + low;
  }

  lemma PcrFits(bs: Data)
    requires |bs| == 6
    ensures Word(bs[0], bs[1], bs[2], bs[3]) < Pow2(32) && bs[4] / 128 < Pow2(1) && bs[4] / 2 % 64 < Pow2(6)
    ensures LowNine(bs[4], bs[5]) < Pow2(9)
  {
    Pow2Values();
  }

  lemma ClockStarts(field: Data, rest: seq<bool>)
    requires |field| >= 7
    ensures (ByteBits(field) + rest)[8..] == PcrBits(field[1..7], ByteBits(field[7..]) + rest)
  {
    FirstByte(field, rest);
    SkipPart(ToBits(field[0], 8), ByteBits(field[1..]) + rest);
    SplitTail(field, 1, 7);
    ByteBitsConcat(field[1..7], field[7..]);
    Associative(ByteBits(field[1..7]), ByteBits(field[7..]), rest);
    PcrIsBits(field[1..7], ByteBits(field[7..]) + rest);
  }

  // After `read` bits of the field, skipping the others leaves what follows it.
  lemma FieldEnds(field: Data, rest: seq<bool>, read: nat, left: seq<bool>)
    requires 4 <= read <= 8 * |field| && left == (ByteBits(field) + rest)[read..]
    ensures left[8 * |field| - read..] == rest && |left| >= 8 * |field| - read
  {
    SplitHead(ByteBits(field), rest, read);
    assert left == ByteBits(field)[read..] + rest;
  }

  method ReadFieldFlags(br: ABitReader, ghost b: nat, ghost tail: seq<bool>) returns (err: Status, pcr: nat)
    requires Ready(br)
    modifies br
    ensures Ready(br)
    ensures err == Ok ==> |old(br.Remaining())| >= 4 && br.Remaining() == old(br.Remaining())[4..]
    ensures b < 256 && old(br.Remaining()) == Field(b, 8, tail) ==> err == Ok && pcr == b / 16 % 2
  {
    pcr := 0;
    if b < 256 { FlagsByte(b, tail); FlagsFit(b); }
    ghost var r3 := Field(b % 16, 4, tail);
    ghost var r2 := Field(b / 16 % 2, 1, r3);
    ghost var all := br.Remaining();
    var _ :- Get(br, 1, b / 16 / 2 / 4, Field(b / 16 / 2 % 4, 2, r2));
    assert b < 256 && all == Field(b, 8, tail) ==> br.Remaining() == Field(b / 16 / 2 % 4, 2, r2);
    var _ :- Get(br, 2, b / 16 / 2 % 4, r2);
    pcr :- Get(br, 1, b / 16 % 2, r3);
    SliceOfTail(all, 1, 2);
    SliceOfTail(all, 3, 1);
    err := Ok;
  }

  lemma FlagsFit(b: nat)
    requires b < 256
    ensures b / 16 / 2 / 4 < Pow2(1) && b / 16 / 2 % 4 < Pow2(2) && b / 16 % 2 < Pow2(1)
  {
    Pow2Values();
  }

  // ------------------------------------------------------------------ the parser

  /** isComplete: the buffer has the whole section. */
  predicate Complete(data: Data) {
    |data| >= 3 && |data| >= (data[1] as int) % 16 * 256 + data[2] + 3
  }

  /** What a section holds. */
  datatype Table = Pat(entries: seq<PatEntry>, middle: seq<bool>, rest: seq<bool>)
                 | Pmt(infos: seq<StreamInfo>, middle: seq<bool>, rest: seq<bool>)

  predicate Holds(data: Data, t: Table) {
    Complete(data) && |t.rest| >= 32 &&
    match t
    case Pat(entries, middle, rest) => PatOk(entries) && |middle| == 40
        && ByteBits(data) == PatBits(entries, middle, rest)
    case Pmt(infos, middle, rest) => PmtOk(infos) && |middle| == 60 && ByteBits(data) == PmtBits(infos, middle, rest)
  }

  // The first program, from k on, whose map is on this PID.
  function MapOwner(programs: seq<Program>, pid: nat, k: nat): (g: nat)
    requires k <= |programs|
    ensures k <= g <= |programs|
    decreases |programs| - k
  {
    if k == |programs| || programs[k].mapPid == pid then k else MapOwner(programs, pid, k + 1)
  }

  function WithStreams(programs: seq<Program>, g: nat, streams: map<nat, Stream>): seq<Program>
    requires g < |programs|
  {
    programs[g := programs[g].(streams := streams)]
  }

  /** What a table on a PID with a section does. */
  predicate OnTable(st: State, st': State, pid: nat, t: Table) {
    && st'.delivered == st.delivered
    && match t
       case Pat(entries, _, _) =>
         pid == 0 ==> var a := AddPrograms(st, entries);
                      st'.programs == a.programs && st'.sections == a.sections[pid := Section([], 0)]
       case Pmt(infos, _, _) =>
         var g := MapOwner(st.programs, pid, 0);
         pid != 0 && g < |st.programs| && !PidsChanged(st.programs[g].streams, infos) ==>
           && st'.programs == WithStreams(st.programs, g, AddStreams(st.programs[g].streams, infos))
           && st'.sections == st.sections[pid := Section([], 0)]
  }

  // The table is of the kind its PID says, and no stream changed its type.
  predicate Expected(st: State, pid: nat, t: Table) {
    match t
    case Pat(_, _, _) => pid == 0
    case Pmt(infos, _, _) =>
      var g := MapOwner(st.programs, pid, 0);
      pid != 0 && g < |st.programs| && !PidsChanged(st.programs[g].streams, infos)
  }

  class ATSParser {
    var programs: seq<Program>          // mPrograms
    var sections: map<nat, Section>     // mPSISections
    var delivered: seq<Delivery>        // the calls of onPayloadData

    ghost function St(): State
      reads this
    {
      State(programs, sections, delivered)
    }

    constructor ()
      ensures St() == State([], map[0 := Section([], 0)], [])
    {
      programs, sections, delivered := [], map[0 := Section([], 0)], [];
    }

    method UpdatePrograms(entries: seq<PatEntry>)
      modifies `programs, `sections
      ensures (forall k :: 0 <= k < |entries| ==> entries[k].number != 0) ==> St() == AddPrograms(old(St()), entries)
      ensures delivered == old(delivered)
    {
      ghost var good := forall k :: 0 <= k < |entries| ==> entries[k].number != 0;
      var i := 0;
      assert entries[..0] == [];
      while i < |entries|
        invariant 0 <= i <= |entries| && delivered == old(delivered)
        invariant good ==> St() == AddPrograms(old(St()), entries[..i])
      {
        var e := entries[i];
        assert entries[..i + 1][..i] == entries[..i];
        if e.number != 0 {
          var g := FindProgram(e.number);
          if g < |programs| {
            programs := programs[g := programs[g].(mapPid := e.mapPid)];
          } else {
            programs := programs + [Program(e.number, e.mapPid, map[])];
          }
          if e.mapPid !in sections {
            sections := sections[e.mapPid := Section([], 0)];
          }
        }
        i := i + 1;
      }
      assert entries[..|entries|] == entries;
    }

    method FindProgram(number: nat) returns (g: nat)
      ensures g == IndexOfProgram(programs, number, 0)
    {
      g := 0;
      while g < |programs| && programs[g].number != number
        invariant g <= |programs| && IndexOfProgram(programs, number, g) == IndexOfProgram(programs, number, 0)
      {
        g := g + 1;
      }
    }

    method FindMap(pid: nat) returns (g: nat)
      ensures g == MapOwner(programs, pid, 0)
    {
      g := 0;
      while g < |programs| && programs[g].mapPid != pid
        invariant g <= |programs| && MapOwner(programs, pid, g) == MapOwner(programs, pid, 0)
      {
        g := g + 1;
      }
    }

    method FindOwner(pid: nat) returns (g: nat)
      ensures g == Owner(programs, pid, 0)
    {
      g := 0;
      while g < |programs| && pid !in programs[g].streams
        invariant g <= |programs| && Owner(programs, pid, g) == Owner(programs, pid, 0)
      {
        g := g + 1;
      }
    }

    /** What parseProgramMap does with the streams it read. */
    method UpdateStreams(g: nat, infos: seq<StreamInfo>) returns (err: Status)
      requires g < |programs|
      modifies `programs
      ensures !PidsChanged(old(programs[g].streams), infos) ==>
                err == Ok && programs == WithStreams(old(programs), g, AddStreams(old(programs[g].streams), infos))
      ensures PidsChanged(old(programs[g].streams), infos) && !Swapped(old(programs[g].streams), infos) ==>
                err == Malformed && programs == old(programs)
      ensures PidsChanged(old(programs[g].streams), infos) && Swapped(old(programs[g].streams), infos) ==>
                err == Ok && programs == WithStreams(old(programs), g, Traded(old(programs[g].streams), infos))
    {
      var streams := programs[g].streams;
      var i := 0;
      while i < |infos| && !Changed(streams, infos[i])
        invariant 0 <= i <= |infos| && forall k :: 0 <= k < i ==> !Changed(streams, infos[k])
      {
        i := i + 1;
      }
      if i < |infos| {
        if !Swapped(streams, infos) {
          return Malformed;
        }
        streams := Traded(streams, infos);
        NothingMissing(streams, infos);
      }
      streams := AddMissing(streams, infos);
      programs := WithStreams(programs, g, streams);
      err := Ok;
    }

    method AddMissing(streams: map<nat, Stream>, infos: seq<StreamInfo>) returns (r: map<nat, Stream>)
      ensures r == AddStreams(streams, infos)
    {
      r := streams;
      var i := 0;
      assert infos[..0] == [];
      while i < |infos|
        invariant 0 <= i <= |infos| && r == AddStreams(streams, infos[..i])
      {
        assert infos[..i + 1][..i] == infos[..i];
        if infos[i].pid !in r {
          r := r[infos[i].pid := Stream(infos[i].streamType, -1, false, [])];
        }
        i := i + 1;
      }
      assert infos[..|infos|] == infos;
    }

    /** A complete section: the association table on PID 0, a map elsewhere. */
    method ParseTable(pid: nat, data: Data, ghost t: Table) returns (err: Status)
      requires pid in sections
      modifies `programs, `sections
      ensures delivered == old(delivered)
      ensures Holds(data, t) && Expected(old(St()), pid, t) ==> err == Ok && OnTable(old(St()), St(), pid, t)
    {
      if pid == 0 {
        err := ParsePat(data, t);
      } else {
        var g := FindMap(pid);
        if g == |programs| {
          sections := sections - {pid};
          return Ok;
        }
        err := ParsePmt(g, data, t);
      }
      if err == Ok {
        sections := sections[pid := Section([], 0)];
      }
    }

    method ParsePat(data: Data, ghost t: Table) returns (err: Status)
      modifies `programs, `sections
      ensures delivered == old(delivered)
      ensures Holds(data, t) && t.Pat? ==> err == Ok && St() == AddPrograms(old(St()), t.entries)
    {
      var br := new ABitReader(data);
      var entries;
      err, entries := ReadPat(br, if t.Pat? then t.entries else [], t.middle, t.rest);
      if err == Ok {
        UpdatePrograms(entries);
      }
    }

    method ParsePmt(g: nat, data: Data, ghost t: Table) returns (err: Status)
      requires g < |programs|
      modifies `programs
      ensures Holds(data, t) && t.Pmt? && !PidsChanged(old(programs[g].streams), t.infos) ==>
                err == Ok && programs == WithStreams(old(programs), g, AddStreams(old(programs[g].streams), t.infos))
    {
      var br := new ABitReader(data);
      var infos;
      ghost var listed := if t.Pmt? then t.infos else [];
      if PmtOk(listed) { PmtIsMap(listed, t.middle, t.rest); }
      err, infos := ReadPmt(br, Undescribed(listed), [], t.middle, t.rest);
      if err == Ok {
        err := UpdateStreams(g, infos);
      }
    }

    /** A packet on a PID with a section: its bytes are added, and parsed when they are complete. */
    method ParseSection(br: ABitReader, pid: nat, start: bool, ghost data: Data, ghost t: Table) returns (err: Status)
      requires Ready(br) && pid in sections
      modifies `programs, `sections, br
      ensures delivered == old(delivered)
      ensures start && old(br.Remaining()) == Field(0, 8, ByteBits(data)) && Holds(data, t)
              && Expected(old(St()), pid, t)
              ==> err == Ok && OnTable(old(St()), St(), pid, t)
    {
      ghost var before := St();
      ghost var good := start && br.Remaining() == Field(0, 8, ByteBits(data)) && Holds(data, t)
          && Expected(before, pid, t);
      var section;
      err, section := Gather(br, sections[pid], start, data);
      if err != Ok {
        return;
      }
      sections := sections[pid := section];
      if !Complete(section.buffer) {
        return Ok;
      }
      ghost var with := St();
      err := ParseTable(pid, section.buffer, t);
      if good {
        TableAfter(before, with, St(), pid, section, t);
      }
    }

    // The section with the packet's bytes; a start drops what was there.
    method Gather(br: ABitReader, old_: Section, start: bool, ghost data: Data) returns (err: Status, section: Section)
      requires Ready(br)
      modifies br
      ensures start && old(br.Remaining()) == Field(0, 8, ByteBits(data)) ==> err == Ok && section.buffer == data
    {
      section := old_;
      var bs;
      if start {
        if section.buffer != [] {
          section := Section([], 0);
        }
        var skip;
        err, skip := SkipPointer(br, ByteBits(data));
        if err != Ok {
          return;
        }
        section := section.(skip := (skip + 1) % 256);
      }
      err, bs := TakeAligned(br, data);
      if err == Ok {
        assert [] + data == data;
        section := section.(buffer := section.buffer + bs);
      }
    }

    // The pointer field and what it skips.
    method SkipPointer(br: ABitReader, ghost rest: seq<bool>) returns (err: Status, skip: nat)
      requires Ready(br)
      modifies br
      ensures Ready(br)
      ensures old(br.Remaining()) == Field(0, 8, rest) ==> err == Ok && skip == 0 && br.Remaining() == rest
    {
      skip := 0;
      ZeroFits();
      skip :- Get(br, 8, 0, rest);
      ghost var here := br.Remaining();
      var _ :- Skip(br, skip * 8);
      assert here[0..] == here;
      err := Ok;
    }

    // What is left, in whole bytes.
    method TakeAligned(br: ABitReader, ghost data: Data) returns (err: Status, bs: Data)
      requires Ready(br)
      ensures br.Remaining() == ByteBits(data) ==> err == Ok && bs == data
    {
      var left := br.NumBitsLeft();
      if left % 8 != 0 {
        return Malformed, [];
      }
      bs := TsParser.Bytes(br, left / 8, data);
      err := Ok;
    }

    /** A packet on the PID of a stream. */
    method ParseStreamPacket(br: ABitReader, pid: nat, cc: nat, start: bool, ghost payload: Data, ghost p: Pes)
      returns (err: Status)
      requires Ready(br)
      modifies `programs, `delivered
      ensures sections == old(sections)
      ensures old(br.Remaining()) == ByteBits(payload) ==>
              StreamHears(old(St()), St(), pid, Heard(cc, start, payload, err == Ok))
      ensures old(br.Remaining()) == ByteBits(payload) && FlushesOnly(old(St()), pid, cc, start, p)
              ==> err == Ok && OnStream(old(St()), St(), pid, cc, start, payload, p)
    {
      var g := FindOwner(pid);
      if g == |programs| {
        return Ok;
      }
      var left := br.NumBitsLeft();
      if left % 8 != 0 {
        return Aborted;
      }
      var bs := TsParser.Bytes(br, left / 8, payload);
      if br.Remaining() == ByteBits(payload) { assert bs == payload; }
      var s, out;
      err, s, out := ParseStream(programs[g].streams[pid], cc, start, bs, p);
      programs := Replaced(programs, g, pid, s);
      if |out| > 0 {
        delivered := delivered + [Delivery(pid, out[0])];
      }
    }

    /** parsePID: sections first, then the streams of all programs. */
    method ParsePID(br: ABitReader, pid: nat, cc: nat, start: bool, ghost payload: Data, ghost p: Pes, ghost t: Table)
      returns (err: Status)
      requires Ready(br)
      modifies this, br
      ensures old(br.Remaining()) == ByteBits(payload) && pid !in old(sections) ==>
              StreamHears(old(St()), St(), pid, Heard(cc, start, payload, err == Ok))
      ensures old(br.Remaining()) == ByteBits(payload) && pid !in old(sections)
              && FlushesOnly(old(St()), pid, cc, start, p)
              ==> err == Ok && OnStream(old(St()), St(), pid, cc, start, payload, p)
      ensures old(br.Remaining()) == ByteBits(payload) && pid in old(sections)
              && TablePacket(old(St()), pid, start, payload, t)
              ==> err == Ok && OnTable(old(St()), St(), pid, t)
    {
      if pid in sections {
        ghost var data := if payload != [] then payload[1..] else [];
        if payload != [] {
          ByteField(payload[0], data);
          assert [payload[0]] + data == payload;
        }
        err := ParseSection(br, pid, start, data, t);
      } else {
        err := ParseStreamPacket(br, pid, cc, start, payload, p);
      }
    }

    /** parseTS, on the 188 bytes of a packet. */
    method FeedTSPacket(packet: Data, ghost w: Wire, ghost p: Pes, ghost t: Table) returns (err: Status)
      requires |packet| == 188
      modifies this
      ensures Is(packet, w) && w.pid !in old(sections) ==>
              StreamHears(old(St()), St(), w.pid, Heard(w.cc, w.start, w.payload, err == Ok))
      ensures Is(packet, w) && w.pid !in old(sections) && FlushesOnly(old(St()), w.pid, w.cc, w.start, p)
              ==> err == Ok && OnStream(old(St()), St(), w.pid, w.cc, w.start, w.payload, p)
      ensures Is(packet, w) && w.pid in old(sections) && TablePacket(old(St()), w.pid, w.start, w.payload, t)
              ==> err == Ok && OnTable(old(St()), St(), w.pid, t)
    {
      var br := new ABitReader(packet);
      ghost var after := AfterHeader(w);
      if WireOk(w) { PacketIsBits(w.start, w.pid, w.control, w.cc, w.field, w.payload); }
      var h;
      err, h := ReadHeader(br, w, after);
      if err != Ok || !h.Found? {
        return;
      }
      if h.control == 2 || h.control == 3 {
        var clock;
        err, clock := ParseAdaptationField(br, w.field, ByteBits(w.payload));
        if err != Ok {
          return;
        }
      }
      if h.control == 1 || h.control == 3 {
        err := ParsePID(br, h.pid, h.cc, h.start, w.payload, p, t);
      }
    }

    /** The end of the stream: every stream of every program hands on what it still holds, in order. */
    method SignalEOS(ghost held: seq<map<nat, Pes>>)
      requires SmallPids(programs)
      modifies `programs, `delivered
      ensures programs == Emptied(old(programs), |old(programs)|) && sections == old(sections)
      ensures Holding(old(programs), held) ==> Extended(old(delivered), delivered, AllHeld(held))
    {
      ghost var before := programs;
      var g := 0;
      NoneEmptied(before);
      while g < |programs|
        invariant g <= |programs| == |before| && programs == Emptied(before, g)
        invariant Holding(before, held) ==> Extended(old(delivered), delivered, AllHeld(held[..g]))
      {
        ghost var now, m := delivered, if Holding(before, held) then held[g] else map[];
        SignalProgram(g, m);
        if Holding(before, held) {
          assert held[..g + 1] == held[..g] + [m];
          ExtendedTwice(old(delivered), now, delivered, AllHeld(held[..g]), HeldTo(m, PIDS));
        }
        g := g + 1;
      }
      assert |held| == |before| ==> held[..g] == held;
    }

    // Program::signalEOS: its streams in order of their PIDs.
    method SignalProgram(g: nat, ghost held: map<nat, Pes>)
      requires g < |programs|
      modifies `programs, `delivered
      ensures programs == old(programs)[g := EmptiedTo(old(programs)[g], PIDS)]
      ensures StreamsHold(old(programs)[g].streams, held) ==> Extended(old(delivered), delivered, HeldTo(held, PIDS))
    {
      ghost var before := programs;
      var pid := 0;
      EmptiedToNone(before, g);
      while pid < PIDS
        invariant 0 <= pid <= PIDS && programs == before[g := EmptiedTo(before[g], pid)]
        invariant StreamsHold(before[g].streams, held) ==> Extended(old(delivered), delivered, HeldTo(held, pid))
      {
        ghost var now, p := delivered, if pid in held then held[pid] else Pes(0, 0, []);
        EmptiedToNext(before[g], pid);
        if pid in programs[g].streams {
          FlushStream(g, pid, p);
        }
        if pid in held && StreamsHold(before[g].streams, held) {
          ExtendedTwice(old(delivered), now, delivered, HeldTo(held, pid), [Held(pid, p)]);
        }
        pid := pid + 1;
      }
    }

    // Stream::signalEOS: the flush, whether or not what is flushed can be parsed.
    method FlushStream(g: nat, pid: nat, ghost p: Pes)
      requires g < |programs| && pid in programs[g].streams
      modifies `programs, `delivered
      ensures var s := old(programs)[g].streams[pid];
              && programs == Replaced(old(programs), g, pid, s.(buffer := []))
              && (s.buffer == [] ==> delivered == old(delivered))
              && (PesOk(p) && s.buffer == PesBytes(p) ==> Extended(old(delivered), delivered, [Held(pid, p)]))
    {
      var s := programs[g].streams[pid];
      programs := Replaced(programs, g, pid, s.(buffer := []));
      if s.buffer != [] {
        if PesOk(p) { WrittenHead(p); }
        var _, out := ParsePES(s.buffer, AsHead(p), p.data);
        if |out| > 0 {
          delivered := delivered + [Delivery(pid, out[0])];
        }
      }
    }
  }

  // ------------------------------------------------------------------ the end of the stream

  // PIDs have 13 bits.
  const PIDS := 0x2000

  predicate SmallPids(programs: seq<Program>) {
    forall g, pid :: 0 <= g < |programs| && pid in programs[g].streams ==> pid < PIDS
  }

  // A program whose streams on PIDs below n are empty, and the first n programs with all streams empty.
  function EmptiedTo(program: Program, n: nat): Program {
    program.(streams := map pid | pid in program.streams ::
      if pid < n then program.streams[pid].(buffer := []) else program.streams[pid])
  }

  function Emptied(programs: seq<Program>, n: nat): seq<Program> {
    seq(|programs|, g requires 0 <= g < |programs| => if g < n then EmptiedTo(programs[g], PIDS) else programs[g])
  }

  lemma NoneEmptied(programs: seq<Program>)
    ensures Emptied(programs, 0) == programs
  {}

  lemma EmptiedToNone(programs: seq<Program>, g: nat)
    requires g < |programs|
    ensures programs[g := EmptiedTo(programs[g], 0)] == programs
  {
    assert EmptiedTo(programs[g], 0).streams == programs[g].streams;
  }

  lemma EmptiedToNext(program: Program, pid: nat)
    ensures pid !in program.streams ==> EmptiedTo(program, pid + 1) == EmptiedTo(program, pid)
    ensures pid in program.streams ==>
      EmptiedTo(program, pid).streams[pid] == program.streams[pid]
      && EmptiedTo(program, pid + 1).streams
      == EmptiedTo(program, pid).streams[pid := program.streams[pid].(buffer := [])]
  {
    if pid !in program.streams {
      assert EmptiedTo(program, pid + 1).streams == EmptiedTo(program, pid).streams;
    }
  }

  /** A PES packet that a stream still holds. */
  datatype Held = Held(pid: nat, pes: Pes)

  predicate StreamHolds(s: Stream, held: map<nat, Pes>, pid: nat) {
    if pid in held then PesOk(held[pid]) && s.buffer == PesBytes(held[pid]) else s.buffer == []
  }

  predicate StreamsHold(streams: map<nat, Stream>, held: map<nat, Pes>) {
    held.Keys <= streams.Keys && forall pid :: pid in streams ==> StreamHolds(streams[pid], held, pid)
  }

  predicate Holding(programs: seq<Program>, held: seq<map<nat, Pes>>) {
    |held| == |programs| && forall g :: 0 <= g < |programs| ==> StreamsHold(programs[g].streams, held[g])
  }

  // In order of the PIDs, below n.
  function HeldTo(held: map<nat, Pes>, n: nat): seq<Held> {
    if n == 0 then [] else HeldTo(held, n - 1) + if n - 1 in held then [Held(n - 1, held[n - 1])] else []
  }

  function AllHeld(held: seq<map<nat, Pes>>): seq<Held> {
    if held == [] then [] else AllHeld(held[..|held| - 1]) + HeldTo(held[|held| - 1], PIDS)
  }

  /** These have been delivered since. */
  predicate Extended(before: seq<Delivery>, after: seq<Delivery>, ps: seq<Held>) {
    && |after| == |before| + |ps| && after[..|before|] == before
    && forall k :: 0 <= k < |ps| ==>
         after[|before| + k].pid == ps[k].pid && Delivers(after[|before| + k].payload, ps[k].pes)
  }

  lemma ExtendedTwice(a: seq<Delivery>, b: seq<Delivery>, c: seq<Delivery>, ps: seq<Held>, qs: seq<Held>)
    requires Extended(a, b, ps) && Extended(b, c, qs)
    ensures Extended(a, c, ps + qs)
  {
    assert c[..|a|] == c[..|b|][..|a|];
    forall k | 0 <= k < |ps + qs|
      ensures c[|a| + k].pid == (ps + qs)[k].pid && Delivers(c[|a| + k].payload, (ps + qs)[k].pes) {
      if k < |ps| {
        assert c[|a| + k] == c[..|b|][|a| + k];
      } else {
        assert c[|a| + k] == c[|b| + (k - |ps|)];
      }
    }
  }

  /** A packet that starts and completes a section. */
  predicate TablePacket(st: State, pid: nat, start: bool, payload: Data, t: Table) {
    start && payload != [] && payload[0] == 0 && Holds(payload[1..], t) && Expected(st, pid, t)
  }

  // The packet is w; 0x1fff is the PID of packets to ignore.
  predicate Is(packet: Data, w: Wire) {
    WireOk(w) && w.pid != 0x1fff && packet == Encoded(w)
  }

  function AfterHeader(w: Wire): seq<bool> {
    AdaptationBits(w.control, w.field, ByteBits(w.payload))
  }

  datatype PacketHeader = Found(start: bool, pid: nat, control: nat, cc: nat) | Ignored

  /** The four bytes of a packet's header, lines 1770 to 1809. */
  method ReadHeader(br: ABitReader, ghost w: Wire, ghost rest: seq<bool>) returns (err: Status, h: PacketHeader)
    requires Ready(br)
    modifies br
    ensures Ready(br)
    ensures WireOk(w) && w.pid != 0x1fff && old(br.Remaining()) == HeaderBits(w.start, w.pid, w.control, w.cc, rest)
            ==> err == Ok && h == Found(w.start, w.pid, w.control, w.cc) && br.Remaining() == rest
  {
    h := Ignored;
    HeaderFits();
    ghost var r := PidBits(w.pid, w.control, w.cc, rest);
    ghost var r2 := Field(0, 1, r);
    ghost var r1 := Field(Bit(w.start), 1, r2);
    var sync :- Get(br, 8, 0x47, Field(0, 1, r1));
    if sync != 0x47 {
      return Ok, h;
    }
    var error :- Get(br, 1, 0, r1);
    if error == 1 {
      return Ok, h;
    }
    var start :- Get(br, 1, Bit(w.start), r2);
    var _ :- Get(br, 1, 0, r);
    err, h := ReadPid(br, start == 1, w, rest);
  }

  lemma HeaderFits()
    ensures 0x47 < Pow2(8) && 0 < Pow2(1) && 1 < Pow2(1) && Pow2(13) == 0x2000 && 0 < Pow2(2) && Pow2(2) == 4
            && Pow2(4) == 16
  {
    Pow2Values();
    Pow2Add(5, 8);
  }

  method ReadPid(br: ABitReader, start: bool, ghost w: Wire, ghost rest: seq<bool>)
          returns (err: Status, h: PacketHeader)
    requires Ready(br)
    modifies br
    ensures Ready(br)
    ensures WireOk(w) && w.pid != 0x1fff && old(br.Remaining()) == PidBits(w.pid, w.control, w.cc, rest)
            ==> err == Ok && h == Found(start, w.pid, w.control, w.cc) && br.Remaining() == rest
  {
    err, h := ReadFields(br, start, w.pid, w.control, w.cc, rest);
  }

  method ReadFields(br: ABitReader, start: bool, ghost p: nat, ghost ctl: nat, ghost count: nat, ghost rest: seq<bool>)
          returns (err: Status, h: PacketHeader)
    requires Ready(br)
    modifies br
    ensures Ready(br)
    ensures p < 0x1fff && ctl < 4 && count < 16 && old(br.Remaining()) == PidBits(p, ctl, count, rest)
            ==> err == Ok && h == Found(start, p, ctl, count) && br.Remaining() == rest
  {
    h := Ignored;
    HeaderFits();
    ghost var r2 := Field(count, 4, rest);
    ghost var r1 := Field(ctl, 2, r2);
    var pid :- Get(br, 13, p, Field(0, 2, r1));
    if pid == 0x1fff {
      return Ok, h;
    }
    var _ :- Get(br, 2, 0, r1);
    var control :- Get(br, 2, ctl, r2);
    var cc :- Get(br, 4, count, rest);
    return Ok, Found(start, pid, control, cc);
  }

  lemma ZeroFits()
    ensures 0 < Pow2(8)
  {}

  // The table's effect does not depend on what its own section held.
  lemma TableAfter(before: State, with: State, after: State, pid: nat, section: Section, t: Table)
    requires pid in before.sections && with == before.(sections := before.sections[pid := section])
    requires OnTable(with, after, pid, t) && Expected(with, pid, t)
    ensures OnTable(before, after, pid, t)
  {
    match t
    case Pat(entries, _, _) => AddProgramsKeeps(before, entries, pid, section);
    case Pmt(_, _, _) => assert after.sections == before.sections[pid := Section([], 0)];
  }

  lemma {:induction false} AddProgramsKeeps(st: State, entries: seq<PatEntry>, pid: nat, section: Section)
    requires pid in st.sections
    ensures var a, b := AddPrograms(st, entries), AddPrograms(st.(sections := st.sections[pid := section]), entries);
            && a.programs == b.programs && a.delivered == b.delivered && pid in a.sections
            && b.sections == a.sections[pid := section]
  {
    if entries != [] { AddProgramsKeeps(st, entries[..|entries| - 1], pid, section); }
  }
}
