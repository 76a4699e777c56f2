/** The writer thread of MPEG4Writer (libstagefright/MPEG4Writer.cpp): tracks buffer chunks, the writer
    moves them into the mdat box, earliest first.  Every interleaving of the threads leaves a file from
    which the sample tables select exactly the bytes of each sample. */
module ChunkWriter {
  import opened Bits
  import NalUnits
  import opened SampleTables
  import opened SampleIterator
  import opened Sequences
  import opened TrackChunks
  import opened TrackTables

  const INT64_MAX: int := 0x7fff_ffff_ffff_ffff

  /** `base` is the file offset of the first byte after the mdat header. */
  datatype Config = Config(interleaveUs: int, use32BitOffset: bool, use4ByteNalLength: bool, base: nat)

  // ------------------------------------------------------------------ samples in the file

  /** A sample as it is stored: AVC samples are prefixed with their length. */
  function Stored(cfg: Config, avc: bool, data: Data): Data {
    if !avc then data
    else if cfg.use4ByteNalLength then BigEndian(|data|, 4) + data
    else BigEndian(|data|, 2) + data
  }

  // The length prefix has room for the sample.
  predicate Fits(cfg: Config, avc: bool, data: Data) {
    avc ==> if cfg.use4ByteNalLength then |data| + 4 < TWO32 else |data| < 65536
  }

  /** Bytes that hold a sample: for AVC its length in 4 or 2 bytes, most significant first, and then the
      sample; otherwise the sample alone. */
  predicate Holds(cfg: Config, avc: bool, bytes: Data, sample: Data) {
    if !avc then bytes == sample
    else
      var w := if cfg.use4ByteNalLength then 4 else 2;
      |bytes| == w + |sample| && Number(bytes[..w]) == |sample| && bytes[w..] == sample
  }

  lemma StoredHolds(cfg: Config, avc: bool, data: Data)
    requires Fits(cfg, avc, data)
    ensures Holds(cfg, avc, Stored(cfg, avc, data), data)
  {
    if avc {
      var w := if cfg.use4ByteNalLength then 4 else 2;
      SplitHead(BigEndian(|data|, w), data, w);
      assert BigEndian(|data|, w)[..w] == BigEndian(|data|, w);
      assert Pow256(1) == 256 && Pow256(2) == 65536 && Pow256(4) == 256 * (256 * Pow256(2));
      NumberOfBigEndian(|data|, w);
    }
  }

  function StoredAll(cfg: Config, avc: bool, samples: seq<Data>): Data {
    if samples == [] then [] else
      StoredAll(cfg, avc, samples[..|samples| - 1]) + Stored(cfg, avc, samples[|samples| - 1])
  }

  // What is stored of a chunk: the samples before sample j, sample j, and the rest.
  lemma {:induction false} StoredParts(cfg: Config, avc: bool, samples: seq<Data>, j: nat) returns (rest: Data)
    requires j < |samples|
    ensures StoredAll(cfg, avc, samples) == StoredAll(cfg, avc, samples[..j]) + (Stored(cfg, avc, samples[j]) + rest)
  {
    var init := samples[..|samples| - 1];
    var last := Stored(cfg, avc, samples[|init|]);
    if j < |init| {
      var before := StoredParts(cfg, avc, init, j);
      assert init[..j] == samples[..j] && init[j] == samples[j];
      rest := before + last;
      InFrontOf(StoredAll(cfg, avc, samples[..j]), Stored(cfg, avc, samples[j]), before, last);
    } else {
      assert samples[..j] == init;
      rest := [];
      assert last + rest == last;
    }
  }

  lemma InFrontOf<T>(a: seq<T>, b: seq<T>, c: seq<T>, d: seq<T>)
    ensures (a + (b + c)) + d == a + (b + (c + d))
  {}

  // Where sample j of a chunk is, relative to the start of the chunk.
  lemma StoredAllAt(cfg: Config, avc: bool, samples: seq<Data>, j: nat)
    requires j < |samples|
    ensures var all, one := StoredAll(cfg, avc, samples), Stored(cfg, avc, samples[j]);
            var at := |StoredAll(cfg, avc, samples[..j])|;
            at + |one| <= |all| && all[at..at + |one|] == one
  {
    var rest := StoredParts(cfg, avc, samples, j);
    MiddlePart(StoredAll(cfg, avc, samples[..j]), Stored(cfg, avc, samples[j]), rest);
  }

  lemma MiddlePart<T>(a: seq<T>, b: seq<T>, c: seq<T>)
    ensures (a + (b + c))[|a|..|a| + |b|] == b
  {}

  /** What a chunk offset table can hold of an offset. */
  function TableOffset(cfg: Config, offset: nat): nat {
    if cfg.use32BitOffset then U32(offset) else offset
  }

  // ------------------------------------------------------------------ the shared state

  /** One track.  `queue` is mChunks of its ChunkInfo and `chunkOffsets` its stco or co64 table; the last
      three fields record the samples accepted, the chunks buffered and where written chunks went. */
  datatype TrackState = TrackState(avc: bool, builder: ChunkBuilder, lastUs: int, ended: bool,
                                   queue: seq<Chunk>, chunkOffsets: seq<nat>,
                                   samples: seq<Data>, chunks: seq<Chunk>, starts: seq<nat>)

  datatype Entry = Entry(track: nat, avc: bool, chunk: Chunk)

  /** The file holds what follows the mdat header; `log` records the chunks in the order written, and
      `held` is the chunk that the writer thread has taken off its queue and not written yet, if any. */
  datatype Writer = Writer(tracks: seq<TrackState>, file: Data, done: bool, log: seq<Entry>, held: seq<Entry>)

  /** A track with nothing recorded yet. */
  predicate Fresh(t: TrackState) {
    t == TrackState(t.avc, NO_CHUNKS, 0, false, [], [], [], [], [])
  }

  predicate Initial(w: Writer) {
    w.file == [] && !w.done && w.log == [] && w.held == [] && forall k :: 0 <= k < |w.tracks| ==> Fresh(w.tracks[k])
  }

  /** What the threads do, each in one atomic step: a track accepts a sample (and buffers the chunk it
      completes) unless it is empty, a track ends, the writer takes the chunk it finds, the writer puts it
      into the file, and recording stops once all tracks have ended.  In real-time recording the lock is
      free between taking and putting, so other steps may come in between; in any other they do not. */
  datatype Action = Accept(track: nat, data: Data, us: int) | End(track: nat) | Take | Put | Stop

  // At most one chunk is held, and it is of one of the tracks.
  predicate HeldOk(w: Writer) {
    |w.held| <= 1 && (w.held != [] ==> w.held[0].track < |w.tracks| && w.held[0].avc == w.tracks[w.held[0].track].avc)
  }

  predicate Enabled(cfg: Config, w: Writer, a: Action) {
    match a
    case Accept(k, data, us) =>
      !w.done && k < |w.tracks| && !w.tracks[k].ended && us < INT64_MAX && Fits(cfg, w.tracks[k].avc, data)
    case End(k) => !w.done && k < |w.tracks| && !w.tracks[k].ended
    case Take => w.held == []
    case Put => w.held != [] && HeldOk(w)
    case Stop => forall k :: 0 <= k < |w.tracks| ==> w.tracks[k].ended
  }

  function Buffered(t: TrackState, r: (ChunkBuilder, seq<Chunk>)): TrackState {
    t.(builder := r.0, queue := t.queue + r.1, chunks := t.chunks + r.1)
  }

  function Accepted(cfg: Config, t: TrackState, data: Data, us: int): TrackState {
    Buffered(t, AddToChunk(cfg.interleaveUs, t.builder, data, us)).(samples := t.samples + [data], lastUs := us)
  }

  function EndTrack(t: TrackState): TrackState {
    Buffered(t, LastChunk(t.builder, t.lastUs)).(ended := true)
  }

  /** findChunkToWrite over the first n tracks: the one whose first chunk is earliest, -1 for none. */
  function Earliest(tracks: seq<TrackState>, n: nat): (k: int)
    requires n <= |tracks|
    ensures -1 <= k < n && (k >= 0 ==> tracks[k].queue != [])
  {
    if n == 0 then -1 else
      var k := Earliest(tracks, n - 1);
      if tracks[n - 1].queue != [] && tracks[n - 1].queue[0].timestampUs < MinSoFar(tracks, k) then n - 1 else k
  }

  function MinSoFar(tracks: seq<TrackState>, k: int): int
    requires -1 <= k < |tracks| && (k >= 0 ==> tracks[k].queue != [])
  {
    if k < 0 then INT64_MAX else tracks[k].queue[0].timestampUs
  }

  /** The earliest first chunk is taken off its queue. */
  function Taken(w: Writer): Writer {
    var k := Earliest(w.tracks, |w.tracks|);
    if k < 0 then w else
      var t := w.tracks[k];
      w.(tracks := w.tracks[k := t.(queue := t.queue[1..])], held := [Entry(k, t.avc, t.queue[0])])
  }

  // The chunk's offset is recorded, if it has samples.
  function Recorded(cfg: Config, t: TrackState, chunk: Chunk, offset: nat): TrackState {
    if chunk.samples == [] then t
    else t.(chunkOffsets := t.chunkOffsets + [TableOffset(cfg, offset)], starts := t.starts + [offset])
  }

  /** The chunk that is held goes to the end of the file. */
  function PutDown(cfg: Config, w: Writer): Writer
    requires w.held != [] && HeldOk(w)
  {
    var e := w.held[0];
    w.(tracks := w.tracks[e.track := Recorded(cfg, w.tracks[e.track], e.chunk, cfg.base + |w.file|)],
       file := w.file + StoredAll(cfg, e.avc, e.chunk.samples),
       log := w.log + [e],
       held := [])
  }

  function Next(cfg: Config, w: Writer, a: Action): Writer
    requires Enabled(cfg, w, a)
  {
    match a
    case Accept(k, data, us) =>
      if data == [] then w else w.(tracks := w.tracks[k := Accepted(cfg, w.tracks[k], data, us)])
    case End(k) => w.(tracks := w.tracks[k := EndTrack(w.tracks[k])])
    case Take => Taken(w)
    case Put => PutDown(cfg, w)
    case Stop => w.(done := true)
  }

  // ------------------------------------------------------------------ what every step keeps

  datatype ReadResult = Bytes(data: Data) | Short

  /** n bytes of the file, if it has that many from `offset` on and none are in the mdat header. */
  function ReadAt(cfg: Config, file: Data, offset: nat, n: nat): ReadResult {
    var lo := offset - cfg.base;
    if 0 <= lo && lo + n <= |file| then Bytes(file[lo..lo + n]) else Short
  }

  predicate InFile(cfg: Config, file: Data, offset: nat, data: Data) {
    ReadAt(cfg, file, offset, |data|) == Bytes(data)
  }

  // Chunk c of the track is in the file at the offset recorded for it.
  predicate ChunkInFile(cfg: Config, file: Data, t: TrackState, c: nat)
    requires c < |t.starts| <= |t.chunks| && |t.chunkOffsets| == |t.starts|
  {
    && t.chunkOffsets[c] == TableOffset(cfg, t.starts[c])
    && InFile(cfg, file, t.starts[c], StoredAll(cfg, t.avc, t.chunks[c].samples))
  }

  // The samples accepted are those in chunks and those pending; stsc describes the chunks.
  predicate Tallied(cfg: Config, t: TrackState) {
    if t.ended then
      && t.builder.pending == [] && Flatten(t.chunks) == t.samples && NoneEmpty(t.chunks)
      && Describes(ZeroBased(t.builder.stsc), ChunkSizes(t.chunks))
    else Grouped(cfg.interleaveUs, t.builder, t.chunks, t.samples)
  }

  predicate TimesFit(chunks: seq<Chunk>) {
    forall c :: 0 <= c < |chunks| ==> chunks[c].timestampUs < INT64_MAX
  }

  predicate SamplesOk(cfg: Config, t: TrackState) {
    forall i :: 0 <= i < |t.samples| ==> t.samples[i] != [] && Fits(cfg, t.avc, t.samples[i])
  }

  /** The chunks of a track are written in order, each once, and are in the file; the rest are queued. */
  predicate TrackOk(cfg: Config, file: Data, t: TrackState) {
    && SamplesOk(cfg, t) && Tallied(cfg, t) && TimesFit(t.chunks) && t.lastUs < INT64_MAX
    && |t.chunkOffsets| == |t.starts| <= |t.chunks|
    && t.queue == t.chunks[|t.starts|..]
    && forall c :: 0 <= c < |t.starts| ==> ChunkInFile(cfg, file, t, c)
  }

  /** The bytes of the log, chunk after chunk. */
  function LogBytes(cfg: Config, log: seq<Entry>): Data {
    if log == [] then [] else
      var e := log[|log| - 1];
      LogBytes(cfg, log[..|log| - 1]) + StoredAll(cfg, e.avc, e.chunk.samples)
  }

  /** The chunks of track k in the log. */
  function LogOf(log: seq<Entry>, k: nat): seq<Chunk> {
    if log == [] then [] else
      var e := log[|log| - 1];
      LogOf(log[..|log| - 1], k) + if e.track == k then [e.chunk] else []
  }

  // Track k is in order, and so is its part of the log.
  predicate TrackInv(cfg: Config, w: Writer, k: nat)
    requires k < |w.tracks|
  {
    var t := w.tracks[k];
    TrackOk(cfg, w.file, t) && LogOf(w.log, k) == t.chunks[..|t.starts|]
  }

  /** The chunk that is held put back at the head of its queue. */
  function Whole(w: Writer): Writer {
    if w.held == [] || !HeldOk(w) then w else
      var e := w.held[0];
      w.(tracks := w.tracks[e.track := w.tracks[e.track].(queue := [e.chunk] + w.tracks[e.track].queue)], held := [])
  }

  ghost predicate Inv(cfg: Config, w: Writer) {
    HeldOk(w) && Whole(w).held == [] && WholeInv(cfg, Whole(w))
  }

  ghost predicate WholeInv(cfg: Config, w: Writer) {
    && w.file == LogBytes(cfg, w.log)
    && (w.done ==> forall k :: 0 <= k < |w.tracks| ==> w.tracks[k].ended)
    && forall k :: 0 <= k < |w.tracks| ==> TrackInv(cfg, w, k)
  }

  // What is in the file stays there.
  lemma InFileGrows(cfg: Config, file: Data, more: Data, offset: nat, data: Data)
    requires InFile(cfg, file, offset, data)
    ensures InFile(cfg, file + more, offset, data)
  {
    var lo := offset - cfg.base;
    assert (file + more)[lo..lo + |data|] == file[lo..lo + |data|];
  }

  lemma InFileAtEnd(cfg: Config, file: Data, data: Data)
    ensures InFile(cfg, file + data, cfg.base + |file|, data)
  {
    assert (file + data)[|file|..|file| + |data|] == data;
  }

  lemma TrackOkGrows(cfg: Config, file: Data, more: Data, t: TrackState)
    requires TrackOk(cfg, file, t)
    ensures TrackOk(cfg, file + more, t)
  {
    forall c | 0 <= c < |t.starts| ensures ChunkInFile(cfg, file + more, t, c) {
      assert ChunkInFile(cfg, file, t, c);
      InFileGrows(cfg, file, more, t.starts[c], StoredAll(cfg, t.avc, t.chunks[c].samples));
    }
  }

  // Buffering a chunk, or none, leaves what is written alone.
  lemma BufferedOk(cfg: Config, file: Data, t: TrackState, t': TrackState, more: seq<Chunk>)
    requires TrackOk(cfg, file, t) && SamplesOk(cfg, t') && Tallied(cfg, t') && t'.lastUs < INT64_MAX
    requires t'.chunks == t.chunks + more && t'.queue == t.queue + more && TimesFit(more)
    requires t'.avc == t.avc && t'.starts == t.starts && t'.chunkOffsets == t.chunkOffsets
    ensures TrackOk(cfg, file, t') && t'.chunks[..|t'.starts|] == t.chunks[..|t.starts|]
  {
    QueueGrows(t.chunks, |t.starts|, more);
    forall c | 0 <= c < |t'.starts| ensures ChunkInFile(cfg, file, t', c) {
      assert ChunkInFile(cfg, file, t, c);
    }
  }

  lemma QueueGrows<T>(s: seq<T>, k: nat, more: seq<T>)
    requires k <= |s|
    ensures s[k..] + more == (s + more)[k..] && s[..k] == (s + more)[..k]
  {}

  lemma AcceptOk(cfg: Config, file: Data, t: TrackState, data: Data, us: int)
    requires TrackOk(cfg, file, t) && !t.ended && us < INT64_MAX && data != [] && Fits(cfg, t.avc, data)
    ensures var t' := Accepted(cfg, t, data, us);
            TrackOk(cfg, file, t') && t'.chunks[..|t'.starts|] == t.chunks[..|t.starts|]
  {
    AddKeepsGrouped(cfg.interleaveUs, t.builder, t.chunks, t.samples, data, us);
    BufferedOk(cfg, file, t, Accepted(cfg, t, data, us), AddToChunk(cfg.interleaveUs, t.builder, data, us).1);
  }

  lemma EndOk(cfg: Config, file: Data, t: TrackState)
    requires TrackOk(cfg, file, t) && !t.ended
    ensures var t' := EndTrack(t);
            TrackOk(cfg, file, t') && t'.chunks[..|t'.starts|] == t.chunks[..|t.starts|]
  {
    LastKeepsGrouped(cfg.interleaveUs, t.builder, t.chunks, t.samples, t.lastUs);
    BufferedOk(cfg, file, t, EndTrack(t), LastChunk(t.builder, t.lastUs).1);
  }

  // A track whose first chunk was written.
  function HeadWritten(cfg: Config, t: TrackState, offset: nat): TrackState
    requires t.queue != []
  {
    Recorded(cfg, t.(queue := t.queue[1..]), t.queue[0], offset)
  }

  lemma HeadWrittenOk(cfg: Config, file: Data, t: TrackState)
    requires TrackOk(cfg, file, t) && t.queue != []
    ensures var t' := HeadWritten(cfg, t, cfg.base + |file|);
            && TrackOk(cfg, file + StoredAll(cfg, t.avc, t.queue[0].samples), t')
            && t'.chunks[..|t'.starts|] == t.chunks[..|t.starts|] + [t.queue[0]]
  {
    var n, data := |t.starts|, StoredAll(cfg, t.avc, t.queue[0].samples);
    var t' := HeadWritten(cfg, t, cfg.base + |file|);
    assert t.queue[0] == t.chunks[n];
    forall c | 0 <= c < |t'.starts| ensures ChunkInFile(cfg, file + data, t', c) {
      if c < n {
        assert ChunkInFile(cfg, file, t, c);
        InFileGrows(cfg, file, data, t.starts[c], StoredAll(cfg, t.avc, t.chunks[c].samples));
      } else {
        InFileAtEnd(cfg, file, data);
      }
    }
  }

  lemma LogOfAppend(log: seq<Entry>, e: Entry, k: nat)
    ensures LogOf(log + [e], k) == LogOf(log, k) + if e.track == k then [e.chunk] else []
  {
    assert (log + [e])[..|log|] == log;
  }

  lemma LogBytesAppend(cfg: Config, log: seq<Entry>, e: Entry)
    ensures LogBytes(cfg, log + [e]) == LogBytes(cfg, log) + StoredAll(cfg, e.avc, e.chunk.samples)
  {
    assert (log + [e])[..|log|] == log;
  }

  // The first chunk of track e goes to the end of the file.
  function WrittenHead(cfg: Config, w: Writer, e: nat): Writer
    requires e < |w.tracks| && w.tracks[e].queue != []
  {
    var t := w.tracks[e];
    w.(tracks := w.tracks[e := HeadWritten(cfg, t, cfg.base + |w.file|)],
       file := w.file + StoredAll(cfg, t.avc, t.queue[0].samples),
       log := w.log + [Entry(e, t.avc, t.queue[0])])
  }

  lemma WriteKeepsInv(cfg: Config, w: Writer, e: nat)
    requires WholeInv(cfg, w) && e < |w.tracks| && w.tracks[e].queue != []
    ensures WholeInv(cfg, WrittenHead(cfg, w, e))
  {
    var t := w.tracks[e];
    var w', entry := WrittenHead(cfg, w, e), Entry(e, t.avc, t.queue[0]);
    LogBytesAppend(cfg, w.log, entry);
    forall k | 0 <= k < |w.tracks| ensures TrackInv(cfg, w', k) {
      assert TrackInv(cfg, w, k);
      LogOfAppend(w.log, entry, k);
      if k == e {
        HeadWrittenOk(cfg, w.file, t);
      } else {
        TrackOkGrows(cfg, w.file, StoredAll(cfg, t.avc, t.queue[0].samples), w.tracks[k]);
      }
    }
  }

  // Taking a chunk only moves it; putting it down writes the head of its queue.
  lemma TakenIsWhole(w: Writer)
    requires w.held == []
    ensures HeldOk(Taken(w)) && Whole(Taken(w)) == w
  {
    var k := Earliest(w.tracks, |w.tracks|);
    if k >= 0 {
      var q := w.tracks[k].queue;
      assert [q[0]] + q[1..] == q;
      assert Whole(Taken(w)).tracks == w.tracks;
    }
  }

  lemma PutDownIsWrite(cfg: Config, w: Writer)
    requires w.held != [] && HeldOk(w)
    ensures var v, e := Whole(w), w.held[0];
            v.tracks[e.track].queue != [] && PutDown(cfg, w) == WrittenHead(cfg, v, e.track)
  {
    var v, e := Whole(w), w.held[0];
    var q := w.tracks[e.track].queue;
    assert ([e.chunk] + q)[0] == e.chunk && ([e.chunk] + q)[1..] == q;
    assert v.tracks[e.track].(queue := q) == w.tracks[e.track];
    assert WrittenHead(cfg, v, e.track).tracks == PutDown(cfg, w).tracks;
  }

  // A step of track k that adds to its queue, when a chunk is held and when it is put back.
  lemma StepIsWhole(w: Writer, k: nat, t: TrackState, more: seq<Chunk>)
    requires HeldOk(w) && k < |w.tracks| && t.avc == w.tracks[k].avc && t.queue == w.tracks[k].queue + more
    ensures var v := Whole(w);
            && HeldOk(w.(tracks := w.tracks[k := t]))
            && Whole(w.(tracks := w.tracks[k := t])) ==
                v.(tracks := v.tracks[k := t.(queue := v.tracks[k].queue + more)])
  {
    var v, w' := Whole(w), w.(tracks := w.tracks[k := t]);
    if w.held != [] && w.held[0].track == k {
      Associative([w.held[0].chunk], w.tracks[k].queue, more);
    }
    assert Whole(w').tracks == v.tracks[k := t.(queue := v.tracks[k].queue + more)];
  }

  // A step of track e that leaves the file and the other tracks alone.
  lemma TrackStepKeepsInv(cfg: Config, w: Writer, e: nat, t': TrackState)
    requires WholeInv(cfg, w) && !w.done && e < |w.tracks|
    requires TrackOk(cfg, w.file, t') && |w.tracks[e].starts| <= |w.tracks[e].chunks|
    requires t'.chunks[..|t'.starts|] == w.tracks[e].chunks[..|w.tracks[e].starts|]
    ensures WholeInv(cfg, w.(tracks := w.tracks[e := t']))
  {
    var w' := w.(tracks := w.tracks[e := t']);
    assert TrackInv(cfg, w, e);
    forall k | 0 <= k < |w'.tracks| ensures TrackInv(cfg, w', k) {
      if k != e { assert TrackInv(cfg, w, k); }
    }
  }

  /** Every step of every thread keeps the invariant. */
  lemma StepKeepsInv(cfg: Config, w: Writer, a: Action)
    requires Inv(cfg, w) && Enabled(cfg, w, a)
    ensures Inv(cfg, Next(cfg, w, a))
  {
    match a
    case Accept(k, data, us) =>
      if data != [] { AcceptKeepsInv(cfg, w, k, data, us); }
    case End(k) => EndKeepsInv(cfg, w, k);
    case Take => TakenIsWhole(w);
    case Put =>
      PutDownIsWrite(cfg, w);
      WriteKeepsInv(cfg, Whole(w), w.held[0].track);
    case Stop => StopKeepsInv(cfg, w);
  }

  lemma AcceptKeepsInv(cfg: Config, w: Writer, k: nat, data: Data, us: int)
    requires Inv(cfg, w) && Enabled(cfg, w, Accept(k, data, us)) && data != []
    ensures Inv(cfg, w.(tracks := w.tracks[k := Accepted(cfg, w.tracks[k], data, us)]))
  {
    var v, t := Whole(w), w.tracks[k];
    assert TrackInv(cfg, v, k);
    AcceptOk(cfg, v.file, v.tracks[k], data, us);
    TrackStepKeepsInv(cfg, v, k, Accepted(cfg, v.tracks[k], data, us));
    StepIsWhole(w, k, Accepted(cfg, t, data, us), AddToChunk(cfg.interleaveUs, t.builder, data, us).1);
  }

  lemma EndKeepsInv(cfg: Config, w: Writer, k: nat)
    requires Inv(cfg, w) && Enabled(cfg, w, End(k))
    ensures Inv(cfg, w.(tracks := w.tracks[k := EndTrack(w.tracks[k])]))
  {
    var v, t := Whole(w), w.tracks[k];
    assert TrackInv(cfg, v, k);
    EndOk(cfg, v.file, v.tracks[k]);
    TrackStepKeepsInv(cfg, v, k, EndTrack(v.tracks[k]));
    StepIsWhole(w, k, EndTrack(t), LastChunk(t.builder, t.lastUs).1);
  }

  lemma StopKeepsInv(cfg: Config, w: Writer)
    requires Inv(cfg, w) && Enabled(cfg, w, Stop)
    ensures Inv(cfg, w.(done := true))
  {
    var v := Whole(w);
    forall k | 0 <= k < |v.tracks| ensures TrackInv(cfg, v.(done := true), k) && v.tracks[k].ended {
      assert TrackInv(cfg, v, k);
    }
    assert Whole(w.(done := true)) == v.(done := true);
  }

  ghost predicate Run(cfg: Config, w: Writer, actions: seq<Action>, w': Writer)
    decreases actions
  {
    if actions == [] then w' == w
    else Enabled(cfg, w, actions[0]) && Run(cfg, Next(cfg, w, actions[0]), actions[1..], w')
  }

  lemma InitialInv(cfg: Config, w: Writer)
    requires Initial(w)
    ensures Inv(cfg, w)
  {
    forall k | 0 <= k < |w.tracks| ensures TrackInv(cfg, w, k) {
      assert Fresh(w.tracks[k]);
    }
  }

  lemma {:induction false} RunKeepsInv(cfg: Config, w: Writer, actions: seq<Action>, w': Writer)
    requires Inv(cfg, w) && Run(cfg, w, actions, w')
    ensures Inv(cfg, w')
    decreases actions
  {
    if actions != [] {
      StepKeepsInv(cfg, w, actions[0]);
      RunKeepsInv(cfg, Next(cfg, w, actions[0]), actions[1..], w');
    }
  }

  // ------------------------------------------------------------------ which chunk is next

  /** The chunk written next has the least time of all first chunks, on a tie that of the earliest
      track; none is found exactly when no first chunk is before the largest time. */
  lemma {:induction false} EarliestIsLeast(tracks: seq<TrackState>, n: nat)
    requires n <= |tracks|
    ensures var k := Earliest(tracks, n);
            && MinSoFar(tracks, k) <= INT64_MAX && (k >= 0 ==> MinSoFar(tracks, k) < INT64_MAX)
            && forall j :: 0 <= j < n && tracks[j].queue != [] ==>
                 && MinSoFar(tracks, k) <= tracks[j].queue[0].timestampUs
                 && (j < k ==> MinSoFar(tracks, k) < tracks[j].queue[0].timestampUs)
  {
    if n > 0 { EarliestIsLeast(tracks, n - 1); }
  }

  /** With times that fit, the writer finds nothing exactly when every queue is empty. */
  lemma NothingToWrite(cfg: Config, w: Writer)
    requires Inv(cfg, w) && w.held == []
    ensures Earliest(w.tracks, |w.tracks|) < 0 <==> forall k :: 0 <= k < |w.tracks| ==> w.tracks[k].queue == []
  {
    EarliestIsLeast(w.tracks, |w.tracks|);
    forall k | 0 <= k < |w.tracks| && w.tracks[k].queue != []
      ensures w.tracks[k].queue[0].timestampUs < INT64_MAX
    {
      assert TrackInv(cfg, w, k);
      assert w.tracks[k].queue[0] == w.tracks[k].chunks[|w.tracks[k].starts|];
    }
  }

  /** Recording is over: the writer thread has nothing more to write. */
  predicate Finished(w: Writer) {
    w.done && w.held == [] && Earliest(w.tracks, |w.tracks|) < 0
  }

  /** At the end, the file is the chunks of the log one after the other, and the log has, for every
      track, all its chunks, in order, once each. */
  lemma AllChunksWritten(cfg: Config, w: Writer, actions: seq<Action>, w': Writer, k: nat)
    requires Initial(w) && Run(cfg, w, actions, w') && Finished(w') && k < |w'.tracks|
    ensures w'.file == LogBytes(cfg, w'.log)
    ensures LogOf(w'.log, k) == w'.tracks[k].chunks
    ensures Flatten(w'.tracks[k].chunks) == w'.tracks[k].samples
  {
    InitialInv(cfg, w);
    RunKeepsInv(cfg, w, actions, w');
    NothingToWrite(cfg, w');
    assert TrackInv(cfg, w', k);
    var t := w'.tracks[k];
    assert |t.queue| == |t.chunks| - |t.starts|;
    assert t.chunks[..|t.chunks|] == t.chunks;
  }

  // ------------------------------------------------------------------ reading back

  function StoredSizes(cfg: Config, t: TrackState): (sizes: seq<nat>)
    ensures |sizes| == |t.samples|
    ensures forall i :: 0 <= i < |sizes| ==> sizes[i] == |Stored(cfg, t.avc, t.samples[i])|
  {
    seq(|t.samples|, i requires 0 <= i < |t.samples| => |Stored(cfg, t.avc, t.samples[i])|)
  }

  /** The tables in the file, as their reader holds them. */
  function TablesOf(cfg: Config, t: TrackState, stts: seq<Run>): Tables {
    Tables(true, ZeroBased(t.builder.stsc), t.chunkOffsets, |t.samples|, 0, StoredSizes(cfg, t), stts)
  }

  // A track with samples, all written.
  predicate Complete(cfg: Config, file: Data, t: TrackState) {
    TrackOk(cfg, file, t) && t.ended && t.queue == [] && 0 < |t.samples| < TWO32
  }

  lemma {:induction false} SumPrefix(sizes: seq<nat>, c: nat)
    requires c <= |sizes|
    ensures Sum(sizes[..c]) <= Sum(sizes)
  {
    if c < |sizes| {
      SumPrefix(sizes[..|sizes| - 1], c);
      assert sizes[..|sizes| - 1][..c] == sizes[..c];
    } else {
      assert sizes[..c] == sizes;
    }
  }

  /** The tables are well formed. */
  lemma TablesWellFormed(cfg: Config, file: Data, t: TrackState, stts: seq<Run>)
    requires Complete(cfg, file, t) && Counts(stts) == |t.samples|
    ensures WellFormed(TablesOf(cfg, t, stts))
  {
    var stsc, sizes := ZeroBased(t.builder.stsc), ChunkSizes(t.chunks);
    SumOfSizes(t.chunks);
    assert |t.queue| == |t.chunks| - |t.starts|;
    assert sizes != [];
    FirstSampleIsSum(stsc, sizes, |sizes|);
    assert sizes[..|sizes|] == sizes;
    forall i | 0 <= i < |stsc| ensures BoundaryFits(stsc, i) {
      var c := stsc[i].startChunk;
      assert c <= stsc[|stsc| - 1].startChunk;
      FirstSampleIsSum(stsc, sizes, c);
      SumPrefix(sizes, c);
    }
  }

  // Sample i is in chunk c: it is sample j of that chunk.
  lemma SampleOfChunk(cfg: Config, file: Data, t: TrackState, c: nat, i: nat)
    requires Complete(cfg, file, t)
    requires |t.builder.stsc| > 0 && c < |t.chunkOffsets| && InChunk(ZeroBased(t.builder.stsc), c, i)
    ensures c < |t.chunks| && FirstSample(ZeroBased(t.builder.stsc), c) == |Flatten(t.chunks[..c])|
    ensures i - |Flatten(t.chunks[..c])| < |t.chunks[c].samples|
  {
    var stsc, sizes := ZeroBased(t.builder.stsc), ChunkSizes(t.chunks);
    FirstSampleIsSum(stsc, sizes, c);
    ChunkSizesPrefix(t.chunks, c);
    SumOfSizes(t.chunks[..c]);
  }

  // The stored sizes of the first j samples of a chunk add up to where sample j is in it.
  lemma {:induction false} OffsetInChunk(cfg: Config, t: TrackState, tables: Tables, c: nat, j: nat, first: nat)
    requires c < |t.chunks| && j <= |t.chunks[c].samples| && Flatten(t.chunks) == t.samples
    requires first == |Flatten(t.chunks[..c])| && first + j <= |t.samples| && SizesAre(cfg, t, tables)
    ensures SizesBetween(tables, first, first + j) == |StoredAll(cfg, t.avc, t.chunks[c].samples[..j])|
  {
    if j > 0 {
      OffsetInChunk(cfg, t, tables, c, j - 1, first);
      FlattenAt(t.chunks, c, j - 1);
      StoredOneMore(cfg, t.avc, t.chunks[c].samples, j - 1);
    }
  }

  // The size table holds what the samples take up in the file.
  predicate SizesAre(cfg: Config, t: TrackState, tables: Tables) {
    && tables.defaultSize == 0 && |tables.sizes| == |t.samples|
    && forall i :: 0 <= i < |t.samples| ==> tables.sizes[i] == |Stored(cfg, t.avc, t.samples[i])|
  }

  lemma StoredOneMore(cfg: Config, avc: bool, samples: seq<Data>, j: nat)
    requires j < |samples|
    ensures StoredAll(cfg, avc, samples[..j + 1]) == StoredAll(cfg, avc, samples[..j]) + Stored(cfg, avc, samples[j])
  {
    assert samples[..j + 1][..j] == samples[..j];
  }

  /** The bytes that a sample's offset and size select. */
  predicate Selects(cfg: Config, file: Data, offset: nat, size: nat, data: Data) {
    size == |data| && InFile(cfg, file, offset, data)
  }

  // Part of what is in the file.
  lemma InFileSlice(cfg: Config, file: Data, offset: nat, data: Data, at: nat, one: Data)
    requires InFile(cfg, file, offset, data) && at + |one| <= |data| && data[at..at + |one|] == one
    ensures InFile(cfg, file, offset + at, one)
  {
    var lo := offset - cfg.base;
    SliceOfSlice(file, lo, lo + |data|, at, at + |one|);
  }

  /** The offsets of everything written fit the chunk offset table. */
  predicate OffsetsFit(cfg: Config, file: Data) {
    cfg.use32BitOffset ==> cfg.base + |file| < TWO32
  }

  // Sample j of a chunk is in the file after the samples before it in the chunk.
  lemma SampleInFile(cfg: Config, file: Data, avc: bool, samples: seq<Data>, offset: nat, j: nat,
                     at: nat, size: nat, one: Data)
    requires InFile(cfg, file, offset, StoredAll(cfg, avc, samples)) && j < |samples|
    requires at == |StoredAll(cfg, avc, samples[..j])| && one == Stored(cfg, avc, samples[j]) && size == |one|
    ensures Selects(cfg, file, offset + at, size, one)
  {
    StoredAllAt(cfg, avc, samples, j);
    InFileSlice(cfg, file, offset, StoredAll(cfg, avc, samples), at, one);
  }

  // Everything written starts at an offset that the table can hold.
  lemma ChunkAtTableOffset(cfg: Config, file: Data, t: TrackState, c: nat)
    requires c < |t.starts| <= |t.chunks| && |t.chunkOffsets| == |t.starts| && ChunkInFile(cfg, file, t, c)
    requires OffsetsFit(cfg, file)
    ensures InFile(cfg, file, t.chunkOffsets[c], StoredAll(cfg, t.avc, t.chunks[c].samples))
  {}

  // What the tables say about sample j of chunk c.
  lemma SampleInTables(cfg: Config, t: TrackState, tables: Tables, c: nat, j: nat, i: nat)
    requires c < |t.chunks| && j < |t.chunks[c].samples| && Flatten(t.chunks) == t.samples
    requires i == |Flatten(t.chunks[..c])| + j && SizesAre(cfg, t, tables)
    ensures i < |t.samples| && t.samples[i] == t.chunks[c].samples[j]
    ensures SampleSize(tables, i) == |Stored(cfg, t.avc, t.samples[i])|
    ensures SizesBetween(tables, |Flatten(t.chunks[..c])|, i) == |StoredAll(cfg, t.avc, t.chunks[c].samples[..j])|
  {
    FlattenAt(t.chunks, c, j);
    OffsetInChunk(cfg, t, tables, c, j, |Flatten(t.chunks[..c])|);
  }

  // Sample i, which is sample j of chunk c, is where the tables say.
  lemma TablesSelectInChunk(cfg: Config, file: Data, t: TrackState, tables: Tables, c: nat, j: nat, i: nat,
                            at: nat, size: nat, data: Data)
    requires c < |t.chunkOffsets| && c < |t.chunks| && j < |t.chunks[c].samples| && Flatten(t.chunks) == t.samples
    requires InFile(cfg, file, t.chunkOffsets[c], StoredAll(cfg, t.avc, t.chunks[c].samples))
    requires i == |Flatten(t.chunks[..c])| + j < |t.samples| && SizesAre(cfg, t, tables)
    requires at == SizesBetween(tables, |Flatten(t.chunks[..c])|, i)
    requires size == SampleSize(tables, i) && data == Stored(cfg, t.avc, t.samples[i])
    ensures Selects(cfg, file, t.chunkOffsets[c] + at, size, data)
  {
    SampleInTables(cfg, t, tables, c, j, i);
    SampleInFile(cfg, file, t.avc, t.chunks[c].samples, t.chunkOffsets[c], j, at, size, data);
  }

  /** Where the tables say sample i is, is where it is. */
  lemma TablesSelectSample(cfg: Config, file: Data, t: TrackState, stts: seq<Run>, c: nat, i: nat)
    requires Complete(cfg, file, t) && Counts(stts) == |t.samples| && i < |t.samples| && OffsetsFit(cfg, file)
    requires WellFormed(TablesOf(cfg, t, stts)) && c < |t.chunkOffsets| && InChunk(ZeroBased(t.builder.stsc), c, i)
    ensures var tables := TablesOf(cfg, t, stts);
            Selects(cfg, file, SampleOffset(tables, c, i), SampleSize(tables, i), Stored(cfg, t.avc, t.samples[i]))
  {
    SampleOfChunk(cfg, file, t, c, i);
    assert ChunkInFile(cfg, file, t, c);
    ChunkAtTableOffset(cfg, file, t, c);
    var tables, first := TablesOf(cfg, t, stts), |Flatten(t.chunks[..c])|;
    TablesSelectInChunk(cfg, file, t, tables, c, i - first, i, SizesBetween(tables, first, i), SampleSize(tables, i),
                        Stored(cfg, t.avc, t.samples[i]));
  }

  /** What the reader's iterator computes for sample i of a track selects the bytes stored for it, in
      whatever order samples are sought. */
  method ReadSample(cfg: Config, file: Data, it: SampleIterator, i: nat, ghost t: TrackState)
    returns (err: Status, data: Data, time: nat)
    requires Complete(cfg, file, t) && Counts(it.t.stts) == |t.samples| && OffsetsFit(cfg, file)
    requires it.Valid() && it.t == TablesOf(cfg, t, it.t.stts)
    modifies it, it.lookup`currentEntry, it.lookup`currentEntrySample
    ensures it.Valid()
    ensures err == if i < |t.samples| then Ok else EndOfStream
    ensures err == Ok ==> Holds(cfg, t.avc, data, t.samples[i])
    ensures err == Ok ==> it.lookup.Offset(i) < TWO32
                          && time == U64(TruncatedTime(it.t.stts, i) + Signed32(it.lookup.Offset(i)))
  {
    ghost var delta;
    err, delta := SeekSample(cfg, file, it, i, t);
    data, time := [], it.current.time;
    if err == Ok {
      data := BytesAt(cfg, file, it.current.offset, it.current.size, Stored(cfg, t.avc, t.samples[i]));
      StoredHolds(cfg, t.avc, t.samples[i]);
    }
  }

  // A sample behind its length is the one unit that the prefixes lead to.
  lemma OneUnit(cfg: Config, bytes: Data, sample: Data, w: nat)
    requires Holds(cfg, true, bytes, sample) && sample != [] && w == if cfg.use4ByteNalLength then 4 else 2
    ensures NalUnits.Parse(bytes, w) == NalUnits.Units([sample])
    ensures NalUnits.AnnexB(NalUnits.WithoutEmpty([sample])) == NalUnits.START_CODE + sample
  {
    assert bytes[w..w + |sample|] == sample && bytes[w + |sample|..] == [];
    assert NalUnits.Parse([], w) == NalUnits.Units([]);
    assert NalUnits.OneMore(sample, NalUnits.Units([])) == NalUnits.Units([sample]);
    assert [sample][..0] == [] && [sample][1..] == [];
    assert NalUnits.WithoutEmpty([sample]) == [sample];
    assert NalUnits.START_CODE + sample + [] == NalUnits.START_CODE + sample;
  }

  /** What MPEG4Source::read hands on: an AVC sample behind a start code in place of its length, any other
      sample as it was recorded. */
  method ReadUnit(cfg: Config, file: Data, it: SampleIterator, i: nat, avc: bool, ghost t: TrackState)
    returns (err: Status, data: Data, time: nat)
    requires Complete(cfg, file, t) && Counts(it.t.stts) == |t.samples| && OffsetsFit(cfg, file) && avc == t.avc
    requires it.Valid() && it.t == TablesOf(cfg, t, it.t.stts)
    modifies it, it.lookup`currentEntry, it.lookup`currentEntrySample
    ensures it.Valid()
    ensures err == if i < |t.samples| then Ok else EndOfStream
    ensures err == Ok ==> data == if avc then [0, 0, 0, 1] + t.samples[i] else t.samples[i]
    ensures err == Ok ==> it.lookup.Offset(i) < TWO32
                          && time == U64(TruncatedTime(it.t.stts, i) + Signed32(it.lookup.Offset(i)))
  {
    err, data, time := ReadSample(cfg, file, it, i, t);
    if err == Ok && avc {
      var w := if cfg.use4ByteNalLength then 4 else 2;
      OneUnit(cfg, data, t.samples[i], w);
      var _, units := NalUnits.ToStartCodes(data, w);
      data := units;
    }
  }

  method SeekSample(cfg: Config, file: Data, it: SampleIterator, i: nat, ghost t: TrackState)
    returns (err: Status, ghost delta: nat)
    requires Complete(cfg, file, t) && Counts(it.t.stts) == |t.samples| && OffsetsFit(cfg, file)
    requires it.Valid() && it.t == TablesOf(cfg, t, it.t.stts)
    modifies it, it.lookup`currentEntry, it.lookup`currentEntrySample
    ensures it.Valid()
    ensures err == if i < |t.samples| then Ok else EndOfStream
    ensures err == Ok ==> Selects(cfg, file, it.current.offset, it.current.size, Stored(cfg, t.avc, t.samples[i]))
    ensures err == Ok ==> delta == it.lookup.Offset(i) < TWO32
                          && it.current.time == U64(TruncatedTime(it.t.stts, i) + Signed32(delta))
  {
    TablesWellFormed(cfg, file, t, it.t.stts);
    err := it.SeekTo(i);
    delta := 0;
    if err == Ok {
      delta := it.lookup.Offset(i);
      FoundSample(cfg, file, t, it.t.stts, delta, it.chunk.index, it.current, i);
    }
  }

  // What it means that the iterator is at a sample.
  lemma FoundSample(cfg: Config, file: Data, t: TrackState, stts: seq<Run>, delta: nat, chunk: nat, p: Position, i: nat)
    requires Complete(cfg, file, t) && Counts(stts) == |t.samples| && OffsetsFit(cfg, file)
    requires WellFormed(TablesOf(cfg, t, stts)) && SampleIs(TablesOf(cfg, t, stts), delta, chunk, p) && p.index == i
    ensures i < |t.samples| && Selects(cfg, file, p.offset, p.size, Stored(cfg, t.avc, t.samples[i]))
    ensures delta < TWO32 && p.time == U64(TruncatedTime(stts, i) + Signed32(delta))
  {
    TablesSelectSample(cfg, file, t, stts, chunk, p.index);
  }

  method BytesAt(cfg: Config, file: Data, offset: nat, size: nat, ghost selected: Data) returns (data: Data)
    requires Selects(cfg, file, offset, size, selected)
    ensures data == selected
  {
    data := file[offset - cfg.base..offset - cfg.base + size];
  }

  /** The whole way, for one track: what was recorded as sample i, at times[i] and with its own composition
      offset, is handed on as the same bytes, behind a start code for AVC, and, exactly when no completed run
      overflows, at the rounded time from the first sample on, plus the offset. */
  method ReadRecorded(cfg: Config, file: Data, it: SampleIterator, i: nat, ghost t: TrackState, ghost times: seq<nat>,
                      ghost offsets: seq<nat>, ghost timeScale: nat, avc: bool)
    returns (data: Data, time: nat)
    requires Complete(cfg, file, t) && avc == t.avc && OffsetsFit(cfg, file) && i < |t.samples| == |times| == |offsets|
    requires it.Valid() && it.t == TablesOf(cfg, t, it.t.stts)
    requires Decodes(it.t.stts, AllDurations(TicksOf(times, timeScale))) && InOrder(times, timeScale)
    requires if it.lookup.hasEntries then Decodes(it.lookup.deltas, offsets)
             else forall k :: 0 <= k < |offsets| ==> offsets[k] == 0
    requires offsets[i] < 0x8000_0000 && Ticks(times[i], timeScale) + offsets[i] < TWO64
    modifies it, it.lookup`currentEntry, it.lookup`currentEntrySample
    ensures it.Valid()
    ensures data == if avc then [0, 0, 0, 1] + t.samples[i] else t.samples[i]
    ensures time == Ticks(times[i], timeScale) - Ticks(times[0], timeScale) + offsets[i] <==>
            SmallProducts(it.t.stts, i)
  {
    ReaderTimePlus(times, timeScale, it.t.stts, i, offsets[i]);
    assert it.lookup.Offset(i) == offsets[i];
    var err;
    err, data, time := ReadUnit(cfg, file, it, i, avc, t);
  }

  // The samples that track k was given, but for the empty ones.
  function SamplesGiven(actions: seq<Action>, k: nat): seq<Data> {
    if actions == [] then [] else OneGiven(actions[0], k) + SamplesGiven(actions[1..], k)
  }

  function OneGiven(a: Action, k: nat): seq<Data> {
    if a.Accept? && a.track == k && a.data != [] then [a.data] else []
  }

  lemma StepKeepsSamples(cfg: Config, w: Writer, a: Action, k: nat)
    requires Enabled(cfg, w, a)
    ensures |Next(cfg, w, a).tracks| == |w.tracks|
    ensures k < |w.tracks| ==>
              var t, t' := w.tracks[k], Next(cfg, w, a).tracks[k];
              t'.avc == t.avc && t'.samples == t.samples + OneGiven(a, k)
  {}

  /** Every track keeps exactly the samples it was given, in order. */
  lemma {:induction false} SamplesKept(cfg: Config, w: Writer, actions: seq<Action>, w': Writer, k: nat)
    requires Run(cfg, w, actions, w') && k < |w'.tracks|
    ensures |w'.tracks| == |w.tracks| && w'.tracks[k].samples == w.tracks[k].samples + SamplesGiven(actions, k)
    ensures w'.tracks[k].avc == w.tracks[k].avc
    decreases actions
  {
    if actions != [] {
      StepKeepsSamples(cfg, w, actions[0], k);
      var w1 := Next(cfg, w, actions[0]);
      SamplesKept(cfg, w1, actions[1..], w', k);
      Associative(w.tracks[k].samples, OneGiven(actions[0], k), SamplesGiven(actions[1..], k));
    }
  }

  // The times of those samples.
  function TimesGiven(actions: seq<Action>, k: nat): seq<int> {
    if actions == [] then [] else
      var a := actions[0];
      (if a.Accept? && a.track == k && a.data != [] then [a.us] else []) + TimesGiven(actions[1..], k)
  }

  // The chunks of a track are those that its samples and their times make.
  predicate ChunksAre(cfg: Config, t: TrackState, times: seq<int>) {
    && |times| == |t.samples|
    && var g := Grouping(cfg.interleaveUs, t.samples, times);
       if t.ended then t.chunks == g.1 + LastChunk(g.0, t.lastUs).1 else t.builder == g.0 && t.chunks == g.1
  }

  lemma AcceptGroups(cfg: Config, t: TrackState, data: Data, us: int, times: seq<int>)
    requires ChunksAre(cfg, t, times) && !t.ended
    ensures ChunksAre(cfg, Accepted(cfg, t, data, us), times + [us])
  {
    assert (t.samples + [data])[..|t.samples|] == t.samples && (times + [us])[..|times|] == times;
  }

  lemma EndGroups(cfg: Config, t: TrackState, times: seq<int>)
    requires ChunksAre(cfg, t, times) && !t.ended
    ensures ChunksAre(cfg, EndTrack(t), times)
  {}

  lemma {:induction false} TrackGroups(cfg: Config, w: Writer, actions: seq<Action>, w': Writer, k: nat,
                                       times: seq<int>)
    requires Run(cfg, w, actions, w') && k < |w.tracks| == |w'.tracks| && ChunksAre(cfg, w.tracks[k], times)
    ensures ChunksAre(cfg, w'.tracks[k], times + TimesGiven(actions, k))
    decreases actions
  {
    if actions == [] {
      assert times + [] == times;
    } else {
      var a, w1 := actions[0], Next(cfg, w, actions[0]);
      var more := if a.Accept? && a.track == k && a.data != [] then [a.us] else [];
      if more != [] {
        AcceptGroups(cfg, w.tracks[k], a.data, a.us, times);
      } else if a.End? && a.track == k {
        EndGroups(cfg, w.tracks[k], times);
      }
      assert times + [] == times;
      assert ChunksAre(cfg, w1.tracks[k], times + more);
      TrackGroups(cfg, w1, actions[1..], w', k, times + more);
      Associative(times, more, TimesGiven(actions[1..], k));
    }
  }

  /** For every schedule, the chunks of a track are completed by the first sample that comes later than the
      interleave duration, but for a last one that holds what was pending when the track ended. */
  lemma EveryChunkInTime(cfg: Config, w: Writer, actions: seq<Action>, w': Writer, k: nat, c: nat)
    requires Initial(w) && Run(cfg, w, actions, w') && k < |w'.tracks| && c < |w'.tracks[k].chunks|
    ensures var t, times := w'.tracks[k], TimesGiven(actions, k);
            && |times| == |t.samples|
            && (ChunkTimed(cfg.interleaveUs, times, t.chunks, c)
                || (t.ended && c == |t.chunks| - 1 && PendingTimed(cfg.interleaveUs, times, |Flatten(t.chunks[..c])|)))
  {
    SamplesKept(cfg, w, actions, w', k);
    var t, times := w'.tracks[k], TimesGiven(actions, k);
    TrackGroups(cfg, w, actions, w', k, []);
    assert [] + times == times;
    ChunksInTime(cfg.interleaveUs, t.samples, times);
    var g := Grouping(cfg.interleaveUs, t.samples, times);
    MoreChunksTimed(cfg.interleaveUs, times, g.1, t.chunks, c);
  }

  lemma MoreChunksTimed(interleaveUs: int, times: seq<int>, done: seq<Chunk>, chunks: seq<Chunk>, c: nat)
    requires forall d :: 0 <= d < |done| ==> ChunkTimed(interleaveUs, times, done, d)
    requires c < |chunks| && |done| <= |chunks| <= |done| + 1 && chunks[..|done|] == done
    ensures c < |done| ==> ChunkTimed(interleaveUs, times, chunks, c)
    ensures c >= |done| ==> c == |chunks| - 1 && chunks[..c] == done
  {
    if c < |done| {
      assert times[..|times|] == times && chunks == done + chunks[|done|..];
      TimedPrefix(interleaveUs, times, |times|, done, chunks[|done|..], c);
    }
  }

  /** For every schedule of the threads, once recording is over every track that was given samples has them
      all and can be read back. */
  lemma EveryTrackReadsBack(cfg: Config, w: Writer, actions: seq<Action>, w': Writer, k: nat, stts: seq<Run>)
    requires Initial(w) && Run(cfg, w, actions, w') && Finished(w') && k < |w'.tracks|
    requires 0 < |w'.tracks[k].samples| < TWO32 && Counts(stts) == |w'.tracks[k].samples|
    ensures w'.tracks[k].samples == SamplesGiven(actions, k)
    ensures Complete(cfg, w'.file, w'.tracks[k]) && WellFormed(TablesOf(cfg, w'.tracks[k], stts))
  {
    InitialInv(cfg, w);
    RunKeepsInv(cfg, w, actions, w');
    NothingToWrite(cfg, w');
    assert TrackInv(cfg, w', k);
    SamplesKept(cfg, w, actions, w', k);
    TablesWellFormed(cfg, w'.file, w'.tracks[k], stts);
  }

  // ------------------------------------------------------------------ the writer object

  lemma BigEndianBytes(n: nat)
    ensures BigEndian(n, 4) == [n / 0x100_0000 % 256, n / 0x1_0000 % 256, n / 0x100 % 256, n % 256]
    ensures BigEndian(n, 2) == [n / 0x100 % 256, n % 256]
  {
    var a, b, c := n / 256, n / 256 / 256, n / 256 / 256 / 256;
    assert b == n / 0x1_0000 && c == n / 0x100_0000;
    assert BigEndian(b, 2) == BigEndian(c, 1) + [b % 256];
    assert BigEndian(c, 1) == [] + [c % 256];
    assert BigEndian(a, 3) == BigEndian(b, 2) + [a % 256];
    assert BigEndian(a, 1) == [] + [a % 256];
  }

  /** A round of the writer thread that nothing comes in between. */
  function WriteOne(cfg: Config, w: Writer): Writer
    requires w.held == []
  {
    if Taken(w).held == [] then w else PutDown(cfg, Taken(w))
  }

  /** n such rounds. */
  function WriteMany(cfg: Config, w: Writer, n: nat): (w': Writer)
    requires w.held == []
    ensures w'.held == []
  {
    if n == 0 then w else WriteOne(cfg, WriteMany(cfg, w, n - 1))
  }

  class MPEG4Writer {
    const cfg: Config
    var tracks: seq<TrackState>
    var file: Data
    var done: bool
    var held: seq<Entry>         // chunk of threadFunc, from when it is found until it is written
    ghost var log: seq<Entry>

    ghost function State(): Writer
      reads this
    {
      Writer(tracks, file, done, log, held)
    }

    /** addSample_l and addLengthPrefixedSample_l: where the sample went. */
    method AddSample(avc: bool, data: Data) returns (offset: nat)
      modifies `file
      ensures offset == cfg.base + |old(file)| && file == old(file) + Stored(cfg, avc, data)
      ensures Fits(cfg, avc, data) ==> Holds(cfg, avc, file[|old(file)|..], data)
    {
      offset := cfg.base + |file|;
      BigEndianBytes(|data|);
      var prefix: Data := [];
      if avc {
        if cfg.use4ByteNalLength {
          prefix := [|data| / 0x100_0000 % 256, |data| / 0x1_0000 % 256, |data| / 0x100 % 256, |data| % 256];
        } else {
          prefix := [|data| / 0x100 % 256, |data| % 256];
        }
      }
      file := file + prefix + data;
      Associative(old(file), prefix, data);
      assert file[|old(file)|..] == Stored(cfg, avc, data);
      if Fits(cfg, avc, data) { StoredHolds(cfg, avc, data); }
    }

    /** Writes the samples of a chunk and records where the first one went. */
    method WriteChunkToFile(k: nat, chunk: Chunk)
      requires k < |tracks|
      modifies `file, `tracks
      ensures file == old(file) + StoredAll(cfg, old(tracks[k].avc), chunk.samples)
      ensures tracks == old(tracks)[k := Recorded(cfg, old(tracks[k]), chunk, cfg.base + |old(file)|)]
    {
      ghost var recorded := tracks[k := Recorded(cfg, tracks[k], chunk, cfg.base + |file|)];
      assert chunk.samples == [] ==> recorded == tracks;
      var i := 0;
      while i < |chunk.samples|
        invariant 0 <= i <= |chunk.samples|
        invariant file == old(file) + StoredAll(cfg, old(tracks[k].avc), chunk.samples[..i])
        invariant tracks == if i == 0 then old(tracks) else recorded
        invariant tracks[k].avc == old(tracks[k].avc)
      {
        WriteSample(k, chunk, i, old(file));
        i := i + 1;
      }
      assert chunk.samples[..|chunk.samples|] == chunk.samples;
    }

    // The body of the loop in writeChunkToFile; the file was `before` when the chunk was begun.
    method WriteSample(k: nat, chunk: Chunk, i: nat, ghost before: Data)
      requires k < |tracks| && i < |chunk.samples|
      requires file == before + StoredAll(cfg, tracks[k].avc, chunk.samples[..i])
      modifies `file, `tracks
      ensures file == before + StoredAll(cfg, old(tracks[k].avc), chunk.samples[..i + 1])
      ensures tracks == if i > 0 then old(tracks)
                        else old(tracks)[k := Recorded(cfg, old(tracks[k]), chunk, cfg.base + |before|)]
    {
      StoredAllNext(cfg, tracks[k].avc, chunk.samples, i, before);
      var offset := AddSample(tracks[k].avc, chunk.samples[i]);
      if i == 0 {
        var t := tracks[k];
        tracks := tracks[k := t.(chunkOffsets := t.chunkOffsets + [TableOffset(cfg, offset)],
            starts := t.starts + [offset])];
      }
    }

    /** Takes the earliest first chunk off its queue. */
    method FindChunkToWrite() returns (k: int, chunk: Chunk)
      modifies `tracks
      ensures k == Earliest(old(tracks), |old(tracks)|)
      ensures k < 0 ==> tracks == old(tracks)
      ensures k >= 0 ==> chunk == old(tracks[k].queue[0])
                         && tracks == old(tracks)[k := old(tracks[k]).(queue := old(tracks[k].queue)[1..])]
    {
      var minTimestampUs := INT64_MAX;
      k := -1;
      var i := 0;
      while i < |tracks|
        invariant 0 <= i <= |tracks|
        invariant k == Earliest(tracks, i) && minTimestampUs == MinSoFar(tracks, k)
      {
        if tracks[i].queue != [] && tracks[i].queue[0].timestampUs < minTimestampUs {
          minTimestampUs := tracks[i].queue[0].timestampUs;
          k := i;
        }
        i := i + 1;
      }
      if k < 0 {
        return k, Chunk(0, []);
      }
      chunk := tracks[k].queue[0];
      tracks := tracks[k := tracks[k].(queue := tracks[k].queue[1..])];
    }

    /** The first half of a round of threadFunc, under the lock. */
    method TakeChunk() returns (found: bool)
      requires held == []
      modifies `tracks, `held
      ensures State() == Next(cfg, old(State()), Take) && HeldOk(State())
      ensures found <==> held != []
      ensures found <==> Earliest(old(tracks), |old(tracks)|) >= 0
    {
      var k, chunk := FindChunkToWrite();
      found := k >= 0;
      if found {
        held := [Entry(k, tracks[k].avc, chunk)];
      }
    }

    /** The second half; in real-time recording other threads may have come in between. */
    method PutChunk()
      requires Enabled(cfg, State(), Put)
      modifies this
      ensures State() == Next(cfg, old(State()), Put)
    {
      var e := held[0];
      log := log + [e];
      WriteChunkToFile(e.track, e.chunk);
      held := [];
    }

    /** One round of threadFunc. */
    method WriterRound() returns (found: bool)
      requires held == []
      modifies this
      ensures State() == WriteOne(cfg, old(State()))
      ensures found <==> Earliest(old(tracks), |old(tracks)|) >= 0
    {
      found := TakeChunk();
      if found {
        PutChunk();
      }
    }

    /** What is left when recording stops. */
    method WriteAllChunks() returns (ghost n: nat)
      requires held == []
      modifies this
      ensures State() == WriteMany(cfg, old(State()), n)
      ensures Earliest(tracks, |tracks|) < 0
    {
      n := 0;
      var found := true;
      while found
        invariant State() == WriteMany(cfg, old(State()), n) && held == []
        invariant !found ==> Earliest(tracks, |tracks|) < 0
        decreases found, Queued(tracks)
      {
        QueuedShrinks(cfg, State());
        found := WriterRound();
        n := n + 1;
      }
    }

    method BufferChunk(k: nat, chunk: Chunk)
      requires k < |tracks| && !done
      modifies `tracks
      ensures tracks == old(tracks)[k := old(tracks[k]).(queue := old(tracks[k].queue) + [chunk],
                                                         chunks := old(tracks[k].chunks) + [chunk])]
    {
      var t := tracks[k];
      tracks := tracks[k := t.(queue := t.queue + [chunk], chunks := t.chunks + [chunk])];
    }

    // bufferChunk of the track: its pending samples become a chunk.
    method BufferPending(k: nat, us: int)
      requires k < |tracks| && !done
      modifies `tracks
      ensures var t, chunk := old(tracks[k]), Chunk(us, old(tracks[k].builder.pending));
              tracks == old(tracks)[k := t.(queue := t.queue + [chunk], chunks := t.chunks + [chunk],
                                            builder := t.builder.(pending := []))]
    {
      BufferChunk(k, Chunk(us, tracks[k].builder.pending));
      tracks := tracks[k := tracks[k].(builder := tracks[k].builder.(pending := []))];
    }

    /** The chunk part of one round of a track's loop. */
    method AcceptSample(k: nat, data: Data, us: int)
      requires Enabled(cfg, State(), Accept(k, data, us))
      modifies `tracks
      ensures State() == Next(cfg, old(State()), Accept(k, data, us))
    {
      if data == [] {
        return;
      }
      var t := tracks[k];
      var b := t.builder.(pending := t.builder.pending + [data]);
      var complete := cfg.interleaveUs == 0;
      if complete {
        b := b.(nChunks := b.nChunks + 1, stsc := b.stsc + [ChunkRun(b.nChunks + 1, 1)]);
      } else if b.timestampUs == 0 {
        b := b.(timestampUs := us);
      } else if us - b.timestampUs > cfg.interleaveUs {
        complete := true;
        b := b.(nChunks := b.nChunks + 1, timestampUs := us);
        if b.nChunks == 1 || b.lastPerChunk != |b.pending| {
          b := b.(lastPerChunk := |b.pending|, stsc := b.stsc + [ChunkRun(b.nChunks, |b.pending|)]);
        }
      }
      tracks := tracks[k := t.(builder := b, samples := t.samples + [data], lastUs := us)];
      if complete {
        BufferPending(k, us);
      }
      assert t.queue + [] == t.queue && t.chunks + [] == t.chunks;
      assert tracks[k] == Accepted(cfg, t, data, us);
      assert tracks == old(tracks)[k := tracks[k]];
    }

    /** The end of a track's loop. */
    method EndOfTrack(k: nat)
      requires Enabled(cfg, State(), End(k))
      modifies `tracks
      ensures State() == Next(cfg, old(State()), End(k))
    {
      var t := tracks[k];
      if t.builder.pending != [] {
        var n := t.builder.nChunks + 1;
        var stsc := t.builder.stsc + [ChunkRun(n, |t.builder.pending|)];
        tracks := tracks[k := t.(builder := t.builder.(nChunks := n, stsc := stsc))];
        BufferPending(k, t.lastUs);
      }
      tracks := tracks[k := tracks[k].(ended := true)];
      assert t.queue + [] == t.queue && t.chunks + [] == t.chunks;
      assert tracks[k] == EndTrack(t);
      assert tracks == old(tracks)[k := tracks[k]];
    }
  }

  lemma StoredAllNext(cfg: Config, avc: bool, samples: seq<Data>, i: nat, before: Data)
    requires i < |samples|
    ensures before + StoredAll(cfg, avc, samples[..i]) + Stored(cfg, avc, samples[i])
         == before + StoredAll(cfg, avc, samples[..i + 1])
  {
    assert samples[..i + 1][..i] == samples[..i];
    Associative(before, StoredAll(cfg, avc, samples[..i]), Stored(cfg, avc, samples[i]));
  }

  function Queued(tracks: seq<TrackState>): nat {
    if tracks == [] then 0 else Queued(tracks[..|tracks| - 1]) + |tracks[|tracks| - 1].queue|
  }

  lemma {:induction false} QueuedUpdate(tracks: seq<TrackState>, k: nat, t: TrackState)
    requires k < |tracks|
    ensures Queued(tracks[k := t]) == Queued(tracks) - |tracks[k].queue| + |t.queue|
  {
    var n := |tracks| - 1;
    if k < n {
      QueuedUpdate(tracks[..n], k, t);
      assert tracks[k := t][..n] == tracks[..n][k := t];
    } else {
      assert tracks[k := t][..n] == tracks[..n];
    }
  }

  // Each chunk found makes the queues shorter.
  lemma QueuedShrinks(cfg: Config, w: Writer)
    requires w.held == []
    ensures Earliest(w.tracks, |w.tracks|) >= 0 ==> Queued(WriteOne(cfg, w).tracks) < Queued(w.tracks)
  {
    var k := Earliest(w.tracks, |w.tracks|);
    if k >= 0 {
      QueuedUpdate(w.tracks, k, HeadWritten(cfg, w.tracks[k], cfg.base + |w.file|));
      TakenIsWhole(w);
      PutDownIsWrite(cfg, Taken(w));
    }
  }
}
