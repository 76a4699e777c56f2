/** How a recording track groups its samples into chunks and describes the grouping in its stsc table
    (libstagefright/MPEG4Writer.cpp, MPEG4Writer::Track::threadEntry), and how that table reads back. */
module TrackChunks {
  import opened Bits
  import opened SampleTables

  type Data = seq<byte>

  /** What bufferChunk hands to the writer thread. */
  datatype Chunk = Chunk(timestampUs: int, samples: seq<Data>)

  /** nChunks, lastSamplesPerChunk, chunkTimestampUs, mChunkSamples and mStscTableEntries. */
  datatype ChunkBuilder = ChunkBuilder(nChunks: nat, lastPerChunk: nat, timestampUs: int,
                                       pending: seq<Data>, stsc: seq<ChunkRun>)

  const NO_CHUNKS := ChunkBuilder(0, 0, 0, [], [])

  /** One more sample, lines 2445 to 2468: the chunk it completes, if any. */
  function AddToChunk(interleaveUs: int, b: ChunkBuilder, sample: Data, us: int): (ChunkBuilder, seq<Chunk>) {
    var pending := b.pending + [sample];
    if interleaveUs == 0 then
      (b.(nChunks := b.nChunks + 1, stsc := b.stsc + [ChunkRun(b.nChunks + 1, 1)], pending := []), [Chunk(us, pending)])
    else if b.timestampUs == 0 then
      (b.(timestampUs := us, pending := pending), [])
    else if us - b.timestampUs > interleaveUs then
      var n := b.nChunks + 1;
      if n == 1 || b.lastPerChunk != |pending| then
        (ChunkBuilder(n, |pending|, us, [], b.stsc + [ChunkRun(n, |pending|)]), [Chunk(us, pending)])
      else
        (b.(nChunks := n, timestampUs := us, pending := []), [Chunk(us, pending)])
    else
      (b.(pending := pending), [])
  }

  /** The last chunk, lines 2478 to 2484. */
  function LastChunk(b: ChunkBuilder, us: int): (ChunkBuilder, seq<Chunk>) {
    if b.pending == [] then (b, []) else
      var n := b.nChunks + 1;
      (b.(nChunks := n, stsc := b.stsc + [ChunkRun(n, |b.pending|)], pending := []), [Chunk(us, b.pending)])
  }

  /** The table as its reader holds it: chunk numbers from 0 (SampleTable.cpp). */
  function ZeroBased(stsc: seq<ChunkRun>): (r: seq<ChunkRun>)
    ensures |r| == |stsc|
  {
    if stsc == [] then [] else
      var last := stsc[|stsc| - 1];
      ZeroBased(stsc[..|stsc| - 1]) +
      [ChunkRun(if last.startChunk == 0 then 0 else last.startChunk - 1, last.samplesPerChunk)]
  }

  lemma ZeroBasedAppend(stsc: seq<ChunkRun>, start: nat, perChunk: nat)
    ensures ZeroBased(stsc + [ChunkRun(start + 1, perChunk)]) == ZeroBased(stsc) + [ChunkRun(start, perChunk)]
  {
    assert (stsc + [ChunkRun(start + 1, perChunk)])[..|stsc|] == stsc;
  }

  // ------------------------------------------------------------------ what stsc says

  /** The number of samples of each chunk. */
  function ChunkSizes(chunks: seq<Chunk>): (sizes: seq<nat>)
    ensures |sizes| == |chunks|
  {
    if chunks == [] then [] else ChunkSizes(chunks[..|chunks| - 1]) + [|chunks[|chunks| - 1].samples|]
  }

  /** The samples of the chunks, in order. */
  function Flatten(chunks: seq<Chunk>): seq<Data> {
    if chunks == [] then [] else Flatten(chunks[..|chunks| - 1]) + chunks[|chunks| - 1].samples
  }

  function Sum(sizes: seq<nat>): nat {
    if sizes == [] then 0 else Sum(sizes[..|sizes| - 1]) + sizes[|sizes| - 1]
  }

  // The (0-based) table gives every chunk its size.
  predicate Describes(stsc: seq<ChunkRun>, sizes: seq<nat>) {
    if sizes == [] then stsc == [] else
      && WellFormedStsc(stsc)
      && stsc[|stsc| - 1].startChunk < |sizes|
      && stsc[|stsc| - 1].samplesPerChunk == sizes[|sizes| - 1]
      && forall c :: 0 <= c < |sizes| ==> SamplesInChunk(stsc, c) == sizes[c]
  }

  // Entries after entry i do not matter for it.
  lemma {:induction false} EntryForPrefix(stsc: seq<ChunkRun>, e: ChunkRun, c: nat, i: nat)
    requires i < |stsc|
    ensures EntryFor(stsc + [e], c, i) == EntryFor(stsc, c, i)
  {
    if i > 0 { EntryForPrefix(stsc, e, c, i - 1); }
  }

  // A chunk like the last one needs no entry.
  lemma DescribesSame(stsc: seq<ChunkRun>, sizes: seq<nat>)
    requires Describes(stsc, sizes) && sizes != []
    ensures Describes(stsc, sizes + [sizes[|sizes| - 1]])
  {
    assert EntryFor(stsc, |sizes|, |stsc| - 1) == |stsc| - 1;
  }

  // Any chunk can be given an entry of its own.
  lemma DescribesNew(stsc: seq<ChunkRun>, sizes: seq<nat>, n: nat)
    requires Describes(stsc, sizes) && n >= 1
    ensures Describes(stsc + [ChunkRun(|sizes|, n)], sizes + [n])
  {
    var e := ChunkRun(|sizes|, n);
    forall c | 0 <= c <= |sizes| ensures SamplesInChunk(stsc + [e], c) == (sizes + [n])[c] {
      if c < |sizes| { EntryForPrefix(stsc, e, c, |stsc| - 1); }
    }
  }

  // A chunk starts after the samples of the chunks before it.
  lemma {:induction false} FirstSampleIsSum(stsc: seq<ChunkRun>, sizes: seq<nat>, c: nat)
    requires Describes(stsc, sizes) && sizes != [] && c <= |sizes|
    ensures FirstSample(stsc, c) == Sum(sizes[..c])
  {
    if c > 0 {
      FirstSampleIsSum(stsc, sizes, c - 1);
      assert sizes[..c][..c - 1] == sizes[..c - 1];
    }
  }

  lemma {:induction false} SumOfSizes(chunks: seq<Chunk>)
    ensures Sum(ChunkSizes(chunks)) == |Flatten(chunks)|
  {
    if chunks != [] {
      SumOfSizes(chunks[..|chunks| - 1]);
      var sizes := ChunkSizes(chunks[..|chunks| - 1]);
      assert (sizes + [|chunks[|chunks| - 1].samples|])[..|sizes|] == sizes;
    }
  }

  lemma {:induction false} ChunkSizesPrefix(chunks: seq<Chunk>, c: nat)
    requires c <= |chunks|
    ensures ChunkSizes(chunks)[..c] == ChunkSizes(chunks[..c])
    ensures c < |chunks| ==> ChunkSizes(chunks)[c] == |chunks[c].samples|
  {
    var n := |chunks|;
    if c == n {
      assert chunks[..c] == chunks;
      assert ChunkSizes(chunks)[..c] == ChunkSizes(chunks);
    } else {
      ChunkSizesPrefix(chunks[..n - 1], c);
      assert chunks[..n - 1][..c] == chunks[..c];
      assert ChunkSizes(chunks)[..c] == ChunkSizes(chunks[..n - 1])[..c];
    }
  }

  // Sample j of chunk c, among all samples.
  lemma {:induction false} FlattenAt(chunks: seq<Chunk>, c: nat, j: nat)
    requires c < |chunks| && j < |chunks[c].samples|
    ensures |Flatten(chunks[..c])| + j < |Flatten(chunks)|
    ensures Flatten(chunks)[|Flatten(chunks[..c])| + j] == chunks[c].samples[j]
  {
    var n := |chunks|;
    if c < n - 1 {
      FlattenAt(chunks[..n - 1], c, j);
      assert chunks[..n - 1][..c] == chunks[..c];
    }
  }

  predicate NoneEmpty(chunks: seq<Chunk>) {
    forall c :: 0 <= c < |chunks| ==> chunks[c].samples != []
  }

  /** Invariant of the loop: the chunks completed so far and the pending samples are all the samples,
      and the table describes the chunks. */
  predicate Grouped(interleaveUs: int, b: ChunkBuilder, chunks: seq<Chunk>, samples: seq<Data>) {
    && Flatten(chunks) + b.pending == samples
    && b.nChunks == |chunks|
    && Describes(ZeroBased(b.stsc), ChunkSizes(chunks))
    && NoneEmpty(chunks)
    && (interleaveUs == 0 ==> b.pending == [])
    && (interleaveUs != 0 && chunks != [] ==> b.lastPerChunk == |chunks[|chunks| - 1].samples|)
  }

  // One more chunk, with or without an entry for it.
  lemma ChunkCompleted(b: ChunkBuilder, stsc: seq<ChunkRun>, chunks: seq<Chunk>, samples: seq<Data>, chunk: Chunk)
    requires Describes(ZeroBased(b.stsc), ChunkSizes(chunks)) && NoneEmpty(chunks) && chunk.samples != []
    requires Flatten(chunks) + chunk.samples == samples
    requires || stsc == b.stsc + [ChunkRun(|chunks| + 1, |chunk.samples|)]
             || (stsc == b.stsc && chunks != [] && |chunk.samples| == |chunks[|chunks| - 1].samples|)
    ensures Flatten(chunks + [chunk]) == samples && samples + [] == samples
    ensures NoneEmpty(chunks + [chunk]) && |chunks + [chunk]| == |chunks| + 1 && (chunks + [chunk])[|chunks|] == chunk
    ensures Describes(ZeroBased(stsc), ChunkSizes(chunks + [chunk]))
  {
    assert (chunks + [chunk])[..|chunks|] == chunks;
    var sizes, n := ChunkSizes(chunks), |chunk.samples|;
    assert ChunkSizes(chunks + [chunk]) == sizes + [n];
    if stsc == b.stsc {
      DescribesSame(ZeroBased(stsc), sizes);
    } else {
      ZeroBasedAppend(b.stsc, |chunks|, n);
      DescribesNew(ZeroBased(b.stsc), sizes, n);
    }
  }

  /** A sample is never lost or reordered by the grouping, and the table stays right. */
  lemma AddKeepsGrouped(interleaveUs: int, b: ChunkBuilder, chunks: seq<Chunk>, samples: seq<Data>, sample: Data,
          us: int)
    requires Grouped(interleaveUs, b, chunks, samples)
    ensures var r := AddToChunk(interleaveUs, b, sample, us);
            |r.1| <= 1 && Grouped(interleaveUs, r.0, chunks + r.1, samples + [sample])
  {
    var r := AddToChunk(interleaveUs, b, sample, us);
    var pending := b.pending + [sample];
    Regroup(Flatten(chunks), b.pending, sample, samples);
    if r.1 == [] {
      assert chunks + r.1 == chunks;
    } else {
      AddCompletes(interleaveUs, b, chunks, samples, sample, us);
    }
  }

  lemma Regroup(done: seq<Data>, pending: seq<Data>, sample: Data, samples: seq<Data>)
    requires done + pending == samples
    ensures done + (pending + [sample]) == samples + [sample]
  {}

  // What completing a chunk does to the counters and the table.
  lemma CompletedChunk(interleaveUs: int, b: ChunkBuilder, sample: Data, us: int)
    requires AddToChunk(interleaveUs, b, sample, us).1 != []
    ensures var r, n := AddToChunk(interleaveUs, b, sample, us), |b.pending| + 1;
            && r.1 == [Chunk(us, b.pending + [sample])]
            && r.0.pending == [] && r.0.nChunks == b.nChunks + 1
            && (interleaveUs != 0 ==> r.0.lastPerChunk == n)
            && (interleaveUs == 0 && b.pending == [] ==> r.0.stsc == b.stsc + [ChunkRun(b.nChunks + 1, n)])
            && (interleaveUs != 0 ==> || r.0.stsc == b.stsc + [ChunkRun(b.nChunks + 1, n)]
                                      || (r.0.stsc == b.stsc && b.nChunks != 0 && b.lastPerChunk == n))
  {}

  lemma AddCompletes(interleaveUs: int, b: ChunkBuilder, chunks: seq<Chunk>, samples: seq<Data>, sample: Data, us: int)
    requires Grouped(interleaveUs, b, chunks, samples) && AddToChunk(interleaveUs, b, sample, us).1 != []
    ensures var r := AddToChunk(interleaveUs, b, sample, us);
            |r.1| == 1 && Grouped(interleaveUs, r.0, chunks + r.1, samples + [sample])
  {
    var r := AddToChunk(interleaveUs, b, sample, us);
    CompletedChunk(interleaveUs, b, sample, us);
    var chunk := r.1[0];
    Regroup(Flatten(chunks), b.pending, sample, samples);
    ChunkCompleted(b, r.0.stsc, chunks, samples + [sample], chunk);
  }

  lemma LastKeepsGrouped(interleaveUs: int, b: ChunkBuilder, chunks: seq<Chunk>, samples: seq<Data>, us: int)
    requires Grouped(interleaveUs, b, chunks, samples)
    ensures var r := LastChunk(b, us);
            && |r.1| <= 1 && r.0.pending == []
            && Flatten(chunks + r.1) == samples
            && Describes(ZeroBased(r.0.stsc), ChunkSizes(chunks + r.1))
            && NoneEmpty(chunks + r.1)
  {
    var r := LastChunk(b, us);
    if b.pending == [] {
      assert chunks + r.1 == chunks && Flatten(chunks) + [] == Flatten(chunks);
    } else {
      ChunkCompleted(b, r.0.stsc, chunks, samples, Chunk(us, b.pending));
    }
  }

  // ------------------------------------------------------------------ when chunks are completed

  /** The samples so far, with their times, one after the other. */
  function Grouping(interleaveUs: int, samples: seq<Data>, times: seq<int>): (ChunkBuilder, seq<Chunk>)
    requires |samples| == |times|
  {
    if samples == [] then (NO_CHUNKS, []) else
      var n := |samples| - 1;
      var g := Grouping(interleaveUs, samples[..n], times[..n]);
      var r := AddToChunk(interleaveUs, g.0, samples[n], times[n]);
      (r.0, g.1 + r.1)
  }

  lemma {:induction false} GroupingGrouped(interleaveUs: int, samples: seq<Data>, times: seq<int>)
    requires |samples| == |times|
    ensures var g := Grouping(interleaveUs, samples, times); Grouped(interleaveUs, g.0, g.1, samples)
  {
    if samples != [] {
      var n := |samples| - 1;
      var g := Grouping(interleaveUs, samples[..n], times[..n]);
      GroupingGrouped(interleaveUs, samples[..n], times[..n]);
      AddKeepsGrouped(interleaveUs, g.0, g.1, samples[..n], samples[n], times[n]);
      assert samples == samples[..n] + [samples[n]];
    }
  }

  /** The first time from position a on that is not 0; 0 if there is none. */
  function FirstSet(times: seq<int>, a: nat): int
    decreases |times| - a
  {
    if a >= |times| then 0 else if times[a] != 0 then times[a] else FirstSet(times, a + 1)
  }

  /** The time that the samples of a chunk are compared with, when sample k comes and the chunk starts at
      sample lo: that of the sample before the chunk, or of its own first one if there is none before. */
  function Reference(times: seq<int>, lo: nat, k: nat): int
    requires k <= |times|
  {
    FirstSet(times[..k], if lo == 0 then 0 else lo - 1)
  }

  /** Sample k comes later than the interleave duration allows. */
  predicate TooLate(interleaveUs: int, times: seq<int>, lo: nat, k: nat)
    requires k < |times|
  {
    Reference(times, lo, k) != 0 && times[k] - Reference(times, lo, k) > interleaveUs
  }

  // Chunk c: without interleaving it is one sample; otherwise its last sample is the first that is too late.
  predicate ChunkTimed(interleaveUs: int, times: seq<int>, chunks: seq<Chunk>, c: nat)
    requires c < |chunks|
  {
    var lo, hi := |Flatten(chunks[..c])|, |Flatten(chunks[..c])| + |chunks[c].samples|;
    && lo < hi <= |times| && chunks[c].timestampUs == times[hi - 1]
    && (interleaveUs == 0 ==> hi == lo + 1)
    && (interleaveUs != 0 ==> forall k :: lo <= k < hi ==> (TooLate(interleaveUs, times, lo, k) <==> k == hi - 1))
  }

  // No pending sample is too late.
  predicate PendingTimed(interleaveUs: int, times: seq<int>, lo: nat) {
    interleaveUs != 0 ==> forall k :: lo <= k < |times| ==> !TooLate(interleaveUs, times, lo, k)
  }

  lemma {:induction false} FirstSetAppend(times: seq<int>, us: int, a: nat)
    requires a <= |times|
    ensures FirstSet(times + [us], a) == if FirstSet(times, a) != 0 then FirstSet(times, a) else us
    decreases |times| - a
  {
    if a < |times| {
      assert (times + [us])[a] == times[a];
      FirstSetAppend(times, us, a + 1);
    } else {
      assert (times + [us])[a] == us;
    }
  }

  // Whether a sample is too late depends on the samples before it alone.
  lemma TooLatePrefix(interleaveUs: int, times: seq<int>, n: nat, lo: nat, k: nat)
    requires k < n <= |times|
    ensures TooLate(interleaveUs, times[..n], lo, k) <==> TooLate(interleaveUs, times, lo, k)
  {
    assert times[..n][..k] == times[..k];
  }

  // Chunks that were completed stay timed when samples come in.
  lemma TimedPrefix(interleaveUs: int, times: seq<int>, n: nat, chunks: seq<Chunk>, more: seq<Chunk>, c: nat)
    requires n <= |times| && c < |chunks| && ChunkTimed(interleaveUs, times[..n], chunks, c)
    ensures ChunkTimed(interleaveUs, times, chunks + more, c)
  {
    assert (chunks + more)[..c] == chunks[..c];
    var lo := |Flatten(chunks[..c])|;
    var hi := lo + |chunks[c].samples|;
    forall k | lo <= k < hi
      ensures TooLate(interleaveUs, times[..n], lo, k) <==> TooLate(interleaveUs, times, lo, k) {
      TooLatePrefix(interleaveUs, times, n, lo, k);
    }
  }

  // What the builder compares the next sample with.
  predicate BuilderTimed(interleaveUs: int, times: seq<int>, lo: nat, b: ChunkBuilder) {
    && lo <= |times| && PendingTimed(interleaveUs, times, lo)
    && (interleaveUs != 0 ==> b.timestampUs == Reference(times, lo, |times|))
    && (interleaveUs == 0 ==> lo == |times|)
  }

  /** Over every sequence of samples and times: a chunk is completed by the first sample that comes later
      than the interleave duration after the chunk's reference time, and takes its time stamp. */
  lemma {:induction false} ChunksInTime(interleaveUs: int, samples: seq<Data>, times: seq<int>)
    requires |samples| == |times|
    ensures var g := Grouping(interleaveUs, samples, times);
            && (forall c :: 0 <= c < |g.1| ==> ChunkTimed(interleaveUs, times, g.1, c))
            && |Flatten(g.1)| + |g.0.pending| == |samples|
            && BuilderTimed(interleaveUs, times, |Flatten(g.1)|, g.0)
  {
    GroupingGrouped(interleaveUs, samples, times);
    if samples == [] {
      assert Flatten([]) == [];
    } else {
      var n := |samples| - 1;
      var g := Grouping(interleaveUs, samples[..n], times[..n]);
      ChunksInTime(interleaveUs, samples[..n], times[..n]);
      OneMoreTimed(interleaveUs, times, n, g.0, g.1, samples[n]);
    }
  }

  lemma OneMoreTimed(interleaveUs: int, times: seq<int>, n: nat, b: ChunkBuilder, chunks: seq<Chunk>, sample: Data)
    requires n == |times| - 1 && |Flatten(chunks)| + |b.pending| == n
    requires BuilderTimed(interleaveUs, times[..n], |Flatten(chunks)|, b)
    requires forall c :: 0 <= c < |chunks| ==> ChunkTimed(interleaveUs, times[..n], chunks, c)
    ensures var r := AddToChunk(interleaveUs, b, sample, times[n]);
            && (forall c :: 0 <= c < |chunks + r.1| ==> ChunkTimed(interleaveUs, times, chunks + r.1, c))
            && BuilderTimed(interleaveUs, times, |Flatten(chunks + r.1)|, r.0)
  {
    var r := AddToChunk(interleaveUs, b, sample, times[n]);
    NextTimed(interleaveUs, times, n, b, chunks, sample);
    forall c | 0 <= c < |chunks + r.1| ensures ChunkTimed(interleaveUs, times, chunks + r.1, c) {
      if c < |chunks| { TimedPrefix(interleaveUs, times, n, chunks, r.1, c); }
    }
  }

  lemma NextTimed(interleaveUs: int, times: seq<int>, n: nat, b: ChunkBuilder, chunks: seq<Chunk>, sample: Data)
    requires n == |times| - 1 && |Flatten(chunks)| + |b.pending| == n
    requires BuilderTimed(interleaveUs, times[..n], |Flatten(chunks)|, b)
    ensures var r := AddToChunk(interleaveUs, b, sample, times[n]);
            && |r.1| <= 1
            && (r.1 != [] ==> ChunkTimed(interleaveUs, times, chunks + r.1, |chunks|))
            && BuilderTimed(interleaveUs, times, |Flatten(chunks + r.1)|, r.0)
  {
    var r, lo := AddToChunk(interleaveUs, b, sample, times[n]), |Flatten(chunks)|;
    var a := if lo == 0 then 0 else lo - 1;
    assert times[..n] + [times[n]] == times[..|times|] == times;
    FirstSetAppend(times[..n], times[n], a);
    assert times[..n][..n] == times[..n];
    forall k | lo <= k < n
      ensures TooLate(interleaveUs, times[..n], lo, k) <==> TooLate(interleaveUs, times, lo, k) {
      TooLatePrefix(interleaveUs, times, n, lo, k);
    }
    if r.1 == [] {
      assert chunks + r.1 == chunks;
    } else {
      assert (chunks + r.1)[..|chunks|] == chunks;
      assert |Flatten(chunks + r.1)| == n + 1;
      assert FirstSet(times, n + 1) == 0;
    }
  }
}
