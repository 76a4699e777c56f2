/** The sample tables of an MP4 track and their meaning, without cursors: ISO/IEC 14496-12 sections
    8.6.1 (times) and 8.7.3 to 8.7.5 (sizes, chunks and offsets). */
module SampleTables {

  const TWO32: int := 0x1_0000_0000
  const TWO64: int := 0x1_0000_0000_0000_0000

  // Truncation to 32 and 64 bits.
  function U32(x: int): (r: nat) ensures r < TWO32 { x % TWO32 }
  function U64(x: int): (r: nat) ensures r < TWO64 { x % TWO64 }

  // A 32-bit word read as a signed number.
  function Signed32(x: nat): int
    requires x < TWO32
  {
    if x < 0x8000_0000 then x else x - TWO32
  }

  // ------------------------------------------------------------------ run-length tables (stts, ctts)

  /** `count` consecutive samples that share `value`. */
  datatype Run = Run(count: nat, value: nat)

  function Counts(runs: seq<Run>): nat {
    if runs == [] then 0 else runs[0].count + Counts(runs[1..])
  }

  /** The value of sample i, 0 past the end of the table. */
  function RunValue(runs: seq<Run>, i: nat): nat {
    if runs == [] then 0
    else if i < runs[0].count then runs[0].value
    else RunValue(runs[1..], i - runs[0].count)
  }

  lemma {:induction false} CountsSplit(runs: seq<Run>, k: nat)
    requires k <= |runs|
    ensures Counts(runs) == Counts(runs[..k]) + Counts(runs[k..])
  {
    if k > 0 {
      assert runs[..k][1..] == runs[1..][..k - 1];
      CountsSplit(runs[1..], k - 1);
    } else {
      assert runs[0..] == runs;
    }
  }

  // One more run in a prefix.
  lemma CountsNext(runs: seq<Run>, k: nat)
    requires k < |runs|
    ensures Counts(runs[..k + 1]) == Counts(runs[..k]) + runs[k].count
  {
    assert runs[..k + 1][..k] == runs[..k];
    CountsSplit(runs[..k + 1], k);
    assert runs[..k + 1][k..] == [runs[k]];
    assert [runs[k]][1..] == [];
  }

  // Looking a sample up past the first k runs.
  lemma {:induction false} RunValueSplit(runs: seq<Run>, k: nat, i: nat)
    requires k <= |runs| && Counts(runs[..k]) <= i
    ensures RunValue(runs, i) == RunValue(runs[k..], i - Counts(runs[..k]))
  {
    if k > 0 {
      assert runs[..k][1..] == runs[1..][..k - 1];
      RunValueSplit(runs[1..], k - 1, i - runs[0].count);
      assert runs[1..][k - 1..] == runs[k..];
    } else {
      assert runs[0..] == runs;
    }
  }

  /** Decode time of sample i: the durations of the samples before it. */
  function DecodeTime(stts: seq<Run>, i: nat): nat {
    if i == 0 then 0 else DecodeTime(stts, i - 1) + RunValue(stts, i - 1)
  }

  /** What findSampleTime adds up: whole runs as 32-bit products, then the samples of the last run. */
  function TruncatedTime(stts: seq<Run>, i: nat): nat {
    if stts == [] then 0
    else if i < stts[0].count then i * stts[0].value
    else U32(stts[0].count * stts[0].value) + TruncatedTime(stts[1..], i - stts[0].count)
  }

  /** No run that ends at or before sample i has a product of 2^32 or more. */
  predicate SmallProducts(stts: seq<Run>, i: nat) {
    stts != [] && i >= stts[0].count ==>
      stts[0].count * stts[0].value < TWO32 && SmallProducts(stts[1..], i - stts[0].count)
  }

  // Decode times inside the first run, and past it.
  lemma {:induction false} DecodeTimeSplit(stts: seq<Run>, i: nat)
    requires stts != []
    ensures i <= stts[0].count ==> DecodeTime(stts, i) == i * stts[0].value
    ensures i >= stts[0].count ==>
              DecodeTime(stts, i) == stts[0].count * stts[0].value + DecodeTime(stts[1..], i - stts[0].count)
  {
    if i > 0 {
      DecodeTimeSplit(stts, i - 1);
    }
  }

  /** The iterator's times are the decode times exactly when no completed run overflows 32 bits. */
  lemma {:induction false} TruncatedTimeExact(stts: seq<Run>, i: nat)
    requires i < Counts(stts)
    ensures TruncatedTime(stts, i) <= DecodeTime(stts, i)
    ensures TruncatedTime(stts, i) == DecodeTime(stts, i) <==> SmallProducts(stts, i)
  {
    DecodeTimeSplit(stts, i);
    if i >= stts[0].count {
      TruncatedTimeExact(stts[1..], i - stts[0].count);
      assert stts[0].count * stts[0].value >= 0;
    }
  }

  // Times past the first k runs.
  lemma {:induction false} TruncatedTimeSplit(stts: seq<Run>, k: nat, i: nat)
    requires k <= |stts| && Counts(stts[..k]) <= i
    ensures TruncatedTime(stts, i) == Products(stts[..k]) + TruncatedTime(stts[k..], i - Counts(stts[..k]))
  {
    if k > 0 {
      assert stts[..k][1..] == stts[1..][..k - 1];
      TruncatedTimeSplit(stts[1..], k - 1, i - stts[0].count);
      assert stts[1..][k - 1..] == stts[k..];
    } else {
      assert stts[0..] == stts;
    }
  }

  function Products(stts: seq<Run>): nat {
    if stts == [] then 0 else U32(stts[0].count * stts[0].value) + Products(stts[1..])
  }

  lemma {:induction false} ProductsNext(stts: seq<Run>, k: nat)
    requires k < |stts|
    ensures Products(stts[..k + 1]) == Products(stts[..k]) + U32(stts[k].count * stts[k].value)
  {
    if k == 0 {
      assert stts[..1][1..] == [];
    } else {
      assert stts[..k + 1][1..] == stts[1..][..k];
      assert stts[..k][1..] == stts[1..][..k - 1];
      ProductsNext(stts[1..], k - 1);
    }
  }

  // ------------------------------------------------------------------ chunks (stsc, stco, stsz)

  /** From chunk `startChunk` (0-based) on, every chunk has `samplesPerChunk` samples. */
  datatype ChunkRun = ChunkRun(startChunk: nat, samplesPerChunk: nat)

  /** The tables of one track.  `located` says the stsc, stco and stsz boxes were found. */
  datatype Tables = Tables(located: bool, stsc: seq<ChunkRun>, stco: seq<nat>,
                           numSamples: nat, defaultSize: nat, sizes: seq<nat>, stts: seq<Run>)

  predicate WellFormedStsc(stsc: seq<ChunkRun>) {
    && |stsc| > 0 && stsc[0].startChunk == 0
    && (forall i, j :: 0 <= i < j < |stsc| ==> stsc[i].startChunk < stsc[j].startChunk)
    && (forall i :: 0 <= i < |stsc| ==> stsc[i].samplesPerChunk >= 1)
  }

  // The entry of stsc that applies to chunk c: the last one, up to entry i, that starts at or before it.
  function EntryFor(stsc: seq<ChunkRun>, c: nat, i: nat): (r: nat)
    requires i < |stsc|
    ensures r <= i
  {
    if i == 0 || stsc[i].startChunk <= c then i else EntryFor(stsc, c, i - 1)
  }

  function SamplesInChunk(stsc: seq<ChunkRun>, c: nat): nat
    requires |stsc| > 0
  {
    stsc[EntryFor(stsc, c, |stsc| - 1)].samplesPerChunk
  }

  /** The first sample of chunk c: the samples of the chunks before it. */
  function FirstSample(stsc: seq<ChunkRun>, c: nat): nat
    requires |stsc| > 0
  {
    if c == 0 then 0 else FirstSample(stsc, c - 1) + SamplesInChunk(stsc, c - 1)
  }

  /** Sample i is in chunk c. */
  predicate InChunk(stsc: seq<ChunkRun>, c: nat, i: nat)
    requires |stsc| > 0
  {
    FirstSample(stsc, c) <= i < FirstSample(stsc, c + 1)
  }

  function SampleSize(t: Tables, i: nat): nat
    requires t.defaultSize > 0 || i < |t.sizes|
  {
    if t.defaultSize > 0 then t.defaultSize else t.sizes[i]
  }

  // The sizes of samples lo up to hi, together.
  function SizesBetween(t: Tables, lo: nat, hi: nat): nat
    requires lo <= hi && (t.defaultSize > 0 || hi <= |t.sizes|)
    decreases hi - lo
  {
    if lo == hi then 0 else SizesBetween(t, lo, hi - 1) + SampleSize(t, hi - 1)
  }

  // The first sample of run i has a 32-bit index.
  predicate BoundaryFits(stsc: seq<ChunkRun>, i: nat)
    requires i < |stsc|
  {
    FirstSample(stsc, stsc[i].startChunk) < TWO32
  }

  /** The tables are consistent and small enough for the reader's 32-bit counters. */
  predicate WellFormed(t: Tables) {
    && WellFormedStsc(t.stsc)
    && (t.defaultSize > 0 || |t.sizes| == t.numSamples)
    && t.numSamples < TWO32
    && (forall i :: 0 <= i < |t.stsc| ==> BoundaryFits(t.stsc, i))
    && t.numSamples <= FirstSample(t.stsc, |t.stco|)
    && t.numSamples <= Counts(t.stts) < TWO32
  }

  /** Where sample i, which is in chunk c, starts in the file. */
  function SampleOffset(t: Tables, c: nat, i: nat): nat
    requires WellFormed(t) && i < t.numSamples && c < |t.stco| && InChunk(t.stsc, c, i)
  {
    t.stco[c] + SizesBetween(t, FirstSample(t.stsc, c), i)
  }

  // Which entry applies inside run i of stsc.
  lemma {:induction false} EntryInRun(stsc: seq<ChunkRun>, c: nat, i: nat, j: nat)
    requires WellFormedStsc(stsc) && i <= j < |stsc| && stsc[i].startChunk <= c
    requires i + 1 < |stsc| ==> c < stsc[i + 1].startChunk
    ensures EntryFor(stsc, c, j) == i
  {
    if j > i {
      assert stsc[i + 1].startChunk <= stsc[j].startChunk;
      EntryInRun(stsc, c, i, j - 1);
    }
  }

  // Inside a run, chunks start samplesPerChunk samples apart.
  lemma {:induction false} FirstSampleInRun(stsc: seq<ChunkRun>, i: nat, c: nat)
    requires WellFormedStsc(stsc) && i < |stsc| && stsc[i].startChunk <= c
    requires i + 1 < |stsc| ==> c <= stsc[i + 1].startChunk
    ensures FirstSample(stsc, c) ==
            FirstSample(stsc, stsc[i].startChunk) + (c - stsc[i].startChunk) * stsc[i].samplesPerChunk
    decreases c
  {
    if c > stsc[i].startChunk {
      FirstSampleInRun(stsc, i, c - 1);
      EntryInRun(stsc, c - 1, i, |stsc| - 1);
      MulStep(c - 1 - stsc[i].startChunk, stsc[i].samplesPerChunk);
    }
  }

  // Chunks are disjoint and in order.
  lemma {:induction false} FirstSampleGrows(stsc: seq<ChunkRun>, c: nat, d: nat)
    requires WellFormedStsc(stsc) && c <= d
    ensures FirstSample(stsc, c) + (d - c) <= FirstSample(stsc, d)
  {
    if c < d { FirstSampleGrows(stsc, c, d - 1); }
  }

  /** A sample is in at most one chunk. */
  lemma ChunkIsUnique(stsc: seq<ChunkRun>, c: nat, d: nat, i: nat)
    requires WellFormedStsc(stsc) && InChunk(stsc, c, i) && InChunk(stsc, d, i)
    ensures c == d
  {
    if c < d { FirstSampleGrows(stsc, c + 1, d); }
    if d < c { FirstSampleGrows(stsc, d + 1, c); }
  }

  /** The chunk seekTo computes inside run e of stsc. */
  lemma ChunkByDivision(stsc: seq<ChunkRun>, e: nat, i: nat, q: nat)
    requires WellFormedStsc(stsc) && e < |stsc|
    requires FirstSample(stsc, stsc[e].startChunk) <= i
    requires e + 1 < |stsc| ==> i < FirstSample(stsc, stsc[e + 1].startChunk)
    requires q == (i - FirstSample(stsc, stsc[e].startChunk)) / stsc[e].samplesPerChunk
    ensures var c := stsc[e].startChunk + q;
            && InChunk(stsc, c, i)
            && FirstSample(stsc, c) == FirstSample(stsc, stsc[e].startChunk) + q * stsc[e].samplesPerChunk
            && FirstSample(stsc, c + 1) == FirstSample(stsc, c) + stsc[e].samplesPerChunk
  {
    var first, spc := stsc[e].startChunk, stsc[e].samplesPerChunk;
    DivBounds(i - FirstSample(stsc, first), spc);
    MulStep(q, spc);
    if e + 1 < |stsc| {
      var n := stsc[e + 1].startChunk - first;
      assert stsc[e].startChunk < stsc[e + 1].startChunk;
      FirstSampleInRun(stsc, e, stsc[e + 1].startChunk);
      if q >= n { MulMono(n, q, spc); }
    }
    FirstSampleInRun(stsc, e, first + q);
    FirstSampleInRun(stsc, e, first + q + 1);
  }

  lemma MulMono(a: nat, b: nat, d: nat)
    requires a <= b
    ensures a * d <= b * d
  {}

  lemma MulStep(a: nat, d: nat)
    ensures (a + 1) * d == a * d + d
  {}

  lemma DivBounds(x: nat, d: nat)
    requires d > 0
    ensures x / d >= 0 && x / d * d <= x < x / d * d + d && x % d == x - x / d * d
  {}
}
