/** The run-length tables that one recording track builds (MPEG4Writer::Track::threadEntry in
    libstagefright/MPEG4Writer.cpp): stts, ctts and stss, decoded again by the definitions of
    SampleTables. */
module TrackTables {
  import opened SampleTables

  // A time in microseconds, in ticks of the track's time scale, rounded to the nearest.
  function Ticks(us: nat, timeScale: nat): nat { (us * timeScale + 500000) / 1000000 }

  // ------------------------------------------------------------------ run-length encoding

  /** The runs stand for exactly these values. */
  predicate Decodes(runs: seq<Run>, values: seq<nat>) {
    && Counts(runs) == |values|
    && forall i :: 0 <= i < |values| ==> RunValue(runs, i) == values[i]
  }

  lemma {:induction false} RunValueAppend(runs: seq<Run>, last: Run, i: nat)
    ensures Counts(runs + [last]) == Counts(runs) + last.count
    ensures RunValue(runs + [last], i) == if i < Counts(runs) then RunValue(runs, i)
                                          else if i < Counts(runs) + last.count then last.value else 0
  {
    if runs == [] {
      assert [] + [last] == [last] && [last][1..] == [];
    } else {
      assert (runs + [last])[0] == runs[0] && (runs + [last])[1..] == runs[1..] + [last];
      RunValueAppend(runs[1..], last, if i < runs[0].count then 0 else i - runs[0].count);
    }
  }

  // One more sample with the value of the pending run.
  lemma RunGrows(runs: seq<Run>, count: nat, value: nat, values: seq<nat>)
    requires Decodes(runs + [Run(count, value)], values)
    ensures Decodes(runs + [Run(count + 1, value)], values + [value])
  {
    var n := |values|;
    forall i | 0 <= i < n + 1
      ensures RunValue(runs + [Run(count + 1, value)], i) == (values + [value])[i]
    {
      RunValueAppend(runs, Run(count, value), i);
      RunValueAppend(runs, Run(count + 1, value), i);
    }
    RunValueAppend(runs, Run(count, value), 0);
    RunValueAppend(runs, Run(count + 1, value), 0);
  }

  // The pending run is closed and a new one starts.
  lemma RunStarts(runs: seq<Run>, values: seq<nat>, value: nat)
    requires Decodes(runs, values)
    ensures Decodes(runs + [Run(1, value)], values + [value])
  {
    forall i | 0 <= i < |values| + 1
      ensures RunValue(runs + [Run(1, value)], i) == (values + [value])[i]
    {
      RunValueAppend(runs, Run(1, value), i);
    }
    RunValueAppend(runs, Run(1, value), 0);
  }

  // A run of no samples changes nothing.
  lemma EmptyRun(runs: seq<Run>, value: nat, values: seq<nat>)
    ensures Decodes(runs + [Run(0, value)], values) <==> Decodes(runs, values)
  {
    RunValueAppend(runs, Run(0, value), 0);
    forall i | 0 <= i < |values| && Counts(runs) == |values|
      ensures RunValue(runs + [Run(0, value)], i) == RunValue(runs, i)
    {
      RunValueAppend(runs, Run(0, value), i);
    }
  }

  // ------------------------------------------------------------------ stts

  /** The entries written, and the running counters of the loop. */
  datatype SttsBuilder = SttsBuilder(runs: seq<Run>, sampleCount: nat, lastDurationTicks: int, lastTicks: int)

  const NO_STTS := SttsBuilder([], 1, 0, 0)

  /** The durations that n + 1 samples at these ticks determine, as 32-bit words. */
  function Durations(ticks: seq<int>): (ds: seq<nat>)
    ensures |ds| == if ticks == [] then 0 else |ticks| - 1
  {
    if |ticks| < 2 then [] else
      Durations(ticks[..|ticks| - 1]) + [U32(ticks[|ticks| - 1] - ticks[|ticks| - 2])]
  }

  lemma {:induction false} DurationAt(ticks: seq<int>, k: nat)
    requires k + 1 < |ticks|
    ensures Durations(ticks)[k] == U32(ticks[k + 1] - ticks[k])
  {
    if k + 2 < |ticks| { DurationAt(ticks[..|ticks| - 1], k); }
  }

  /** The last sample is given the duration of the one before it. */
  function AllDurations(ticks: seq<int>): (ds: seq<nat>)
    ensures |ds| == |ticks|
  {
    var ds := Durations(ticks);
    if ticks == [] then [] else if ds == [] then [0] else ds + [ds[|ds| - 1]]
  }

  /** What the loop keeps: the entries written and the pending one stand for the durations so far. */
  predicate SttsSoFar(ticks: seq<int>, b: SttsBuilder) {
    var n := |ticks|;
    && (n == 0 ==> b == NO_STTS)
    && (n > 0 ==> b.lastTicks == ticks[n - 1])
    && (n <= 2 ==> b.runs == [] && b.sampleCount == 1)
    && (n > 1 ==> b.sampleCount >= 1 && b.lastDurationTicks == ticks[n - 1] - ticks[n - 2]
                  && Decodes(b.runs + [Run(b.sampleCount, U32(b.lastDurationTicks))], Durations(ticks)))
  }

  /** One sample, lines 2385 to 2406: `count` samples have been added, this one included. */
  method AddToStts(b: SttsBuilder, count: nat, ticks: int, ghost before: seq<int>) returns (b': SttsBuilder)
    requires SttsSoFar(before, b) && count == |before| + 1
    ensures SttsSoFar(before + [ticks], b')
  {
    var current := ticks - b.lastTicks;
    var runs, sampleCount := b.runs, b.sampleCount;
    ghost var value, ds := U32(current), Durations(before);
    assert (before + [ticks])[..|before|] == before;
    if count > 2 {
      if count == 3 || current != b.lastDurationTicks {
        runs := runs + [Run(sampleCount, U32(b.lastDurationTicks))];
        sampleCount := 1;
        RunStarts(runs, ds, value);
      } else {
        sampleCount := sampleCount + 1;
        RunGrows(runs, b.sampleCount, value, ds);
      }
    } else if count == 2 {
      RunStarts([], [], value);
      assert [] + [Run(1, value)] == [Run(1, value)] && ds + [value] == [value];
    }
    b' := SttsBuilder(runs, sampleCount, current, ticks);
  }

  /** The entries for the last sample, lines 2489 to 2503. */
  method FinishStts(b: SttsBuilder, count: nat, ghost ticks: seq<int>) returns (stts: seq<Run>)
    requires SttsSoFar(ticks, b) && count == |ticks|
    ensures count > 0 ==> Decodes(stts, AllDurations(ticks))
    ensures count == 0 ==> Counts(stts) == 2
  {
    var duration, sampleCount := b.lastDurationTicks, b.sampleCount;
    if count == 1 {
      duration := 0;
    } else {
      sampleCount := sampleCount + 1;
    }
    ghost var ds := Durations(ticks);
    if count > 1 { LastDuration(ticks); }
    if count <= 2 {
      stts := b.runs + [Run(1, U32(duration))];
      RunStarts([], [], U32(duration));
      assert [] + [Run(1, U32(duration))] == stts;
      if sampleCount - 1 > 0 {
        RunStarts(stts, [U32(duration)], U32(duration));
        stts := stts + [Run(sampleCount - 1, U32(duration))];
      }
      if count == 2 { assert ds == [U32(duration)]; }
    } else {
      RunGrows(b.runs, b.sampleCount, U32(duration), ds);
      stts := b.runs + [Run(sampleCount, U32(duration))];
    }
  }

  lemma LastDuration(ticks: seq<int>)
    requires |ticks| > 1
    ensures var ds := Durations(ticks);
            |ds| == |ticks| - 1 && ds[|ds| - 1] == U32(ticks[|ticks| - 1] - ticks[|ticks| - 2])
  {}

  /** Every gap between consecutive samples is a 32-bit number of ticks. */
  predicate GapsFit(ticks: seq<int>) {
    forall k :: 0 < k < |ticks| ==> 0 <= ticks[k] - ticks[k - 1] < TWO32
  }

  /** The table gives every sample its distance to the first one exactly when no gap is negative or
      too wide for its 32-bit entry. */
  lemma {:induction false} SttsDecodes(ticks: seq<int>, stts: seq<Run>)
    requires |ticks| > 0 && Decodes(stts, AllDurations(ticks))
    ensures (forall i :: 0 <= i < |ticks| ==> DecodeTime(stts, i) == ticks[i] - ticks[0]) <==> GapsFit(ticks)
  {
    if GapsFit(ticks) {
      forall i | 0 <= i < |ticks| ensures DecodeTime(stts, i) == ticks[i] - ticks[0] {
        SttsDecodesAt(ticks, stts, i);
      }
    } else {
      var k :| 0 < k < |ticks| && !(0 <= ticks[k] - ticks[k - 1] < TWO32);
      DurationAt(ticks, k - 1);
      assert DecodeTime(stts, k) == DecodeTime(stts, k - 1) + RunValue(stts, k - 1);
    }
  }

  lemma {:induction false} SttsDecodesAt(ticks: seq<int>, stts: seq<Run>, i: nat)
    requires i < |ticks| && Decodes(stts, AllDurations(ticks)) && GapsFit(ticks)
    ensures DecodeTime(stts, i) == ticks[i] - ticks[0]
  {
    if i > 0 {
      SttsDecodesAt(ticks, stts, i - 1);
      DurationAt(ticks, i - 1);
      assert RunValue(stts, i - 1) == AllDurations(ticks)[i - 1];
      assert 0 <= ticks[i] - ticks[i - 1] < TWO32;
    }
  }

  /** Rounding never drifts: the difference of two rounded times is within one tick of the
      difference of the times. */
  lemma NoDrift(us: nat, us0: nat, timeScale: nat)
    ensures -1000000 < (Ticks(us, timeScale) - Ticks(us0, timeScale)) * 1000000 - (us - us0) * timeScale < 1000000
  {
    assert us * timeScale - us0 * timeScale == (us - us0) * timeScale;
  }

  // Rounding is monotone.
  lemma TicksMono(us: nat, us': nat, timeScale: nat)
    requires us <= us'
    ensures Ticks(us, timeScale) <= Ticks(us', timeScale)
  {
    MulMono(us, us', timeScale);
  }

  // ------------------------------------------------------------------ ctts

  datatype CttsBuilder = CttsBuilder(runs: seq<Run>, sampleCount: nat, lastTicks: int, currTicks: int)

  const NO_CTTS := CttsBuilder([], 0, -1, 0)

  /** What the loop keeps: the entries written and the pending one stand for the offsets so far. */
  predicate CttsSoFar(offsets: seq<nat>, b: CttsBuilder) {
    if offsets == [] then b == NO_CTTS else
      && b.lastTicks == b.currTicks == offsets[|offsets| - 1]
      && Decodes(b.runs + [Run(b.sampleCount, b.lastTicks)], offsets)
  }

  /** One sample, lines 2333 to 2351. */
  method AddToCtts(b: CttsBuilder, first: bool, current: nat, ghost before: seq<nat>) returns (b': CttsBuilder)
    requires CttsSoFar(before, b) && first == (before == [])
    ensures CttsSoFar(before + [current], b')
  {
    var runs, sampleCount := b.runs, b.sampleCount;
    if first {
      runs := runs + [Run(1, current)];
      sampleCount := 0;
      RunStarts([], [], current);
      EmptyRun(runs, current, [current]);
      assert [] + [Run(1, current)] == runs && before + [current] == [current];
    } else if current != b.lastTicks {
      runs := runs + [Run(sampleCount, b.lastTicks)];
      sampleCount := 1;
      RunStarts(runs, before, current);
    } else {
      RunGrows(runs, sampleCount, current, before);
      sampleCount := sampleCount + 1;
    }
    b' := CttsBuilder(runs, sampleCount, current, current);
  }

  /** The last pending entry, lines 2507 to 2511. */
  method FinishCtts(b: CttsBuilder, ghost offsets: seq<nat>) returns (ctts: seq<Run>)
    requires CttsSoFar(offsets, b)
    ensures Decodes(ctts, offsets)
  {
    ctts := b.runs;
    if b.currTicks == b.lastTicks && b.sampleCount > 0 {
      ctts := ctts + [Run(b.sampleCount, b.lastTicks)];
    } else if offsets != [] {
      EmptyRun(ctts, b.lastTicks, offsets);
    }
  }

  // ------------------------------------------------------------------ the track

  /** The numbers, from 1, of the samples that are sync samples. */
  function SyncNumbers(syncs: seq<bool>): seq<nat> {
    if syncs == [] then [] else
      SyncNumbers(syncs[..|syncs| - 1]) + if syncs[|syncs| - 1] then [|syncs|] else []
  }

  /** stss is strictly increasing and lists exactly the sync samples. */
  lemma {:induction false} SyncNumbersList(syncs: seq<bool>)
    ensures forall i, j :: 0 <= i < j < |SyncNumbers(syncs)| ==> SyncNumbers(syncs)[i] < SyncNumbers(syncs)[j]
    ensures forall k :: k in SyncNumbers(syncs) <==> 1 <= k <= |syncs| && syncs[k - 1]
  {
    if syncs != [] {
      var before := SyncNumbers(syncs[..|syncs| - 1]);
      SyncNumbersList(syncs[..|syncs| - 1]);
      forall i | 0 <= i < |before| ensures before[i] < |syncs| {
        assert before[i] in before;
      }
    }
  }

  class Track {
    const timeScale: nat
    const isAudio: bool
    var sizes: seq<nat>       // mStszTableEntries
    var syncs: seq<nat>       // mStssTableEntries
    var stts: SttsBuilder
    var ctts: CttsBuilder
    ghost var times: seq<nat>     // decode time of every sample, in microseconds
    ghost var offsets: seq<nat>   // composition offset of every sample, in ticks
    ghost var isSync: seq<bool>

    ghost predicate Valid()
      reads this
    {
      && |sizes| == |times| == |isSync| && |offsets| == (if isAudio then 0 else |times|)
      && SttsSoFar(TicksOf(times, timeScale), stts)
      && CttsSoFar(offsets, ctts)
      && syncs == SyncNumbers(isSync)
    }

    constructor (timeScale: nat, isAudio: bool)
      ensures Valid() && this.timeScale == timeScale && this.isAudio == isAudio && sizes == []
    {
      this.timeScale, this.isAudio := timeScale, isAudio;
      sizes, syncs, stts, ctts, times, offsets, isSync := [], [], NO_STTS, NO_CTTS, [], [], [];
    }

    /** One round of the loop, for a sample at `decodingUs` that is shown at `timestampUs`; both are
        relative to the start of the track and audio samples have the same for both. */
    method AddSample(size: nat, timestampUs: nat, decodingUs: nat, sync: bool)
      requires Valid() && decodingUs <= timestampUs + 1000000
      requires !isAudio ==> Ticks(timestampUs + 1000000 - decodingUs, timeScale) < TWO32
      modifies this
      ensures Valid() && sizes == old(sizes) + [size]
      ensures times == old(times) + [if isAudio then timestampUs else decodingUs]
      ensures isSync == old(isSync) + [sync]
      ensures offsets == old(offsets) + if isAudio then [] else [Ticks(timestampUs + 1000000 - decodingUs, timeScale)]
    {
      if !isAudio {
        AddOffset(Ticks(timestampUs + 1000000 - decodingUs, timeScale));
      }
      AddTime(if isAudio then timestampUs else decodingUs);
      SyncNumbersNext(isSync, sync);
      isSync := isSync + [sync];
      sizes := sizes + [size];
      if sync {
        syncs := syncs + [|sizes|];
      }
    }

    method AddOffset(current: nat)
      requires CttsSoFar(offsets, ctts) && (|sizes| == 0 <==> offsets == [])
      modifies `ctts, `offsets
      ensures CttsSoFar(offsets, ctts) && offsets == old(offsets) + [current]
    {
      ctts := AddToCtts(ctts, |sizes| == 0, current, offsets);
      offsets := offsets + [current];
    }

    method AddTime(us: nat)
      requires SttsSoFar(TicksOf(times, timeScale), stts) && |sizes| == |times|
      modifies `stts, `times
      ensures SttsSoFar(TicksOf(times, timeScale), stts) && times == old(times) + [us]
    {
      TicksOfNext(times, us, timeScale);
      stts := AddToStts(stts, |sizes| + 1, Ticks(us, timeScale), TicksOf(times, timeScale));
      times := times + [us];
    }

    /** After the loop: what the finished tables say about every sample. */
    method Finish() returns (sttsRuns: seq<Run>, cttsRuns: seq<Run>)
      requires Valid() && |sizes| > 0
      ensures Decodes(sttsRuns, AllDurations(TicksOf(times, timeScale)))
      ensures Decodes(cttsRuns, offsets)
    {
      sttsRuns := FinishStts(stts, |sizes|, TicksOf(times, timeScale));
      cttsRuns := FinishCtts(ctts, offsets);
    }
  }

  function TicksOf(times: seq<nat>, timeScale: nat): (ts: seq<int>)
    ensures |ts| == |times|
    ensures forall i :: 0 <= i < |times| ==> ts[i] == Ticks(times[i], timeScale)
  {
    seq(|times|, i requires 0 <= i < |times| => Ticks(times[i], timeScale))
  }

  lemma TicksOfNext(times: seq<nat>, us: nat, timeScale: nat)
    ensures TicksOf(times + [us], timeScale) == TicksOf(times, timeScale) + [Ticks(us, timeScale)]
  {}

  lemma SyncNumbersNext(syncs: seq<bool>, sync: bool)
    ensures SyncNumbers(syncs + [sync]) == SyncNumbers(syncs) + if sync then [|syncs| + 1] else []
  {
    assert (syncs + [sync])[..|syncs|] == syncs;
  }

  /** The whole chain, for samples whose decode times do not decrease: the table that is written
      places sample i at the rounded distance to the first sample, less than a tick away from the
      true one. */
  lemma DecodedTimes(times: seq<nat>, timeScale: nat, stts: seq<Run>, i: nat)
    requires i < |times| && Decodes(stts, AllDurations(TicksOf(times, timeScale)))
    requires InOrder(times, timeScale)
    ensures DecodeTime(stts, i) == Ticks(times[i], timeScale) - Ticks(times[0], timeScale)
    ensures -1000000 < DecodeTime(stts, i) * 1000000 - (times[i] - times[0]) * timeScale < 1000000
    ensures Counts(stts) == |times|
  {
    var ticks := TicksOf(times, timeScale);
    forall k | 0 < k < |ticks| ensures 0 <= ticks[k] - ticks[k - 1] < TWO32 {
      TicksMono(times[k - 1], times[k], timeScale);
    }
    SttsDecodesAt(ticks, stts, i);
    NoDrift(times[i], times[0], timeScale);
  }

  /** What the reader's iterator computes from the written tables is the sample's rounded decode time,
      from the first sample's on, plus its own offset: exactly when no completed run overflows 32 bits. */
  lemma ReaderTime(times: seq<nat>, timeScale: nat, stts: seq<Run>, ctts: seq<Run>, offsets: seq<nat>, i: nat)
    requires i < |times| == |offsets| && Decodes(ctts, offsets) && offsets[i] < 0x8000_0000
    requires Decodes(stts, AllDurations(TicksOf(times, timeScale))) && InOrder(times, timeScale)
    requires Ticks(times[i], timeScale) + offsets[i] < TWO64
    ensures U64(TruncatedTime(stts, i) + Signed32(RunValue(ctts, i)))
            == Ticks(times[i], timeScale) - Ticks(times[0], timeScale) + offsets[i]
            <==> SmallProducts(stts, i)
  {
    ReaderTimePlus(times, timeScale, stts, i, offsets[i]);
  }

  // Decode times do not go back, and no gap is too wide for its entry.
  predicate InOrder(times: seq<nat>, timeScale: nat) {
    && (forall k :: 0 < k < |times| ==> times[k - 1] <= times[k])
    && forall k :: 0 < k < |times| ==> Ticks(times[k], timeScale) - Ticks(times[k - 1], timeScale) < TWO32
  }

  lemma ReaderTimePlus(times: seq<nat>, timeScale: nat, stts: seq<Run>, i: nat, offset: nat)
    requires i < |times| && offset < 0x8000_0000
    requires Decodes(stts, AllDurations(TicksOf(times, timeScale))) && InOrder(times, timeScale)
    requires Ticks(times[i], timeScale) + offset < TWO64
    ensures U64(TruncatedTime(stts, i) + Signed32(offset))
            == Ticks(times[i], timeScale) - Ticks(times[0], timeScale) + offset
            <==> SmallProducts(stts, i)
  {
    DecodedTimes(times, timeScale, stts, i);
    TruncatedTimeExact(stts, i);
    U64Small(TruncatedTime(stts, i) + offset);
  }

  lemma U64Small(x: nat)
    requires x < TWO64
    ensures U64(x) == x
  {}
}
