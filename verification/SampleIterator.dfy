/** SampleIterator (libstagefright/SampleIterator.cpp) and the composition offset lookup of
    SampleTable (libstagefright/SampleTable.cpp): cursors over the sample tables that are kept from
    one query to the next. */
module SampleIterator {
  import opened SampleTables

  /** Aborted stands for a failed CHECK. */
  datatype Status = Ok | EndOfStream | Malformed | OutOfRange | Aborted

  class CompositionDeltaLookup {
    var hasEntries: bool          // mDeltaEntries != NULL
    var deltas: seq<Run>          // mDeltaEntries
    var currentEntry: nat         // mCurrentDeltaEntry
    var currentEntrySample: nat   // mCurrentEntrySampleIndex

    ghost predicate Valid()
      reads this
    {
      && currentEntry <= |deltas|
      && currentEntrySample == Counts(deltas[..currentEntry])
      && forall k :: 0 <= k < |deltas| ==> deltas[k].value < TWO32
    }

    /** The offset of sample i, looked up afresh. */
    ghost function Offset(i: nat): nat
      reads this
    {
      if hasEntries then RunValue(deltas, i) else 0
    }

    constructor ()
      ensures Valid() && !hasEntries
    {
      hasEntries, deltas, currentEntry, currentEntrySample := false, [], 0, 0;
    }

    method SetEntries(runs: seq<Run>)
      requires forall k :: 0 <= k < |runs| ==> runs[k].value < TWO32
      modifies this
      ensures Valid() && hasEntries && deltas == runs
    {
      hasEntries, deltas, currentEntry, currentEntrySample := true, runs, 0, 0;
    }

    /** Whatever was asked before, the answer is that of a fresh lookup. */
    method GetCompositionTimeOffset(i: nat) returns (offset: nat)
      requires Valid()
      modifies `currentEntry, `currentEntrySample
      ensures Valid()
      ensures offset == Offset(i) < TWO32
    {
      if !hasEntries {
        return 0;
      }
      if i < currentEntrySample {
        currentEntry, currentEntrySample := 0, 0;
      }
      while currentEntry < |deltas|
        invariant Valid() && currentEntrySample <= i
        decreases |deltas| - currentEntry
      {
        var sampleCount := deltas[currentEntry].count;
        RunValueSplit(deltas, currentEntry, i);
        if i < currentEntrySample + sampleCount {
          return deltas[currentEntry].value;
        }
        CountsNext(deltas, currentEntry);
        currentEntrySample, currentEntry := currentEntrySample + sampleCount, currentEntry + 1;
      }
      RunValueSplit(deltas, currentEntry, i);
      return 0;
    }
  }

  /** mSampleToChunkIndex, mFirstChunk, mFirstChunkSampleIndex, mStopChunkSampleIndex, mSamplesPerChunk. */
  datatype RangeCursor = RangeCursor(entries: nat, firstChunk: nat, firstSample: nat, stopSample: nat, perChunk: nat)

  /** mCurrentChunkIndex, mCurrentChunkOffset, mCurrentChunkSampleSizes. */
  datatype LoadedChunk = LoadedChunk(index: nat, offset: nat, sizes: seq<nat>)

  /** mTimeToSampleIndex, mTTSSampleIndex, mTTSSampleTime, mTTSCount, mTTSDuration. */
  datatype TimeCursor = TimeCursor(runs: nat, sample: nat, time: nat, count: nat, duration: nat)

  /** mCurrentSampleIndex, mCurrentSampleOffset, mCurrentSampleSize, mCurrentSampleTime. */
  datatype Position = Position(index: nat, offset: nat, size: nat, time: nat)

  const RANGE_START := RangeCursor(0, 0, 0, 0, 0)
  const TIME_START := TimeCursor(0, 0, 0, 0, 0)

  // Nothing read yet, or entry `entries - 1` of stsc is loaded.
  predicate RangeIs(t: Tables, r: RangeCursor)
    requires WellFormed(t)
  {
    && r.entries <= |t.stsc|
    && if r.entries == 0 then r == RANGE_START else
         && r.firstChunk == t.stsc[r.entries - 1].startChunk
         && r.perChunk == t.stsc[r.entries - 1].samplesPerChunk
         && r.firstSample == FirstSample(t.stsc, r.firstChunk)
         && r.stopSample ==
            if r.entries < |t.stsc| then FirstSample(t.stsc, t.stsc[r.entries].startChunk) else 0xffff_ffff
  }

  // Nothing read yet, or run `runs - 1` of stts is loaded.
  predicate TimeIs(stts: seq<Run>, c: TimeCursor) {
    && c.runs <= |stts|
    && if c.runs == 0 then c == TIME_START else
         && stts[c.runs - 1] == Run(c.count, c.duration)
         && c.sample == Counts(stts[..c.runs - 1])
         && c.time == U64(Products(stts[..c.runs - 1]))
  }

  // The samples of chunk c that exist.
  function StoredSamples(t: Tables, c: nat): int
    requires WellFormed(t)
  {
    var stop := FirstSample(t.stsc, c + 1);
    (if stop <= t.numSamples then stop else t.numSamples) - FirstSample(t.stsc, c)
  }

  predicate SizesFrom(t: Tables, first: nat, sizes: seq<nat>)
    requires WellFormed(t)
  {
    && first + |sizes| <= t.numSamples
    && forall k :: 0 <= k < |sizes| ==> sizes[k] == SampleSize(t, first + k)
  }

  // The loaded chunk's offset and sizes are those of the tables.
  predicate ChunkIs(t: Tables, c: LoadedChunk)
    requires WellFormed(t)
  {
    && c.index < |t.stco| && c.offset == t.stco[c.index]
    && |c.sizes| == StoredSamples(t, c.index) > 0
    && SizesFrom(t, FirstSample(t.stsc, c.index), c.sizes)
  }

  /** The sample the iterator is at, in the given chunk and with composition offset `delta`: its
      offset, size and time by the cursor-free definitions. */
  predicate SampleIs(t: Tables, delta: nat, chunk: nat, p: Position)
    requires WellFormed(t)
  {
    && p.index < t.numSamples && delta < TWO32
    && chunk < |t.stco| && InChunk(t.stsc, chunk, p.index)
    && p.offset == SampleOffset(t, chunk, p.index)
    && p.size == SampleSize(t, p.index)
    && p.time == U64(TruncatedTime(t.stts, p.index) + Signed32(delta))
  }

  lemma SampleFound(t: Tables, delta: nat, chunk: nat, p: Position)
    requires WellFormed(t) && p.index < t.numSamples && delta < TWO32
    requires chunk < |t.stco| && InChunk(t.stsc, chunk, p.index)
    requires p.offset == SampleOffset(t, chunk, p.index) && p.size == SampleSize(t, p.index)
    requires p.time == U64(TruncatedTime(t.stts, p.index) + Signed32(delta))
    ensures SampleIs(t, delta, chunk, p)
  {}

  class SampleIterator {
    const t: Tables                       // mTable
    const lookup: CompositionDeltaLookup  // mTable->mCompositionDeltaLookup
    var initialized: bool
    var range: RangeCursor
    var chunk: LoadedChunk
    var times: TimeCursor
    var current: Position

    // seekTo gets past its first checks.
    predicate Usable() {
      t.located && |t.stts| > 0
    }

    /** The accessors answer for sample i. */
    ghost predicate At(i: nat)
      requires WellFormed(t)
      reads this, lookup
    {
      current.index == i && SampleIs(t, lookup.Offset(i), chunk.index, current)
    }

    ghost predicate Valid()
      reads this, lookup
    {
      && lookup.Valid()
      && (Usable() ==>
            && WellFormed(t)
            && TimeIs(t.stts, times)
            && (initialized ==> RangeIs(t, range) && ChunkIs(t, chunk) && At(current.index)))
    }

    constructor (table: Tables, deltas: CompositionDeltaLookup)
      requires deltas.Valid() && (table.located && |table.stts| > 0 ==> WellFormed(table))
      ensures Valid() && t == table && lookup == deltas && !initialized
    {
      t, lookup, initialized := table, deltas, false;
      range, times := RANGE_START, TIME_START;
      chunk, current := LoadedChunk(0, 0, []), Position(0, 0, 0, 0);
    }

    /** After any sequence of seeks, in any order, the iterator is at sample i as the tables define it. */
    method SeekTo(i: nat) returns (err: Status)
      requires Valid()
      modifies this, lookup`currentEntry, lookup`currentEntrySample
      ensures Valid()
      ensures err == EndOfStream <==> i >= t.numSamples
      ensures err == Malformed <==> i < t.numSamples && !Usable()
      ensures err == Ok || err == EndOfStream || err == Malformed
      ensures err == Ok ==> initialized && At(i)
    {
      if i >= t.numSamples {
        return EndOfStream;
      }
      if !t.located || |t.stts| == 0 {
        return Malformed;
      }
      if initialized && current.index == i {
        return Ok;
      }
      MoveTo(i);
      return Ok;
    }

    // The rest of seekTo, lines 73 to 150.
    method MoveTo(i: nat)
      requires lookup.Valid() && WellFormed(t) && i < t.numSamples
      requires TimeIs(t.stts, times) && (initialized ==> RangeIs(t, range) && ChunkIs(t, chunk))
      modifies this, lookup`currentEntry, lookup`currentEntrySample
      ensures lookup.Valid() && initialized
      ensures TimeIs(t.stts, times) && RangeIs(t, range) && ChunkIs(t, chunk) && At(i)
    {
      var relative := MoveToChunkOf(i);
      var offset, size := OffsetAndSize(i, relative);
      var time := MoveToTimeOf(i);
      SampleFound(t, lookup.Offset(i), chunk.index, Position(i, offset, size, time));
      Settle(Position(i, offset, size, time));
    }

    // Lines 148 to 150.
    method Settle(p: Position)
      requires WellFormed(t) && SampleIs(t, lookup.Offset(p.index), chunk.index, p)
      modifies `current, `initialized
      ensures initialized && At(p.index)
    {
      current, initialized := p, true;
    }

    // The chunk half of seekTo, lines 73 to 126.
    method MoveToChunkOf(i: nat) returns (relative: nat)
      requires WellFormed(t) && i < t.numSamples && (initialized ==> RangeIs(t, range) && ChunkIs(t, chunk))
      modifies `range, `chunk
      ensures RangeIs(t, range) && ChunkIs(t, chunk) && InChunk(t.stsc, chunk.index, i)
      ensures i == FirstSample(t.stsc, chunk.index) + relative
    {
      if !initialized || i < range.firstSample {
        range := RANGE_START;  // reset()
      }
      if i >= range.stopSample {
        var err := FindChunkRange(i);
        assert err == Ok;
      }
      var index;
      index, relative := Locate(i);
      if !initialized || index != chunk.index {
        LoadChunk(index);
      }
    }

    // The chunk of sample i in the loaded run, and its place in it.
    method Locate(i: nat) returns (index: nat, relative: nat)
      requires WellFormed(t) && RangeIs(t, range) && range.firstSample <= i < range.stopSample && i < t.numSamples
      ensures range.firstChunk <= index < |t.stco| && InChunk(t.stsc, index, i)
      ensures i == FirstSample(t.stsc, index) + relative
      ensures FirstSample(t.stsc, index) == range.firstSample + (index - range.firstChunk) * range.perChunk
      ensures FirstSample(t.stsc, index + 1) == FirstSample(t.stsc, index) + range.perChunk
    {
      ghost var e := range.entries - 1;
      assert t.stsc[e].samplesPerChunk >= 1;
      DivBounds(i - range.firstSample, range.perChunk);
      index := (i - range.firstSample) / range.perChunk + range.firstChunk;
      relative := (i - range.firstSample) % range.perChunk;
      ChunkByDivision(t.stsc, e, i, index - range.firstChunk);
      ChunkIsStored(index, i);
    }

    // A chunk that holds a sample has an offset.
    lemma ChunkIsStored(c: nat, i: nat)
      requires WellFormed(t) && InChunk(t.stsc, c, i) && i < t.numSamples
      ensures c < |t.stco|
    {
      if c >= |t.stco| { FirstSampleGrows(t.stsc, |t.stco|, c); }
    }

    /** Advances over stsc entries until one covers sample i. */
    method FindChunkRange(i: nat) returns (err: Status)
      requires WellFormed(t) && RangeIs(t, range) && range.firstSample <= i
      modifies `range
      ensures RangeIs(t, range) && range.firstSample <= i
      ensures err == if i < 0xffff_ffff then Ok else OutOfRange
      ensures err == Ok ==> i < range.stopSample
    {
      while i >= range.stopSample
        invariant RangeIs(t, range) && range.firstSample <= i
        decreases |t.stsc| - range.entries
      {
        if range.entries == |t.stsc| {
          return OutOfRange;
        }
        var k := range.entries;
        var first, perChunk := t.stsc[k].startChunk, t.stsc[k].samplesPerChunk;
        var stop := 0xffff_ffff;
        if k + 1 < |t.stsc| {
          NextBoundary(k);
          stop := U32(range.stopSample + (t.stsc[k + 1].startChunk - first) * perChunk);
        }
        range := RangeCursor(k + 1, first, range.stopSample, stop, perChunk);
      }
      BoundariesFit();
      return Ok;
    }

    // Where the next run starts, computed from this one without overflow.
    lemma NextBoundary(k: nat)
      requires WellFormed(t) && k + 1 < |t.stsc|
      ensures t.stsc[k].startChunk <= t.stsc[k + 1].startChunk
      ensures var first, stop := t.stsc[k].startChunk, t.stsc[k + 1].startChunk;
              FirstSample(t.stsc, first) + (stop - first) * t.stsc[k].samplesPerChunk ==
                  FirstSample(t.stsc, stop) < TWO32
    {
      assert t.stsc[k].startChunk < t.stsc[k + 1].startChunk;
      FirstSampleInRun(t.stsc, k, t.stsc[k + 1].startChunk);
      assert BoundaryFits(t.stsc, k + 1);
    }

    // No boundary reaches past the value that marks the last run.
    lemma BoundariesFit()
      requires WellFormed(t) && RangeIs(t, range)
      ensures range.stopSample <= 0xffff_ffff
    {
      if 0 < range.entries < |t.stsc| { assert BoundaryFits(t.stsc, range.entries); }
    }

    method GetChunkOffset(index: nat) returns (err: Status, offset: nat)
      ensures err == if index < |t.stco| then Ok else OutOfRange
      ensures err == Ok ==> offset == t.stco[index]
    {
      if index >= |t.stco| {
        return OutOfRange, 0;
      }
      return Ok, t.stco[index];
    }

    method GetSampleSizeDirect(i: nat) returns (err: Status, size: nat)
      requires t.defaultSize > 0 || |t.sizes| == t.numSamples
      ensures err == if i < t.numSamples then Ok else OutOfRange
      ensures err == Ok ==> size == SampleSize(t, i)
    {
      if i >= t.numSamples {
        return OutOfRange, 0;
      }
      if t.defaultSize > 0 {
        return Ok, t.defaultSize;
      }
      return Ok, t.sizes[i];
    }

    /** Loads the offset of a chunk and the sizes of its samples. */
    method LoadChunk(index: nat)
      requires WellFormed(t) && index < |t.stco| && index >= range.firstChunk && range.perChunk > 0
      requires FirstSample(t.stsc, index) ==
               range.firstSample + (index - range.firstChunk) * range.perChunk < t.numSamples
      requires FirstSample(t.stsc, index + 1) == FirstSample(t.stsc, index) + range.perChunk
      modifies `chunk
      ensures chunk.index == index && ChunkIs(t, chunk)
    {
      var err, offset := GetChunkOffset(index);
      var sizes: seq<nat> := [];
      var first := range.firstSample + (index - range.firstChunk) * range.perChunk;
      var k := 0;
      while k < range.perChunk && first + k < t.numSamples
        invariant 0 <= k <= range.perChunk && k == |sizes|
        invariant SizesFrom(t, first, sizes)
      {
        var sizeErr, size := GetSampleSizeDirect(first + k);
        sizes := sizes + [size];
        k := k + 1;
      }
      chunk := LoadedChunk(index, offset, sizes);
    }

    /** Adds up the sizes of the samples before sample i in its chunk. */
    method OffsetAndSize(i: nat, relative: nat) returns (offset: nat, size: nat)
      requires WellFormed(t) && ChunkIs(t, chunk) && i < t.numSamples && InChunk(t.stsc, chunk.index, i)
      requires i == FirstSample(t.stsc, chunk.index) + relative
      ensures offset == SampleOffset(t, chunk.index, i)
      ensures size == SampleSize(t, i)
    {
      ghost var first := FirstSample(t.stsc, chunk.index);
      var k := 0;
      offset := chunk.offset;
      while k < relative
        invariant 0 <= k <= relative
        invariant offset == chunk.offset + SizesBetween(t, first, first + k)
      {
        offset := offset + chunk.sizes[k];
        k := k + 1;
      }
      size := chunk.sizes[relative];
    }

    // The time half of seekTo, lines 134 to 146.
    method MoveToTimeOf(i: nat) returns (time: nat)
      requires WellFormed(t) && i < t.numSamples && TimeIs(t.stts, times) && lookup.Valid()
      modifies `times, lookup`currentEntry, lookup`currentEntrySample
      ensures TimeIs(t.stts, times) && lookup.Valid()
      ensures lookup.Offset(i) < TWO32 && time == U64(TruncatedTime(t.stts, i) + Signed32(lookup.Offset(i)))
    {
      if i < times.sample {
        times := TIME_START;
      }
      var err;
      err, time := FindSampleTime(i);
      assert err == Ok;
    }

    method FindSampleTime(i: nat) returns (err: Status, time: nat)
      requires Counts(t.stts) < TWO32 && TimeIs(t.stts, times) && lookup.Valid() && times.sample <= i
      modifies `times, lookup`currentEntry, lookup`currentEntrySample
      ensures TimeIs(t.stts, times) && lookup.Valid()
      ensures err == if i < t.numSamples && i < Counts(t.stts) then Ok else OutOfRange
      ensures err == Ok ==>
              lookup.Offset(i) < TWO32 && time == U64(TruncatedTime(t.stts, i) + Signed32(lookup.Offset(i)))
    {
      time := 0;
      if i >= t.numSamples {
        return OutOfRange, time;
      }
      err := FindRun(i);
      if err == Ok {
        time := TimeInRun(i);
      }
    }

    /** Advances over stts runs until one covers sample i. */
    method FindRun(i: nat) returns (err: Status)
      requires Counts(t.stts) < TWO32 && TimeIs(t.stts, times) && times.sample <= i
      modifies `times
      ensures TimeIs(t.stts, times)
      ensures err == if i < Counts(t.stts) then Ok else OutOfRange
      ensures err == Ok ==> times.runs > 0 && times.sample <= i < times.sample + times.count
    {
      CountsOfCursor(t.stts, times);
      while i >= U32(times.sample + times.count)
        invariant TimeIs(t.stts, times) && times.sample <= i
        invariant times.sample + times.count == Counts(t.stts[..times.runs]) <= Counts(t.stts)
        decreases |t.stts| - times.runs
      {
        if times.runs == |t.stts| {
          assert t.stts[..|t.stts|] == t.stts;
          return OutOfRange;
        }
        LoadNextRun();
      }
      err := Ok;
    }

    // The body of the loop in findSampleTime, lines 306 to 312.
    method LoadNextRun()
      requires TimeIs(t.stts, times) && times.runs < |t.stts|
      modifies `times
      ensures TimeIs(t.stts, times) && times.runs == old(times.runs) + 1
      ensures times.sample == old(times.sample + times.count)
      ensures times.sample + times.count == Counts(t.stts[..times.runs]) <= Counts(t.stts)
    {
      NextRun(t.stts, times);
      var next := t.stts[times.runs];
      times := TimeCursor(times.runs + 1, times.sample + times.count,
                          U64(times.time + U32(times.count * times.duration)), next.count, next.value);
      CountsOfCursor(t.stts, times);
    }

    // Lines 314 to 317.
    method TimeInRun(i: nat) returns (time: nat)
      requires TimeIs(t.stts, times) && lookup.Valid() && times.runs > 0
      requires times.sample <= i < times.sample + times.count
      modifies lookup`currentEntry, lookup`currentEntrySample
      ensures lookup.Valid()
      ensures lookup.Offset(i) < TWO32 && time == U64(TruncatedTime(t.stts, i) + Signed32(lookup.Offset(i)))
    {
      var offset := lookup.GetCompositionTimeOffset(i);
      time := U64(U64(times.duration * (i - times.sample)) + times.time);
      TimeFromCursor(t.stts, times, i);
      U64Add(TruncatedTime(t.stts, i), Signed32(offset));
      time := U64(time + Signed32(offset));
    }
  }

  lemma CountsOfCursor(stts: seq<Run>, c: TimeCursor)
    requires TimeIs(stts, c)
    ensures c.sample + c.count == Counts(stts[..c.runs]) <= Counts(stts)
  {
    if c.runs > 0 { CountsNext(stts, c.runs - 1); }
    CountsSplit(stts, c.runs);
  }

  // Loading the next run of stts keeps the cursor right.
  lemma NextRun(stts: seq<Run>, c: TimeCursor)
    requires TimeIs(stts, c) && c.runs < |stts|
    ensures TimeIs(stts, TimeCursor(c.runs + 1, c.sample + c.count, U64(c.time + U32(c.count * c.duration)),
                                    stts[c.runs].count, stts[c.runs].value))
  {
    CountsOfCursor(stts, c);
    if c.runs == 0 {
      ZeroProduct(c.duration);
    } else {
      ProductsNext(stts, c.runs - 1);
      U64Add(Products(stts[..c.runs - 1]), U32(c.count * c.duration));
    }
  }

  lemma ZeroProduct(x: nat)
    ensures U64(0 + U32(0 * x)) == 0
  {}

  lemma TimeFromCursor(stts: seq<Run>, c: TimeCursor, i: nat)
    requires TimeIs(stts, c) && c.runs > 0 && c.sample <= i < c.sample + c.count
    ensures U64(U64(c.duration * (i - c.sample)) + c.time) == U64(TruncatedTime(stts, i))
  {
    var k, j := c.runs - 1, i - c.sample;
    TruncatedTimeSplit(stts, k, i);
    TruncatedTimeInFirst(stts[k..], j);
    U64Sum(c.duration * j, Products(stts[..k]));
  }

  lemma TruncatedTimeInFirst(runs: seq<Run>, j: nat)
    requires runs != [] && j < runs[0].count
    ensures TruncatedTime(runs, j) == runs[0].value * j
  {}

  lemma U64Add(x: nat, y: int)
    ensures U64(U64(x) + y) == U64(x + y)
  {}

  lemma U64Sum(x: nat, y: nat)
    ensures U64(U64(x) + U64(y)) == U64(x + y)
  {}
}
