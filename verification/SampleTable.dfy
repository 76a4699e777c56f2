/** Searches over a track's samples (libstagefright/SampleTable.cpp): the sync sample near a sample, the
    sample near a time, and the cached sync test. */
module SampleTable {
  import opened SampleTables
  import opened SampleIterator

  datatype Flag = Before | After | Closest

  function AbsDifference(a: nat, b: nat): nat { if a > b then a - b else b - a }

  predicate Increasing(s: seq<nat>) {
    forall i, j :: 0 <= i < j < |s| ==> s[i] < s[j]
  }

  // ------------------------------------------------------------------ sync samples

  /** Position p of the sync table holds the greatest sync sample at or before `start`. */
  predicate IsLastAtOrBefore(sync: seq<nat>, start: nat, p: nat) {
    p < |sync| && sync[p] <= start && (p + 1 < |sync| ==> start < sync[p + 1])
  }

  /** The composition time of sample i, by the definitions of its tables. */
  ghost function TimeOf(t: Tables, lookup: CompositionDeltaLookup, i: nat): nat
    requires lookup.Offset(i) < TWO32
    reads lookup
  {
    U64(TruncatedTime(t.stts, i) + Signed32(lookup.Offset(i)))
  }

  class SampleTable {
    const t: Tables
    const iterator_: SampleIterator   // mSampleIterator
    const hasSync: bool               // mSyncSampleOffset >= 0
    const sync: seq<nat>              // mSyncSamples
    var lastSync: nat                 // mLastSyncSampleIndex

    ghost predicate Valid()
      reads this, iterator_, iterator_.lookup
    {
      iterator_.Valid() && iterator_.t == t
    }

    ghost function Time(i: nat): nat
      requires iterator_.lookup.Offset(i) < TWO32
      reads iterator_.lookup
    {
      TimeOf(t, iterator_.lookup, i)
    }

    constructor (table: Tables, it: SampleIterator, hasSync: bool, sync: seq<nat>)
      requires it.Valid() && it.t == table
      ensures Valid() && t == table && iterator_ == it && this.hasSync == hasSync && this.sync == sync
    {
      t, iterator_, this.hasSync, this.sync, lastSync := table, it, hasSync, sync, 0;
    }

    // Seeking moves cursors and leaves every sample's time as it was.
    twostate lemma TimeKept(i: nat)
      requires unchanged(iterator_.lookup`hasEntries, iterator_.lookup`deltas) && iterator_.lookup.Offset(i) < TWO32
      ensures old(iterator_.lookup.Offset(i)) < TWO32 && Time(i) == old(Time(i))
    {}

    /** seekTo, then getSampleTime. */
    method SeekTime(i: nat) returns (err: Status, time: nat)
      requires Valid()
      modifies iterator_, iterator_.lookup`currentEntry, iterator_.lookup`currentEntrySample
      ensures Valid()
      ensures err == if i >= t.numSamples then EndOfStream else if !iterator_.Usable() then Malformed else Ok
      ensures err == Ok ==> iterator_.lookup.Offset(i) < TWO32 && time == Time(i)
    {
      err := iterator_.SeekTo(i);
      time := iterator_.current.time;
    }

    // The search of findSyncSampleNear.
    method FirstNotBefore(start: nat) returns (left: nat)
      ensures left <= |sync|
      ensures Increasing(sync) ==> forall k :: 0 <= k < |sync| ==> (sync[k] < start <==> k < left)
    {
      left := 0;
      var right := |sync|;
      while left < right
        invariant left <= right <= |sync|
        invariant Increasing(sync) ==> forall k :: 0 <= k < left ==> sync[k] < start
        invariant Increasing(sync) ==> forall k :: right <= k < |sync| ==> sync[k] >= start
      {
        var center := left + (right - left) / 2;
        var x := sync[center];
        if start < x {
          right := center;
        } else if start > x {
          left := center + 1;
        } else {
          left := center;
          break;
        }
      }
    }

    // Which of two neighbours is closer in time; on a tie the first.
    method Closer(start: nat, x: nat, y: nat) returns (err: Status, second: bool)
      requires Valid()
      modifies iterator_, iterator_.lookup`currentEntry, iterator_.lookup`currentEntrySample
      ensures Valid()
      ensures err == if start >= t.numSamples then EndOfStream else if !iterator_.Usable() then Malformed
                     else if x >= t.numSamples || y >= t.numSamples then EndOfStream else Ok
      ensures err == Ok ==> TimesKnown(start, x, y)
      ensures err == Ok ==> second == SecondCloser(start, x, y)
    {
      second := false;
      var sampleTime, xTime, yTime;
      err, sampleTime := SeekTime(start);
      if err != Ok {
        return;
      }
      label SoughtStart:
      err, xTime := SeekTime(x);
      if err != Ok {
        return;
      }
      label SoughtFirst:
      err, yTime := SeekTime(y);
      if err != Ok {
        return;
      }
      TimeKept@SoughtStart(start);
      TimeKept@SoughtFirst(x);
      second := AbsDifference(xTime, sampleTime) > AbsDifference(yTime, sampleTime);
    }

    ghost predicate TimesKnown(a: nat, b: nat, c: nat)
      reads iterator_.lookup
    {
      iterator_.lookup.Offset(a) < TWO32 && iterator_.lookup.Offset(b) < TWO32 && iterator_.lookup.Offset(c) < TWO32
    }

    /** y is closer in time to `start` than x is. */
    ghost predicate SecondCloser(start: nat, x: nat, y: nat)
      requires TimesKnown(start, x, y)
      reads iterator_.lookup
    {
      AbsDifference(Time(x), Time(start)) > AbsDifference(Time(y), Time(start))
    }

    /** In an increasing table that starts at or before `start`: Before gives the greatest sync sample at
        or before it, After the least at or after it, Closest the closer of the two in composition time,
        on a tie the earlier.  After fails exactly when there is none; otherwise errors are those of
        seeking to the three samples that are compared. */
    method FindSyncSampleNear(start: nat, flag: Flag) returns (err: Status, sample: nat)
      requires Valid()
      modifies iterator_, iterator_.lookup`currentEntry, iterator_.lookup`currentEntrySample
      ensures Valid()
      ensures !hasSync ==> err == Ok && sample == start
      ensures hasSync && sync == [] ==> err == Ok && sample == 0
      ensures hasSync && sync != [] && Increasing(sync) && sync[0] <= start ==>
                exists p :: IsLastAtOrBefore(sync, start, p) && Found(p, start, flag, err, sample)
    {
      sample := 0;
      if !hasSync {
        return Ok, start;
      }
      if |sync| == 0 {
        return Ok, 0;
      }
      var left := FirstNotBefore(start);
      if left == |sync| {
        if flag == After {
          assert Increasing(sync) && sync[0] <= start ==> IsLastAtOrBefore(sync, start, |sync| - 1);
          return OutOfRange, 0;
        }
        left := left - 1;
      }
      if left >= 1 && start < sync[left] && start > sync[left - 1] {
        left := left - 1;
      }
      ghost var p := left;
      assert Increasing(sync) && sync[0] <= start ==> IsLastAtOrBefore(sync, start, p);
      if left + 1 < |sync| {
        var second;
        err, second := Closer(start, sync[left], sync[left + 1]);
        if err != Ok {
          return;
        }
        if second {
          left := left + 1;
        }
      }
      err, sample := Adjust(left, start, flag);
    }

    /** What the search returns, when sync sample p is the last at or before `start`. */
    ghost predicate Found(p: nat, start: nat, flag: Flag, err: Status, sample: nat)
      requires p < |sync|
      reads iterator_, iterator_.lookup
    {
      if flag == After && p + 1 == |sync| && sync[p] < start then err == OutOfRange
      else if p + 1 == |sync| then err == Ok && sample == sync[p]
      else if start >= t.numSamples then err == EndOfStream
      else if !iterator_.Usable() then err == Malformed
      else if sync[p + 1] >= t.numSamples then err == EndOfStream
      else
        && err == Ok
        && match flag
           case Before => sample == sync[p]
           case After => sample == if sync[p] == start then start else sync[p + 1]
           case Closest =>
             && TimesKnown(start, sync[p], sync[p + 1])
             && sample == if SecondCloser(start, sync[p], sync[p + 1]) then sync[p + 1] else sync[p]
    }

    // The switch on the flags.
    method Adjust(left: nat, start: nat, flag: Flag) returns (err: Status, sample: nat)
      requires left < |sync|
      ensures flag == Closest ==> err == Ok && sample == sync[left]
      ensures flag == Before ==>
                if sync[left] <= start then err == Ok && sample == sync[left]
                else if left == 0 then err == Aborted
                else if sync[left - 1] <= start then err == Ok && sample == sync[left - 1]
                else err == Malformed
      ensures flag == After ==>
                if sync[left] >= start then err == Ok && sample == sync[left]
                else if left + 1 == |sync| then err == OutOfRange
                else if sync[left + 1] >= start then err == Ok && sample == sync[left + 1]
                else err == Malformed
    {
      var x := sync[left];
      match flag {
        case Before =>
          if x > start {
            if left == 0 {
              return Aborted, 0;  // CHECK(left > 0)
            }
            x := sync[left - 1];
            if x > start {
              return Malformed, 0;
            }
          }
        case After =>
          if x < start {
            if left + 1 >= |sync| {
              return OutOfRange, 0;
            }
            x := sync[left + 1];
            if x < start {
              return Malformed, 0;
            }
          }
        case Closest =>
      }
      return Ok, x;
    }

    /** getMetaDataForSample: the sync test does not depend on which samples were asked for before. */
    method GetMetaDataForSample(i: nat) returns (err: Status, offset: nat, size: nat, time: nat, isSync: bool)
      requires Valid()
      modifies this, iterator_, iterator_.lookup`currentEntry, iterator_.lookup`currentEntrySample
      ensures Valid()
      ensures err == if i >= t.numSamples then EndOfStream else if !iterator_.Usable() then Malformed else Ok
      ensures err == Ok ==> iterator_.At(i) && Position(i, offset, size, time) == iterator_.current
      ensures err == Ok && Sorted(sync) ==> (isSync <==> !hasSync || i in sync)
    {
      offset, size, time, isSync := 0, 0, 0, false;
      err := iterator_.SeekTo(i);
      if err == Ok {
        offset, size, time := iterator_.current.offset, iterator_.current.size, iterator_.current.time;
        isSync := true;
        if hasSync {
          isSync, lastSync := IsSync(i);
        }
      }
    }

    method IsSync(i: nat) returns (isSync: bool, k: nat)
      ensures Sorted(sync) ==> (isSync <==> i in sync)
    {
      k := if lastSync < |sync| && sync[lastSync] <= i then lastSync else 0;
      ghost var k0 := k;
      while k < |sync| && sync[k] < i
        invariant k0 <= k <= |sync|
        invariant forall j :: k0 <= j < k ==> sync[j] < i
      {
        k := k + 1;
      }
      isSync := k < |sync| && sync[k] == i;
      if Sorted(sync) { FoundAt(sync, i, k0, k); }
    }
  }

  predicate Sorted(s: seq<nat>) {
    forall i, j :: 0 <= i < j < |s| ==> s[i] <= s[j]
  }

  // A scan from k0 that stopped at k has not missed i.
  lemma FoundAt(s: seq<nat>, i: nat, k0: nat, k: nat)
    requires Sorted(s) && k0 <= k <= |s| && (forall j :: k0 <= j < k ==> s[j] < i) && (k < |s| ==> s[k] >= i)
    requires k0 > 0 ==> k0 < |s| && s[k0] <= i
    ensures i in s <==> k < |s| && s[k] == i
  {
    if i in s {
      var j :| 0 <= j < |s| && s[j] == i;
      if j < k0 {
        assert s[j] <= s[k0];
      }
    }
  }

  // ------------------------------------------------------------------ samples by time

  datatype SampleTimeEntry = SampleTimeEntry(sample: nat, time: nat)

  predicate TimesSorted(s: seq<SampleTimeEntry>) {
    forall i, j :: 0 <= i < j < |s| ==> s[i].time <= s[j].time
  }

  /** qsort with CompareIncreasingTime. */
  method QSort(s: seq<SampleTimeEntry>) returns (r: seq<SampleTimeEntry>)
    ensures TimesSorted(r) && multiset(r) == multiset(s)
  {
    r := [];
    var i := 0;
    while i < |s|
      invariant 0 <= i <= |s|
      invariant TimesSorted(r) && multiset(r) == multiset(s[..i])
    {
      assert s[..i + 1] == s[..i] + [s[i]];
      r := Insert(r, s[i]);
      i := i + 1;
    }
    assert s[..|s|] == s;
  }

  lemma InsertedSorted(s: seq<SampleTimeEntry>, e: SampleTimeEntry, k: nat)
    requires TimesSorted(s) && k <= |s| && (k > 0 ==> s[k - 1].time <= e.time)
    requires forall j :: k <= j < |s| ==> s[j].time > e.time
    ensures TimesSorted(s[..k] + [e] + s[k..])
  {
    var r := s[..k] + [e] + s[k..];
    forall i, j | 0 <= i < j < |r| ensures r[i].time <= r[j].time {
      assert r[i] == if i < k then s[i] else if i == k then e else s[i - 1];
      assert r[j] == if j < k then s[j] else if j == k then e else s[j - 1];
      if i < k == j { assert s[i].time <= s[k - 1].time; }
      if i < k < j { assert s[i].time <= s[j - 1].time; }
    }
  }

  lemma InsertedMultiset<T>(s: seq<T>, e: T, k: nat)
    requires k <= |s|
    ensures multiset(s[..k] + [e] + s[k..]) == multiset(s + [e])
  {
    assert s == s[..k] + s[k..];
  }

  method Insert(s: seq<SampleTimeEntry>, e: SampleTimeEntry) returns (r: seq<SampleTimeEntry>)
    requires TimesSorted(s)
    ensures TimesSorted(r) && multiset(r) == multiset(s + [e])
  {
    var k := |s|;
    while k > 0 && s[k - 1].time > e.time
      invariant 0 <= k <= |s|
      invariant forall j :: k <= j < |s| ==> s[j].time > e.time
    {
      k := k - 1;
    }
    InsertedSorted(s, e, k);
    InsertedMultiset(s, e, k);
    r := s[..k] + [e] + s[k..];
  }

  /** The time buildSampleEntriesTable gives sample i. */
  ghost function EntryTime(stts: seq<Run>, lookup: CompositionDeltaLookup, i: nat): nat
    reads lookup
  {
    U64(DecodeTime(stts, i) + lookup.Offset(i))
  }

  /** It is the iterator's exactly when no completed run overflows 32 bits and the offset, read as a
      signed word, is not negative. */
  lemma EntryTimeIsTime(t: Tables, lookup: CompositionDeltaLookup, i: nat)
    requires i < Counts(t.stts) && lookup.Offset(i) < TWO32 && DecodeTime(t.stts, i) + TWO32 < TWO64
    ensures EntryTime(t.stts, lookup, i) == TimeOf(t, lookup, i)
            <==> SmallProducts(t.stts, i) && lookup.Offset(i) < 0x8000_0000
  {
    TruncatedTimeExact(t.stts, i);
    var d, u, o := DecodeTime(t.stts, i), TruncatedTime(t.stts, i), lookup.Offset(i);
    var gap := (d + o) - (u + Signed32(o));
    assert 0 <= gap < TWO64;
    SameModulo(d + o, u + Signed32(o));
  }

  lemma SameModulo(a: nat, b: int)
    requires 0 <= a - b < TWO64
    ensures U64(a) == U64(b) <==> a == b
  {}

  // Entries 0 to k of the table before sorting.
  ghost predicate Unsorted(stts: seq<Run>, lookup: CompositionDeltaLookup, entries: seq<SampleTimeEntry>)
    reads lookup
  {
    forall i :: 0 <= i < |entries| ==> entries[i] == SampleTimeEntry(i, EntryTime(stts, lookup, i))
  }

  /** The sweep over the runs of buildSampleEntriesTable: one entry for every sample that exists. */
  method SweepEntries(t: Tables, lookup: CompositionDeltaLookup) returns (entries: seq<SampleTimeEntry>)
    requires lookup.Valid() && t.numSamples <= Counts(t.stts)
    modifies lookup`currentEntry, lookup`currentEntrySample
    ensures lookup.Valid() && |entries| == t.numSamples && Unsorted(t.stts, lookup, entries)
  {
    entries := [];
    var sampleIndex, sampleTime := 0, 0;
    var i := 0;
    while i < |t.stts|
      invariant 0 <= i <= |t.stts| && lookup.Valid()
      invariant sampleIndex == Counts(t.stts[..i]) && Swept(t, lookup, entries, sampleIndex, sampleTime)
    {
      entries, sampleIndex, sampleTime := SweepRun(t, lookup, entries, i, sampleTime);
      i := i + 1;
    }
    assert t.stts[..|t.stts|] == t.stts;
  }

  ghost predicate Swept(t: Tables, lookup: CompositionDeltaLookup, entries: seq<SampleTimeEntry>,
                        sampleIndex: nat, sampleTime: nat)
    reads lookup
  {
    && |entries| == (if sampleIndex < t.numSamples then sampleIndex else t.numSamples)
    && Unsorted(t.stts, lookup, entries) && sampleTime == U64(DecodeTime(t.stts, sampleIndex))
  }

  method SweepRun(t: Tables, lookup: CompositionDeltaLookup, entries: seq<SampleTimeEntry>, i: nat, time: nat)
    returns (entries': seq<SampleTimeEntry>, sampleIndex: nat, sampleTime: nat)
    requires lookup.Valid() && i < |t.stts| && Swept(t, lookup, entries, Counts(t.stts[..i]), time)
    modifies lookup`currentEntry, lookup`currentEntrySample
    ensures lookup.Valid() && sampleIndex == Counts(t.stts[..i + 1])
    ensures Swept(t, lookup, entries', sampleIndex, sampleTime)
  {
    entries', sampleTime := entries, time;
    ghost var first := Counts(t.stts[..i]);
    sampleIndex := SampleCount(t.stts, i);
    CountsNext(t.stts, i);
    var n, delta := t.stts[i].count, t.stts[i].value;
    var j := 0;
    while j < n
      invariant 0 <= j <= n && lookup.Valid() && sampleIndex == first + j
      invariant Swept(t, lookup, entries', sampleIndex, sampleTime)
    {
      ValueInRun(t.stts, i, j);
      U64Add(DecodeTime(t.stts, sampleIndex), delta);
      if sampleIndex < t.numSamples {
        var compTimeDelta := lookup.GetCompositionTimeOffset(sampleIndex);
        U64Add(DecodeTime(t.stts, sampleIndex), compTimeDelta);
        entries' := entries' + [SampleTimeEntry(sampleIndex, U64(sampleTime + compTimeDelta))];
      }
      sampleIndex, sampleTime, j := sampleIndex + 1, U64(sampleTime + delta), j + 1;
    }
  }

  // The samples of the runs before run i.
  function SampleCount(stts: seq<Run>, i: nat): nat
    requires i <= |stts|
  {
    Counts(stts[..i])
  }

  lemma ValueInRun(stts: seq<Run>, i: nat, j: nat)
    requires i < |stts| && j < stts[i].count
    ensures RunValue(stts, Counts(stts[..i]) + j) == stts[i].value
    ensures DecodeTime(stts, Counts(stts[..i]) + j + 1) == DecodeTime(stts, Counts(stts[..i]) + j) + stts[i].value
  {
    RunValueSplit(stts, i, Counts(stts[..i]) + j);
  }

  // ------------------------------------------------------------------ findSampleAtTime

  /** The entries are those of all samples, in order of time. */
  predicate IsTable(entries: seq<SampleTimeEntry>, times: seq<nat>) {
    && TimesSorted(entries) && |entries| == |times|
    && (forall k :: 0 <= k < |entries| ==> entries[k].sample < |times| && entries[k].time == times[entries[k].sample])
    && forall i :: 0 <= i < |times| ==> Listed(entries, i)
  }

  predicate Listed(entries: seq<SampleTimeEntry>, i: nat) {
    exists k :: 0 <= k < |entries| && entries[k].sample == i
  }

  /** Sample r is what is asked for. */
  predicate Answers(times: seq<nat>, time: nat, flag: Flag, r: nat)
    requires r < |times|
  {
    match flag
    case Before =>
      // a latest sample not after the time, or an earliest sample if all are after it
      if times[r] <= time then forall i :: 0 <= i < |times| && times[i] <= time ==> times[i] <= times[r]
      else forall i :: 0 <= i < |times| ==> times[r] <= times[i]
    case After =>
      // an earliest sample not before the time
      times[r] >= time && forall i :: 0 <= i < |times| && times[i] >= time ==> times[r] <= times[i]
    case Closest =>
      forall i :: 0 <= i < |times| ==> AbsDifference(times[r], time) <= AbsDifference(times[i], time)
  }

  // The same, among the entries.
  predicate AnswersIn(entries: seq<SampleTimeEntry>, time: nat, flag: Flag, k: nat)
    requires k < |entries|
  {
    match flag
    case Before =>
      if entries[k].time <= time then
        forall j :: 0 <= j < |entries| && entries[j].time <= time ==> entries[j].time <= entries[k].time
      else forall j :: 0 <= j < |entries| ==> entries[k].time <= entries[j].time
    case After =>
      && entries[k].time >= time
      && forall j :: 0 <= j < |entries| && entries[j].time >= time ==> entries[k].time <= entries[j].time
    case Closest =>
      forall j :: 0 <= j < |entries| ==> AbsDifference(entries[k].time, time) <= AbsDifference(entries[j].time, time)
  }

  lemma AnswerInTable(entries: seq<SampleTimeEntry>, times: seq<nat>, time: nat, flag: Flag, k: nat)
    requires IsTable(entries, times) && k < |entries| && AnswersIn(entries, time, flag, k)
    ensures Answers(times, time, flag, entries[k].sample)
  {
    forall i | 0 <= i < |times|
      ensures exists j :: 0 <= j < |entries| && entries[j].time == times[i]
    {
      assert Listed(entries, i);
    }
  }

  // The search: everything before `left` is earlier, `left` and what follows are not.
  method FindTime(entries: seq<SampleTimeEntry>, time: nat) returns (left: nat)
    requires TimesSorted(entries) && |entries| <= 0x8000_0000
    ensures left <= |entries|
    ensures forall k :: 0 <= k < left ==> entries[k].time <= time
    ensures forall k :: left <= k < |entries| ==> entries[k].time >= time
    ensures left < |entries| && entries[left].time != time ==> forall k :: 0 <= k < left ==> entries[k].time < time
    ensures left == |entries| ==> forall k :: 0 <= k < left ==> entries[k].time < time
  {
    left := 0;
    var right := |entries|;
    while left < right
      invariant left <= right <= |entries|
      invariant forall k :: 0 <= k < left ==> entries[k].time < time
      invariant forall k :: right <= k < |entries| ==> entries[k].time > time
    {
      var center := U32(left + right) / 2;
      var centerTime := entries[center].time;
      if time < centerTime {
        right := center;
      } else if time > centerTime {
        left := center + 1;
      } else {
        left := center;
        break;
      }
    }
  }

  // What is in a permutation is in what it permutes.
  lemma SameElements(a: seq<SampleTimeEntry>, b: seq<SampleTimeEntry>, k: nat)
    requires multiset(a) == multiset(b) && k < |a|
    ensures |a| == |b| && exists j :: 0 <= j < |b| && b[j] == a[k]
  {
    assert |multiset(a)| == |multiset(b)|;
    assert a[k] in multiset(a);
    assert a[k] in b;
  }

  lemma SortedIsTable(unsorted: seq<SampleTimeEntry>, sorted: seq<SampleTimeEntry>, times: seq<nat>)
    requires TimesSorted(sorted) && multiset(sorted) == multiset(unsorted) && |unsorted| == |times|
    requires forall i :: 0 <= i < |unsorted| ==> unsorted[i] == SampleTimeEntry(i, times[i])
    ensures IsTable(sorted, times)
  {
    assert |multiset(sorted)| == |multiset(unsorted)|;
    forall k | 0 <= k < |sorted|
      ensures sorted[k].sample < |times| && sorted[k].time == times[sorted[k].sample]
    {
      SameElements(sorted, unsorted, k);
    }
    forall i | 0 <= i < |times| ensures Listed(sorted, i) {
      SameElements(unsorted, sorted, i);
    }
  }

  // The composition times of the first n samples, as buildSampleEntriesTable has them.
  ghost function EntryTimes(t: Tables, lookup: CompositionDeltaLookup, n: nat): (times: seq<nat>)
    reads lookup
    ensures |times| == n && forall i :: 0 <= i < n ==> times[i] == EntryTime(t.stts, lookup, i)
  {
    if n == 0 then [] else EntryTimes(t, lookup, n - 1) + [EntryTime(t.stts, lookup, n - 1)]
  }

  method BuildSampleEntriesTable(t: Tables, lookup: CompositionDeltaLookup) returns (entries: seq<SampleTimeEntry>)
    requires lookup.Valid() && t.numSamples <= Counts(t.stts)
    modifies lookup`currentEntry, lookup`currentEntrySample
    ensures lookup.Valid() && IsTable(entries, EntryTimes(t, lookup, t.numSamples))
  {
    var unsorted := SweepEntries(t, lookup);
    entries := QSort(unsorted);
    SortedIsTable(unsorted, entries, EntryTimes(t, lookup, t.numSamples));
  }

  method FindSampleAtTime(entries: seq<SampleTimeEntry>, time: nat, flag: Flag, ghost times: seq<nat>)
    returns (err: Status, sample: nat)
    requires IsTable(entries, times) && |entries| <= 0x8000_0000
    requires flag != After ==> |entries| > 0
    ensures err == (if flag == After && (forall i :: 0 <= i < |times| ==> times[i] < time) then OutOfRange else Ok)
    ensures err == Ok ==> sample < |times| && Answers(times, time, flag, sample)
  {
    var left := FindTime(entries, time);
    if left == |entries| {
      if flag == After {
        forall i | 0 <= i < |times| ensures times[i] < time {
          assert Listed(entries, i);
        }
        return OutOfRange, 0;
      }
      left := left - 1;
    }
    var closest := PickEntry(entries, time, flag, left);
    AnswerInTable(entries, times, time, flag, closest);
    return Ok, entries[closest].sample;
  }

  method SkipEarlier(entries: seq<SampleTimeEntry>, time: nat, left: nat) returns (closest: nat)
    requires left < |entries|
    ensures left <= closest < |entries| && (entries[closest].time >= time || closest + 1 == |entries|)
    ensures forall k :: left <= k < closest ==> entries[k].time < time
  {
    closest := left;
    while closest + 1 < |entries| && entries[closest].time < time
      invariant left <= closest < |entries|
      invariant forall k :: left <= k < closest ==> entries[k].time < time
    {
      closest := closest + 1;
    }
  }

  // The switch on the flags.
  method PickEntry(entries: seq<SampleTimeEntry>, time: nat, flag: Flag, left: nat) returns (closest: nat)
    requires TimesSorted(entries) && left < |entries|
    requires forall k :: 0 <= k < left ==> entries[k].time <= time
    requires forall k :: left < k < |entries| ==> entries[k].time >= time
    requires entries[left].time < time ==> left == |entries| - 1 && flag != After
    requires entries[left].time != time ==> forall k :: 0 <= k < left ==> entries[k].time < time
    ensures closest < |entries| && AnswersIn(entries, time, flag, closest)
  {
    closest := left;
    match flag {
      case Before =>
        while closest > 0 && entries[closest].time > time
          invariant closest <= left
          invariant forall k :: closest < k < |entries| ==>
                    entries[k].time > time || entries[k].time <= entries[closest].time
        {
          closest := closest - 1;
        }
      case After =>
        closest := SkipEarlier(entries, time, left);
      case Closest =>
        if closest > 0 {
          if AbsDifference(entries[closest].time, time) > AbsDifference(entries[closest - 1].time, time) {
            closest := closest - 1;
          }
        }
    }
  }
}
