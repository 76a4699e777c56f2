/** The packet queue with discontinuities (libstagefright/mpeg2ts/AnotherPacketSource.cpp). */
module PacketSource {
  import opened Sequences

  /** What is queued: an access unit with its time, or a discontinuity. */
  datatype Item = AccessUnit(timeUs: int) | Discontinuity(kind: nat)

  /** mMaxEnqueTimeUs and mMaxDequeTimeUs. */
  datatype Segment = Segment(maxEnqueued: int, maxDequeued: int)

  const NEW_SEGMENT := Segment(-1, -1)

  // ------------------------------------------------------------------ what was queued and dequeued

  /** The history of a segment since it was opened or cleared: the times of the units queued in it, and
      how many of them were dequeued. */
  datatype Log = Log(queued: seq<int>, dequeued: nat)

  const NEW_LOG := Log([], 0)

  /** The queue holds, segment by segment, the units that were queued and not dequeued, in order, with a
      discontinuity between one segment and the next. */
  predicate Aligned(buffers: seq<Item>, logs: seq<Log>)
    decreases |buffers|
  {
    logs != [] && logs[0].dequeued <= |logs[0].queued| &&
    if buffers == [] then |logs| == 1 && logs[0].dequeued == |logs[0].queued|
    else match buffers[0]
      case AccessUnit(timeUs) =>
        && logs[0].dequeued < |logs[0].queued| && timeUs == logs[0].queued[logs[0].dequeued]
        && Aligned(buffers[1..], OneDequeued(logs))
      case Discontinuity(_) => logs[0].dequeued == |logs[0].queued| && Aligned(buffers[1..], logs[1..])
  }

  function OneDequeued(logs: seq<Log>): seq<Log>
    requires logs != []
  {
    logs[0 := Log(logs[0].queued, logs[0].dequeued + 1)]
  }

  function OneQueued(logs: seq<Log>, timeUs: int): seq<Log>
    requires logs != []
  {
    var last := logs[|logs| - 1];
    logs[|logs| - 1 := Log(last.queued + [timeUs], last.dequeued)]
  }

  predicate Greatest(m: int, ts: seq<int>) {
    m in ts && forall i :: 0 <= i < |ts| ==> ts[i] <= m
  }

  // No time is negative; -1 stands for none.
  predicate Proper(log: Log) {
    forall i :: 0 <= i < |log.queued| ==> log.queued[i] >= 0
  }

  /** The enqueued time of a segment is the greatest time queued in it; its dequeued time is the greatest of
      the first time queued and the times dequeued; both are -1 while nothing was queued. */
  predicate Tracks(s: Segment, log: Log) {
    && log.dequeued <= |log.queued|
    && (log.queued == [] ==> s.maxEnqueued == -1 && s.maxDequeued == -1)
    && (log.queued != [] && Proper(log) ==>
          Greatest(s.maxEnqueued, log.queued) && Greatest(s.maxDequeued, [log.queued[0]] + log.queued[..log.dequeued]))
  }

  predicate AllTrack(segments: seq<Segment>, logs: seq<Log>) {
    |segments| == |logs| && forall i :: 0 <= i < |logs| ==> Tracks(segments[i], logs[i])
  }

  function Discontinuities(buffers: seq<Item>): nat {
    if buffers == [] then 0 else (if buffers[0].Discontinuity? then 1 else 0) + Discontinuities(buffers[1..])
  }

  /** One segment more than there are discontinuities queued. */
  lemma {:induction false} SegmentCount(buffers: seq<Item>, logs: seq<Log>)
    requires Aligned(buffers, logs)
    ensures |logs| == 1 + Discontinuities(buffers)
    decreases |buffers|
  {
    if buffers != [] {
      SegmentCount(buffers[1..], if buffers[0].Discontinuity? then logs[1..] else OneDequeued(logs));
    }
  }

  lemma {:induction false} AppendUnit(buffers: seq<Item>, logs: seq<Log>, timeUs: int)
    requires Aligned(buffers, logs)
    ensures Aligned(buffers + [AccessUnit(timeUs)], OneQueued(logs, timeUs))
    decreases |buffers|
  {
    var more := OneQueued(logs, timeUs);
    var all := buffers + [AccessUnit(timeUs)];
    if buffers == [] {
      assert all[1..] == [];
    } else {
      assert all[1..] == buffers[1..] + [AccessUnit(timeUs)];
      if buffers[0].Discontinuity? {
        SegmentCount(buffers, logs);
        AppendUnit(buffers[1..], logs[1..], timeUs);
        assert more[1..] == OneQueued(logs[1..], timeUs);
      } else {
        AppendUnit(buffers[1..], OneDequeued(logs), timeUs);
        QueueAndDequeue(logs, timeUs);
      }
    }
  }

  lemma QueueAndDequeue(logs: seq<Log>, timeUs: int)
    requires logs != []
    ensures OneDequeued(OneQueued(logs, timeUs)) == OneQueued(OneDequeued(logs), timeUs)
    ensures OneQueued(logs, timeUs)[0].queued ==
            if |logs| == 1 then logs[0].queued + [timeUs] else logs[0].queued
  {}

  lemma {:induction false} AppendDiscontinuity(buffers: seq<Item>, logs: seq<Log>, d: Item)
    requires Aligned(buffers, logs) && d.Discontinuity?
    ensures Aligned(buffers + [d], logs + [NEW_LOG])
    decreases |buffers|
  {
    var all, more := buffers + [d], logs + [NEW_LOG];
    if buffers == [] {
      assert all[1..] == [] && more[1..] == [NEW_LOG];
    } else {
      assert all[1..] == buffers[1..] + [d];
      if buffers[0].Discontinuity? {
        AppendDiscontinuity(buffers[1..], logs[1..], d);
        assert more[1..] == logs[1..] + [NEW_LOG];
      } else {
        AppendDiscontinuity(buffers[1..], OneDequeued(logs), d);
        assert OneDequeued(more) == OneDequeued(logs) + [NEW_LOG];
      }
    }
  }

  function OnlyDiscontinuities(buffers: seq<Item>): seq<Item> {
    if buffers == [] then [] else
      (if buffers[0].Discontinuity? then [buffers[0]] else []) + OnlyDiscontinuities(buffers[1..])
  }

  function NewLogs(n: nat): (logs: seq<Log>)
    ensures |logs| == n && forall i :: 0 <= i < n ==> logs[i] == NEW_LOG
  {
    seq(n, _ => NEW_LOG)
  }

  /** Discarding keeps every discontinuity, in its place among the others, and drops every unit. */
  lemma {:induction false} DiscardsByParts(a: seq<Item>, x: Item, b: seq<Item>)
    ensures OnlyDiscontinuities(a + [x] + b) ==
            OnlyDiscontinuities(a) + (if x.Discontinuity? then [x] else []) + OnlyDiscontinuities(b)
  {
    var one := if x.Discontinuity? then [x] else [];
    if a == [] {
      assert (a + [x] + b)[0] == x && (a + [x] + b)[1..] == b;
      assert [] + one == one;
    } else {
      var first := if a[0].Discontinuity? then [a[0]] else [];
      assert (a + [x] + b)[0] == a[0] && (a + [x] + b)[1..] == a[1..] + [x] + b;
      DiscardsByParts(a[1..], x, b);
      Associative(first, OnlyDiscontinuities(a[1..]), one);
      Associative(first, OnlyDiscontinuities(a[1..]) + one, OnlyDiscontinuities(b));
    }
  }

  lemma {:induction false} DiscardUnits(buffers: seq<Item>, logs: seq<Log>)
    requires Aligned(buffers, logs)
    ensures Aligned(OnlyDiscontinuities(buffers), NewLogs(|logs|))
    ensures Discontinuities(OnlyDiscontinuities(buffers)) == Discontinuities(buffers)
    ensures forall i :: 0 <= i < |OnlyDiscontinuities(buffers)| ==> OnlyDiscontinuities(buffers)[i].Discontinuity?
    decreases |buffers|
  {
    if buffers != [] {
      var rest := OnlyDiscontinuities(buffers[1..]);
      if buffers[0].Discontinuity? {
        DiscardUnits(buffers[1..], logs[1..]);
        assert ([buffers[0]] + rest)[1..] == rest && NewLogs(|logs|)[1..] == NewLogs(|logs| - 1);
      } else {
        DiscardUnits(buffers[1..], OneDequeued(logs));
        assert [] + rest == rest;
      }
    }
  }

  // ------------------------------------------------------------------ durations

  function Max(ts: seq<int>): (m: int)
    requires ts != []
    ensures Greatest(m, ts)
  {
    if |ts| == 1 then ts[0] else
      var m := Max(ts[..|ts| - 1]);
      if ts[|ts| - 1] > m then ts[|ts| - 1] else m
  }

  lemma GreatestIsUnique(a: int, b: int, ts: seq<int>)
    requires Greatest(a, ts) && Greatest(b, ts)
    ensures a == b
  {}

  /** How far what was queued in a segment reaches beyond its start and what was dequeued. */
  function Span(log: Log): (us: int)
    requires log.dequeued <= |log.queued|
    ensures us >= 0
    ensures log.dequeued == |log.queued| ==> us == 0
  {
    if log.queued == [] then 0 else
      var dequeued := [log.queued[0]] + log.queued[..log.dequeued];
      var d := Max(dequeued);
      assert d in log.queued by {
        var i :| 0 <= i < |dequeued| && dequeued[i] == d;
        assert d == log.queued[if i == 0 then 0 else i - 1];
      }
      assert log.dequeued == |log.queued| ==> forall i :: 0 <= i < |log.queued| ==> dequeued[i + 1] == log.queued[i];
      Max(log.queued) - d
  }

  function Total(us: seq<int>): int {
    if us == [] then 0 else Total(us[..|us| - 1]) + us[|us| - 1]
  }

  // Adding up does not depend on where it is split.
  lemma {:induction false} TotalOfParts(a: seq<int>, b: seq<int>)
    ensures Total(a + b) == Total(a) + Total(b)
  {
    if b == [] {
      assert a + b == a;
    } else {
      assert (a + b)[..|a + b| - 1] == a + b[..|b| - 1];
      TotalOfParts(a, b[..|b| - 1]);
    }
  }

  predicate Sound(logs: seq<Log>) {
    forall i :: 0 <= i < |logs| ==> logs[i].dequeued <= |logs[i].queued|
  }

  function Spans(logs: seq<Log>): (us: seq<int>)
    requires Sound(logs)
    ensures |us| == |logs| && forall i :: 0 <= i < |logs| ==> us[i] == Span(logs[i])
  {
    seq(|logs|, i requires 0 <= i < |logs| => Span(logs[i]))
  }

  /** A segment counts with the span of its history. */
  lemma SegmentSpan(s: Segment, log: Log)
    requires Tracks(s, log) && Proper(log)
    ensures s.maxEnqueued - s.maxDequeued == Span(log)
  {
    if log.queued != [] {
      GreatestIsUnique(s.maxEnqueued, Max(log.queued), log.queued);
      var dequeued := [log.queued[0]] + log.queued[..log.dequeued];
      GreatestIsUnique(s.maxDequeued, Max(dequeued), dequeued);
    }
  }

  predicate AllProper(logs: seq<Log>) {
    forall i :: 0 <= i < |logs| ==> Proper(logs[i])
  }

  lemma TracksSound(segments: seq<Segment>, logs: seq<Log>)
    requires AllTrack(segments, logs)
    ensures Sound(logs)
  {
    forall i | 0 <= i < |logs| ensures logs[i].dequeued <= |logs[i].queued| {
      assert Tracks(segments[i], logs[i]);
    }
  }

  function Widths(segments: seq<Segment>): (us: seq<int>)
    ensures |us| == |segments|
    ensures forall i :: 0 <= i < |us| ==> us[i] == segments[i].maxEnqueued - segments[i].maxDequeued
  {
    seq(|segments|, i requires 0 <= i < |segments| => segments[i].maxEnqueued - segments[i].maxDequeued)
  }

  lemma WidthsAreSpans(segments: seq<Segment>, logs: seq<Log>)
    requires AllTrack(segments, logs) && Sound(logs) && AllProper(logs)
    ensures Widths(segments) == Spans(logs)
  {
    forall i | 0 <= i < |logs| ensures Widths(segments)[i] == Spans(logs)[i] {
      SegmentSpan(segments[i], logs[i]);
    }
  }

  /** Buffered duration is never negative, and 0 when all that was queued has been dequeued. */
  lemma {:induction false} DurationNotNegative(logs: seq<Log>)
    requires Sound(logs)
    ensures Total(Spans(logs)) >= 0
    ensures (forall i :: 0 <= i < |logs| ==> logs[i].dequeued == |logs[i].queued|) ==> Total(Spans(logs)) == 0
  {
    if logs != [] {
      var most := logs[..|logs| - 1];
      DurationNotNegative(most);
      assert Spans(logs)[..|logs| - 1] == Spans(most);
    }
  }

  // The last segment after a unit was queued.
  function Enqueued(s: Segment, timeUs: int): Segment {
    Segment(if timeUs > s.maxEnqueued then timeUs else s.maxEnqueued,
            if s.maxDequeued == -1 then timeUs else s.maxDequeued)
  }

  lemma QueueingTracks(s: Segment, log: Log, timeUs: int)
    requires Tracks(s, log)
    ensures Tracks(Enqueued(s, timeUs), Log(log.queued + [timeUs], log.dequeued))
  {
    var more := Log(log.queued + [timeUs], log.dequeued);
    if Proper(more) {
      assert more.queued[|log.queued|] == timeUs;
      ProperBefore(log, timeUs);
      if log.queued != [] {
        QueueingAfter(s, log, timeUs);
      } else {
        assert [more.queued[0]] + more.queued[..0] == [timeUs];
      }
    }
  }

  lemma ProperBefore(log: Log, timeUs: int)
    requires Proper(Log(log.queued + [timeUs], log.dequeued))
    ensures Proper(log)
  {
    forall i | 0 <= i < |log.queued| ensures log.queued[i] >= 0 { assert (log.queued + [timeUs])[i] >= 0; }
  }

  lemma QueueingAfter(s: Segment, log: Log, timeUs: int)
    requires Tracks(s, log) && Proper(log) && log.queued != []
    ensures Tracks(Enqueued(s, timeUs), Log(log.queued + [timeUs], log.dequeued))
  {
    var more := log.queued + [timeUs];
    assert more[|log.queued|] == timeUs;
    assert more[..log.dequeued] == log.queued[..log.dequeued];
    DequeuedIsTime(s, log);
    if timeUs <= s.maxEnqueued {
      var i :| 0 <= i < |log.queued| && log.queued[i] == s.maxEnqueued;
      assert more[i] == s.maxEnqueued;
    }
  }

  lemma DequeuedIsTime(s: Segment, log: Log)
    requires Tracks(s, log) && Proper(log) && log.queued != []
    ensures s.maxDequeued >= 0
  {
    var dequeued := [log.queued[0]] + log.queued[..log.dequeued];
    var i :| 0 <= i < |dequeued| && dequeued[i] == s.maxDequeued;
    assert s.maxDequeued == log.queued[if i == 0 then 0 else i - 1];
  }

  lemma DequeueingTracks(s: Segment, log: Log)
    requires Tracks(s, log) && log.dequeued < |log.queued|
    ensures var timeUs := log.queued[log.dequeued];
            Tracks(s.(maxDequeued := if timeUs > s.maxDequeued then timeUs else s.maxDequeued),
                   Log(log.queued, log.dequeued + 1))
  {
    if Proper(log) {
      var timeUs := log.queued[log.dequeued];
      var before := [log.queued[0]] + log.queued[..log.dequeued];
      var after := [log.queued[0]] + log.queued[..log.dequeued + 1];
      assert after == before + [timeUs];
      assert after[|before|] == timeUs;
      var i :| 0 <= i < |before| && before[i] == s.maxDequeued;
      assert after[i] == s.maxDequeued;
    }
  }

  /** With negative times the count can be off: after -1 and 5 were queued nothing seems to be buffered. */
  lemma NegativeTimeIsLost()
    ensures var s, log := Enqueued(Enqueued(NEW_SEGMENT, -1), 5), Log([-1, 5], 0);
            s.maxEnqueued - s.maxDequeued == 0 && Span(log) == 6
  {
    var queued := [-1, 5];
    assert queued[1] == 5;
    GreatestIsUnique(Max(queued), 5, queued);
    assert [queued[0]] + queued[..0] == [-1];
  }

  // ------------------------------------------------------------------ the queue

  /** Blocked stands for waiting until something is queued or the end is signalled. */
  datatype Result = Got(item: Item) | Ended(status: int) | Blocked

  class AnotherPacketSource {
    var buffers: seq<Item>          // mBuffers
    var segments: seq<Segment>      // mDiscontinuitySegments
    var eosResult: int              // mEOSResult, 0 for OK
    var queuedCount: int            // mQueuedDiscontinuityCount
    ghost var logs: seq<Log>        // the history of each segment

    ghost predicate Valid()
      reads this
    {
      Aligned(buffers, logs) && AllTrack(segments, logs)
    }

    constructor ()
      ensures Valid() && buffers == [] && queuedCount == 0 && eosResult == 0 && logs == [NEW_LOG]
    {
      buffers, segments, eosResult, queuedCount, logs := [], [NEW_SEGMENT], 0, 0, [NEW_LOG];
    }

    /** queueAccessUnit: units are kept unless damaged; a discontinuity may come this way too. */
    method QueueAccessUnit(item: Item, damaged: bool)
      requires Valid()
      modifies this
      ensures Valid() && buffers == old(buffers) + if damaged then [] else [item]
      ensures eosResult == if !damaged && item.Discontinuity? then 0 else old(eosResult)
      ensures queuedCount - Discontinuities(buffers) == old(queuedCount - Discontinuities(buffers))
      ensures logs == if damaged then old(logs) else if item.Discontinuity? then old(logs) + [NEW_LOG]
                      else OneQueued(old(logs), item.timeUs)
    {
      if damaged {
        assert buffers + [] == buffers;
        return;
      }
      SegmentCount(buffers, logs);
      var n := |segments| - 1;
      if item.Discontinuity? {
        AppendDiscontinuity(buffers, logs, item);
        queuedCount, eosResult := queuedCount + 1, 0;
        segments := segments + [NEW_SEGMENT];
        logs := logs + [NEW_LOG];
      } else {
        AppendUnit(buffers, logs, item.timeUs);
        QueueingTracks(segments[n], logs[n], item.timeUs);
        segments := segments[n := Enqueued(segments[n], item.timeUs)];
        logs := OneQueued(logs, item.timeUs);
      }
      buffers := buffers + [item];
      SegmentCount(buffers, logs);
    }

    // Takes the first item off; `counted` says whether the count of discontinuities is kept up.
    method Take(counted: bool) returns (r: Result)
      requires Valid()
      modifies this
      ensures Valid()
      ensures old(buffers) == [] ==> buffers == [] && r == if eosResult == 0 then Blocked else Ended(eosResult)
      ensures old(buffers) != [] ==> r == Got(old(buffers)[0]) && buffers == old(buffers)[1..]
      ensures eosResult == old(eosResult)
      ensures queuedCount == old(queuedCount) - if counted && r.Got? && r.item.Discontinuity? then 1 else 0
      ensures logs == if !r.Got? then old(logs) else if r.item.Discontinuity? then old(logs)[1..]
                      else OneDequeued(old(logs))
    {
      if buffers == [] {
        return if eosResult == 0 then Blocked else Ended(eosResult);
      }
      var item := buffers[0];
      buffers := buffers[1..];
      if item.Discontinuity? {
        if counted {
          queuedCount := queuedCount - 1;
        }
        segments := segments[1..];
        logs := logs[1..];
      } else {
        DequeueingTracks(segments[0], logs[0]);
        if item.timeUs > segments[0].maxDequeued {
          segments := segments[0 := segments[0].(maxDequeued := item.timeUs)];
        }
        logs := OneDequeued(logs);
      }
      r := Got(item);
    }

    /** dequeueAccessUnit. */
    method DequeueAccessUnit() returns (r: Result)
      requires Valid()
      modifies this
      ensures Valid()
      ensures old(buffers) == [] ==> buffers == [] && r == if eosResult == 0 then Blocked else Ended(eosResult)
      ensures old(buffers) != [] ==> r == Got(old(buffers)[0]) && buffers == old(buffers)[1..]
      ensures eosResult == old(eosResult)
      ensures queuedCount - Discontinuities(buffers) == old(queuedCount - Discontinuities(buffers))
      ensures logs == if !r.Got? then old(logs) else if r.item.Discontinuity? then old(logs)[1..]
                      else OneDequeued(old(logs))
    {
      r := Take(true);
    }

    /** read: the same, but the count of queued discontinuities is left as it was, so that it stays in
        step with the queue exactly when what is read is not a discontinuity. */
    method Read() returns (r: Result)
      requires Valid()
      modifies this
      ensures Valid() && queuedCount == old(queuedCount) && eosResult == old(eosResult)
      ensures old(buffers) == [] ==> buffers == [] && r == if eosResult == 0 then Blocked else Ended(eosResult)
      ensures old(buffers) != [] ==> r == Got(old(buffers)[0]) && buffers == old(buffers)[1..]
      ensures queuedCount - Discontinuities(buffers) == old(queuedCount - Discontinuities(buffers))
              <==> !(r.Got? && r.item.Discontinuity?)
      ensures logs == if !r.Got? then old(logs) else if r.item.Discontinuity? then old(logs)[1..]
                      else OneDequeued(old(logs))
    {
      r := Take(false);
    }

    method SignalEOS(result: int)
      requires Valid() && result != 0
      modifies `eosResult
      ensures Valid() && eosResult == result
    {
      eosResult := result;
    }

    /** queueDiscontinuity with three arguments; kind 0 queues nothing. */
    method QueueDiscontinuity(kind: nat, discard: bool)
      requires Valid()
      modifies this
      ensures Valid() && eosResult == 0
      ensures buffers == (if discard then OnlyDiscontinuities(old(buffers)) else old(buffers))
                         + if kind == 0 then [] else [Discontinuity(kind)]
      ensures queuedCount - Discontinuities(buffers) == old(queuedCount - Discontinuities(buffers))
      ensures logs == (if discard then NewLogs(|old(logs)|) else old(logs)) + if kind == 0 then [] else [NEW_LOG]
    {
      SegmentCount(buffers, logs);
      if discard {
        DiscardUnits(buffers, logs);
        buffers, segments := OnlyDiscontinuities(buffers), seq(|segments|, _ => NEW_SEGMENT);
        logs := NewLogs(|logs|);
      }
      eosResult := 0;
      if kind == 0 {
        assert buffers + [] == buffers && logs + [] == logs;
        return;
      }
      AppendDiscontinuity(buffers, logs, Discontinuity(kind));
      queuedCount := queuedCount + 1;
      segments := segments + [NEW_SEGMENT];
      logs := logs + [NEW_LOG];
      buffers := buffers + [Discontinuity(kind)];
      SegmentCount(buffers, logs);
    }

    /** queueDiscontinuity with two arguments: units are dropped and a discontinuity is queued, but it gets
        no segment. */
    method QueueDiscontinuityWithoutSegment(kind: nat)
      modifies this
      ensures buffers == WithoutSegment(old(buffers), kind) && segments == old(segments)
      ensures queuedCount == old(queuedCount) && eosResult == 0
      ensures old(Valid()) ==> forall ls: seq<Log> :: AllTrack(segments, ls) ==> !Aligned(buffers, ls)
    {
      forall ls: seq<Log> | Valid() && |ls| == |segments| ensures !Aligned(WithoutSegment(buffers, kind), ls) {
        TwoArgumentsBreak(buffers, logs, kind, ls);
      }
      buffers := OnlyDiscontinuities(buffers) + [Discontinuity(kind)];
      eosResult := 0;
    }

    method Clear()
      modifies this
      ensures Valid() && buffers == [] && queuedCount == 0 && eosResult == 0 && logs == [NEW_LOG]
    {
      buffers, segments, eosResult, queuedCount, logs := [], [NEW_SEGMENT], 0, 0, [NEW_LOG];
    }

    /** getBufferedDurationUs: for every segment, from the latest time dequeued, or the first one queued, to
        the latest one queued, added up. */
    method GetBufferedDurationUs() returns (durationUs: int)
      requires Valid()
      ensures Sound(logs)
      ensures AllProper(logs) ==> durationUs == Total(Spans(logs)) >= 0
      ensures AllProper(logs) && buffers == [] ==> durationUs == 0
    {
      durationUs := 0;
      ghost var widths := Widths(segments);
      var i := 0;
      while i < |segments|
        invariant 0 <= i <= |segments| && durationUs == Total(widths[..i])
      {
        assert widths[..i + 1][..i] == widths[..i];
        durationUs := durationUs + (segments[i].maxEnqueued - segments[i].maxDequeued);
        i := i + 1;
      }
      assert widths[..i] == widths;
      TracksSound(segments, logs);
      if AllProper(logs) { WidthsAreSpans(segments, logs); }
      DurationNotNegative(logs);
    }
  }

  // ------------------------------------------------------------------ the other queueDiscontinuity

  function WithoutSegment(buffers: seq<Item>, kind: nat): seq<Item> {
    OnlyDiscontinuities(buffers) + [Discontinuity(kind)]
  }

  lemma {:induction false} DiscontinuitiesAppend(buffers: seq<Item>, d: Item)
    ensures Discontinuities(buffers + [d]) == Discontinuities(buffers) + if d.Discontinuity? then 1 else 0
  {
    if buffers == [] {
      assert [] + [d] == [d] && [d][1..] == [];
    } else {
      assert (buffers + [d])[1..] == buffers[1..] + [d];
      DiscontinuitiesAppend(buffers[1..], d);
    }
  }

  /** The two-argument call always breaks the correspondence of segments and discontinuities: no history of
      as many segments goes with the queue it leaves. */
  lemma TwoArgumentsBreak(buffers: seq<Item>, logs: seq<Log>, kind: nat, logs': seq<Log>)
    requires Aligned(buffers, logs) && |logs'| == |logs|
    ensures !Aligned(WithoutSegment(buffers, kind), logs')
  {
    SegmentCount(buffers, logs);
    DiscardUnits(buffers, logs);
    DiscontinuitiesAppend(OnlyDiscontinuities(buffers), Discontinuity(kind));
    if Aligned(WithoutSegment(buffers, kind), logs') {
      SegmentCount(WithoutSegment(buffers, kind), logs');
    }
  }
}
