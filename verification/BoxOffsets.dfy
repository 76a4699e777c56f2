/** The walk of BoxParser on the offsets the machine computes: 64-bit sums that wrap around
    (libstagefright/MPEG4Extractor.cpp).  It need not end, so it runs on a number of rounds. */
module BoxOffsets {
  import opened Bits
  import opened BoxWriter
  import opened BoxParser

  /** The result of parsing, the offset it leaves and the boxes it visited; or it is still running. */
  datatype Walked = Walked(err: Status, next: int, steps: seq<Step>) | Running

  // The steps before w, and then w.
  function Then(steps: seq<Step>, w: Walked): Walked {
    if w.Running? then Running else w.(steps := steps + w.steps)
  }

  /** parseChunk at offset o.  Nothing can be read at a negative offset. */
  ghost function Machine(src: Data, hs: Handlers, path: seq<string>, o: int, rounds: nat): Walked
    decreases rounds, 1
  {
    if rounds == 0 then Running
    else if o < 0 then Walked(Io, o, [])
    else
      var h := ReadHeader(src, o);
      if h.NoHeader? then Walked(h.error, o, [])
      else Then([Step(o, Advance(o, h.size))], MachineInside(src, hs, path + [Text(h.fourcc)], o, h, rounds))
  }

  ghost function MachineInside(src: Data, hs: Handlers, path: seq<string>, o: nat, h: Header, rounds: nat): Walked
    requires path != [] && h == ReadHeader(src, o) && h.Header? && rounds > 0
    decreases rounds, 0
  {
    var end := Advance(o, h.size);
    match Opened(src, hs, path, o, h, Signed(o + h.size - h.data))
    case Decided(err) => Walked(err, if err == Ok || err == Stop then end else o, [])
    case Contents(from) => After(hs, path, o, MachineWalk(src, hs, path, from, end, rounds - 1))
    case Counted(from, count) => MachineEntries(src, hs, path, from, end, count, rounds - 1)
  }

  function After(hs: Handlers, path: seq<string>, o: nat, w: Walked): Walked
    requires path != []
  {
    if w.Running? then Running else w.(err := Closed(hs, path, o, w.err))
  }

  /** The loop over the boxes in a container. */
  ghost function MachineWalk(src: Data, hs: Handlers, path: seq<string>, from: int, to: int, rounds: nat): Walked
    decreases rounds, 2
  {
    if from >= to then Walked(if from == to then Ok else Malformed, from, [])
    else if rounds == 0 then Running
    else
      var first := Machine(src, hs, path, from, rounds - 1);
      if first.Running? || first.err != Ok then first
      else Then(first.steps, MachineWalk(src, hs, path, first.next, to, rounds - 1))
  }

  ghost function MachineEntries(src: Data, hs: Handlers, path: seq<string>, from: int, to: int, count: nat,
          rounds: nat): Walked
    decreases rounds, 2
  {
    if count == 0 then Walked(if from == to then Ok else Malformed, from, [])
    else if rounds == 0 then Running
    else
      var first := Machine(src, hs, path, from, rounds - 1);
      if first.Running? || first.err != Ok then first
      else Then(first.steps, MachineEntries(src, hs, path, first.next, to, count - 1, rounds - 1))
  }

  // ------------------------------------------------------------------ when the offsets are exact

  /** The machine does what the walk on unbounded offsets does: the same result, the same boxes with the
      same ends, and on acceptance the offset has moved by exactly the size of the box. */
  ghost predicate Exact(src: Data, hs: Handlers, path: seq<string>, o: nat, m: Walked) {
    && m.Walked? && m.err == Outcome(src, hs, path, o) && m.steps == Visited(src, hs, path, o)
    && (m.err == Ok || TiledContainer(src, hs, path, o) ==> m.next == o + SizeAt(src, o))
  }

  // Enough rounds for the box at o.
  function Rounds(src: Data, o: nat): nat { 2 * Left(src, o) + 2 }

  lemma {:induction false} FitIsExact(src: Data, hs: Handlers, path: seq<string>, o: nat, rounds: nat)
    requires Fit(Visited(src, hs, path, o)) && rounds >= Rounds(src, o)
    ensures Exact(src, hs, path, o, Machine(src, hs, path, o, rounds))
    decreases Left(src, o), 2
  {
    var h := ReadHeader(src, o);
    if h.Header? {
      var inner := path + [Text(h.fourcc)];
      FitFirst(Step(o, o + h.size), VisitedInside(src, hs, inner, o, h));
      SignedSmall(o + h.size);
      InsideIsExact(src, hs, inner, o, h, rounds);
    }
  }

  ghost predicate ExactInside(src: Data, hs: Handlers, path: seq<string>, o: nat, h: Header, m: Walked)
    requires path != [] && h == ReadHeader(src, o) && h.Header?
  {
    && m.Walked? && m.err == BodyOutcome(src, hs, path, o, h) && m.steps == VisitedInside(src, hs, path, o, h)
    && (m.err == Ok || TiledBody(src, hs, path, h, o + h.size) ==> m.next == o + h.size)
  }

  lemma {:induction false} InsideIsExact(src: Data, hs: Handlers, path: seq<string>, o: nat, h: Header, rounds: nat)
    requires path != [] && h == ReadHeader(src, o) && h.Header? && o + h.size < TWO63 && rounds >= Rounds(src, o)
    requires Fit(VisitedInside(src, hs, path, o, h))
    ensures ExactInside(src, hs, path, o, h, MachineInside(src, hs, path, o, h, rounds))
    decreases Left(src, o), 1
  {
    var end := o + h.size;
    SignedSmall(end);
    SignedSmall(end - h.data);
    if TiledBody(src, hs, path, h, end) { TiledOpens(src, hs, path, o, h); }
    var r := Opened(src, hs, path, o, h, end - h.data);
    match r
    case Decided(_) =>
    case Contents(from) =>
      WalkIsExact(src, hs, path, from, end, rounds - 1);
      ContentsAreExact(src, hs, path, o, h, rounds, from);
    case Counted(from, count) =>
      EntriesAreExact(src, hs, path, from, end, count, rounds - 1);
  }

  lemma ContentsAreExact(src: Data, hs: Handlers, path: seq<string>, o: nat, h: Header, rounds: nat, from: nat)
    requires path != [] && h == ReadHeader(src, o) && h.Header? && rounds > 0
    requires Signed(o + h.size) == o + h.size && Signed(o + h.size - h.data) == o + h.size - h.data
    requires Opened(src, hs, path, o, h, o + h.size - h.data) == Contents(from)
    requires TiledBody(src, hs, path, h, o + h.size) ==> from == h.data
    requires var m, to := MachineWalk(src, hs, path, from, o + h.size, rounds - 1), o + h.size;
             && m.Walked? && m.err == Walk(src, hs, path, from, to) && m.steps == VisitedWalk(src, hs, path, from, to)
             && (m.err == Ok ==> m.next == to)
    ensures ExactInside(src, hs, path, o, h, MachineInside(src, hs, path, o, h, rounds))
  {}

  lemma TiledOpens(src: Data, hs: Handlers, path: seq<string>, o: nat, h: Header)
    requires path != [] && h == ReadHeader(src, o) && h.Header? && TiledBody(src, hs, path, h, o + h.size)
    ensures Opened(src, hs, path, o, h, o + h.size - h.data) == Contents(h.data)
    ensures BodyOutcome(src, hs, path, o, h) == AfterBoxes(hs, path, o)
  {}

  lemma {:induction false} WalkIsExact(src: Data, hs: Handlers, path: seq<string>, from: nat, to: nat, rounds: nat)
    requires Fit(VisitedWalk(src, hs, path, from, to)) && rounds > Rounds(src, from)
    ensures var m := MachineWalk(src, hs, path, from, to, rounds);
            && m.Walked? && m.err == Walk(src, hs, path, from, to) && m.steps == VisitedWalk(src, hs, path, from, to)
            && (m.err == Ok ==> m.next == to)
    decreases Left(src, from), 3
  {
    if from < to {
      FitWalk(src, hs, path, from, to);
      FitIsExact(src, hs, path, from, rounds - 1);
      if Outcome(src, hs, path, from) == Ok {
        WalkIsExact(src, hs, path, from + SizeAt(src, from), to, rounds - 1);
      }
    }
  }

  lemma {:induction false} EntriesAreExact(src: Data, hs: Handlers, path: seq<string>, from: nat, to: nat, count: nat,
          rounds: nat)
    requires Fit(VisitedEntries(src, hs, path, from, count)) && rounds > Rounds(src, from)
    ensures var m := MachineEntries(src, hs, path, from, to, count, rounds);
            && m.Walked? && m.err == WalkEntries(src, hs, path, from, to, count)
            && m.steps == VisitedEntries(src, hs, path, from, count)
            && (m.err == Ok ==> m.next == to)
    decreases Left(src, from), 3
  {
    if count > 0 {
      FitEntries(src, hs, path, from, count);
      FitIsExact(src, hs, path, from, rounds - 1);
      if Outcome(src, hs, path, from) == Ok {
        EntriesAreExact(src, hs, path, from + SizeAt(src, from), to, count - 1, rounds - 1);
      }
    }
  }

  // Whatever the machine computes is below 2^63.
  lemma {:induction false} MachineFits(src: Data, hs: Handlers, path: seq<string>, o: int, rounds: nat)
    ensures var m := Machine(src, hs, path, o, rounds); m.Walked? ==> Fit(m.steps)
    decreases rounds, 1
  {
    if rounds > 0 && o >= 0 && ReadHeader(src, o).Header? {
      var h := ReadHeader(src, o);
      var inner := path + [Text(h.fourcc)];
      InsideFits(src, hs, inner, o, h, rounds);
      var w := MachineInside(src, hs, inner, o, h, rounds);
      if w.Walked? { FitFirst(Step(o, Advance(o, h.size)), w.steps); }
    }
  }

  lemma {:induction false} InsideFits(src: Data, hs: Handlers, path: seq<string>, o: nat, h: Header, rounds: nat)
    requires path != [] && h == ReadHeader(src, o) && h.Header? && rounds > 0
    ensures var m := MachineInside(src, hs, path, o, h, rounds); m.Walked? ==> Fit(m.steps)
    decreases rounds, 0
  {
    var end := Advance(o, h.size);
    match Opened(src, hs, path, o, h, Signed(o + h.size - h.data))
    case Decided(_) =>
    case Contents(from) => WalkFits(src, hs, path, from, end, rounds - 1);
    case Counted(from, count) => EntriesFit(src, hs, path, from, end, count, rounds - 1);
  }

  lemma {:induction false} WalkFits(src: Data, hs: Handlers, path: seq<string>, from: int, to: int, rounds: nat)
    ensures var m := MachineWalk(src, hs, path, from, to, rounds); m.Walked? ==> Fit(m.steps)
    decreases rounds, 2
  {
    if from < to && rounds > 0 {
      MachineFits(src, hs, path, from, rounds - 1);
      var first := Machine(src, hs, path, from, rounds - 1);
      if first.Walked? && first.err == Ok {
        WalkFits(src, hs, path, first.next, to, rounds - 1);
        var rest := MachineWalk(src, hs, path, first.next, to, rounds - 1);
        if rest.Walked? { FitParts(first.steps, rest.steps); }
      }
    }
  }

  lemma {:induction false} EntriesFit(src: Data, hs: Handlers, path: seq<string>, from: int, to: int, count: nat,
          rounds: nat)
    ensures var m := MachineEntries(src, hs, path, from, to, count, rounds); m.Walked? ==> Fit(m.steps)
    decreases rounds, 2
  {
    if count > 0 && rounds > 0 {
      MachineFits(src, hs, path, from, rounds - 1);
      var first := Machine(src, hs, path, from, rounds - 1);
      if first.Walked? && first.err == Ok {
        EntriesFit(src, hs, path, first.next, to, count - 1, rounds - 1);
        var rest := MachineEntries(src, hs, path, first.next, to, count - 1, rounds - 1);
        if rest.Walked? { FitParts(first.steps, rest.steps); }
      }
    }
  }

  /** The wrapped offsets are exact if and only if no visited box reaches 2^63. */
  lemma ExactIffFit(src: Data, hs: Handlers, path: seq<string>, o: nat, rounds: nat)
    requires rounds >= Rounds(src, o)
    ensures Exact(src, hs, path, o, Machine(src, hs, path, o, rounds)) <==> Fit(Visited(src, hs, path, o))
  {
    if Fit(Visited(src, hs, path, o)) {
      FitIsExact(src, hs, path, o, rounds);
    } else {
      MachineFits(src, hs, path, o, rounds);
    }
  }

  // ------------------------------------------------------------------ boxes that are accepted

  ghost predicate Within(steps: seq<Step>, to: int) {
    forall i :: 0 <= i < |steps| ==> steps[i].end <= to
  }

  lemma WithinParts(a: seq<Step>, b: seq<Step>, to: int)
    requires Within(a, to) && Within(b, to)
    ensures Within(a + b, to)
  {
    forall i | 0 <= i < |a + b| ensures (a + b)[i].end <= to {
      assert (a + b)[i] == if i < |a| then a[i] else b[i - |a|];
    }
  }

  // Boxes inside an accepted box end where it ends, or before.
  lemma {:induction false} AcceptedWithin(src: Data, hs: Handlers, path: seq<string>, o: nat)
    requires Outcome(src, hs, path, o) == Ok || TiledContainer(src, hs, path, o)
    ensures Within(Visited(src, hs, path, o), o + SizeAt(src, o))
    decreases Left(src, o), 2
  {
    var h := ReadHeader(src, o);
    var inner, to := path + [Text(h.fourcc)], o + h.size;
    match Opened(src, hs, inner, o, h, to - h.data)
    case Decided(_) =>
    case Contents(from) => WalkWithin(src, hs, inner, from, to);
    case Counted(from, count) => EntriesWithin(src, hs, inner, from, to, count);
    WithinParts([Step(o, to)], VisitedInside(src, hs, inner, o, h), to);
  }

  lemma {:induction false} WalkWithin(src: Data, hs: Handlers, path: seq<string>, from: nat, to: nat)
    requires Walk(src, hs, path, from, to) == Ok
    ensures from <= to && Within(VisitedWalk(src, hs, path, from, to), to)
    decreases Left(src, from), 3
  {
    if from < to {
      var next := from + SizeAt(src, from);
      AcceptedWithin(src, hs, path, from);
      WalkWithin(src, hs, path, next, to);
      WithinParts(Visited(src, hs, path, from), VisitedWalk(src, hs, path, next, to), to);
    }
  }

  lemma {:induction false} EntriesWithin(src: Data, hs: Handlers, path: seq<string>, from: nat, to: nat, count: nat)
    requires WalkEntries(src, hs, path, from, to, count) == Ok
    ensures from <= to && Within(VisitedEntries(src, hs, path, from, count), to)
    decreases Left(src, from), 3
  {
    if count > 0 {
      var next := from + SizeAt(src, from);
      AcceptedWithin(src, hs, path, from);
      EntriesWithin(src, hs, path, next, to, count - 1);
      WithinParts(Visited(src, hs, path, from), VisitedEntries(src, hs, path, next, count - 1), to);
    }
  }

  // Whenever the machine accepts, the offset is at the end it computed for the box.
  lemma {:induction false} AcceptedAtEnd(src: Data, hs: Handlers, path: seq<string>, o: nat, rounds: nat)
    ensures var m := Machine(src, hs, path, o, rounds);
            m.Walked? && m.err == Ok ==> ReadHeader(src, o).Header? && m.next == Advance(o, SizeAt(src, o))
  {
    var h := ReadHeader(src, o);
    if rounds > 0 && h.Header? {
      var inner, end := path + [Text(h.fourcc)], Advance(o, h.size);
      match Opened(src, hs, inner, o, h, Signed(o + h.size - h.data))
      case Decided(_) =>
      case Contents(from) => WalkedToEnd(src, hs, inner, from, end, rounds - 1);
      case Counted(from, count) => CountedToEnd(src, hs, inner, from, end, count, rounds - 1);
    }
  }

  lemma {:induction false} WalkedToEnd(src: Data, hs: Handlers, path: seq<string>, from: int, to: int, rounds: nat)
    ensures var m := MachineWalk(src, hs, path, from, to, rounds); m.Walked? && m.err == Ok ==> m.next == to
    decreases rounds
  {
    if from < to && rounds > 0 {
      var first := Machine(src, hs, path, from, rounds - 1);
      if first.Walked? && first.err == Ok {
        WalkedToEnd(src, hs, path, first.next, to, rounds - 1);
      }
    }
  }

  lemma {:induction false} CountedToEnd(src: Data, hs: Handlers, path: seq<string>, from: int, to: int, count: nat,
          rounds: nat)
    ensures var m := MachineEntries(src, hs, path, from, to, count, rounds); m.Walked? && m.err == Ok ==> m.next == to
    decreases rounds
  {
    if count > 0 && rounds > 0 {
      var first := Machine(src, hs, path, from, rounds - 1);
      if first.Walked? && first.err == Ok {
        CountedToEnd(src, hs, path, first.next, to, count - 1, rounds - 1);
      }
    }
  }

  /** Of a box whose contents tile it, only its own end matters: the machine accepts it, and leaves the
      offset behind it, if and only if that is below 2^63. */
  lemma AcceptedIffBelow(src: Data, hs: Handlers, path: seq<string>, o: nat, rounds: nat)
    requires Outcome(src, hs, path, o) == Ok && rounds >= Rounds(src, o)
    ensures var m := Machine(src, hs, path, o, rounds);
            m.Walked? && m.err == Ok && m.next == o + SizeAt(src, o) <==> o + SizeAt(src, o) < TWO63
  {
    AcceptedWithin(src, hs, path, o);
    if o + SizeAt(src, o) < TWO63 {
      FitIsExact(src, hs, path, o, rounds);
    } else {
      AcceptedAtEnd(src, hs, path, o, rounds);
    }
  }

  // ------------------------------------------------------------------ walks that go wrong

  const UDTA: Data := [117, 100, 116, 97]

  // A box with a 32-bit size, or a 64-bit one.
  function Small(size: nat, fourcc: Data): Data { BigEndian(size, 4) + fourcc }
  function Large(size: nat, fourcc: Data): Data { BigEndian(1, 4) + fourcc + BigEndian(size, 8) }

  lemma SmallHeader(src: Data, o: nat, size: nat, fourcc: Data)
    requires |fourcc| == 4 && 8 <= size < 0x1_0000_0000 && Holds(src, o, Small(size, fourcc))
    ensures ReadHeader(src, o) == Header(fourcc, size, o + 8)
  {
    NumberOfBigEndian(size, 4);
    HoldsParts(src, o, BigEndian(size, 4), fourcc);
  }

  lemma LargeHeader(src: Data, o: nat, size: nat, fourcc: Data)
    requires |fourcc| == 4 && 16 <= size < TWO64 && Holds(src, o, Large(size, fourcc))
    ensures ReadHeader(src, o) == Header(fourcc, size, o + 16)
  {
    NumberOfBigEndian(1, 4);
    LargeSize(size);
    HoldsParts(src, o, BigEndian(1, 4) + fourcc, BigEndian(size, 8));
    HoldsParts(src, o, BigEndian(1, 4), fourcc);
  }

  lemma LargeSize(size: nat)
    requires size < TWO64
    ensures Number(BigEndian(size, 8)) == size
  {
    assert Pow256(4) == 0x1_0000_0000;
    assert Pow256(8) == 256 * (256 * (256 * (256 * Pow256(4))));
    NumberOfBigEndian(size, 8);
  }

  // A leaf box that is accepted, for the machine.
  lemma LeafStep(src: Data, hs: Handlers, path: seq<string>, o: nat, rounds: nat, size: nat, data: nat)
    requires rounds > 0 && ReadHeader(src, o) == Header(FREE, size, data)
    requires LayoutOf(path + [Text(FREE)]) == Leaf && hs.leaf(path + [Text(FREE)], o)
    ensures Machine(src, hs, path, o, rounds) == Walked(Ok, Advance(o, size), [Step(o, Advance(o, size))])
    ensures Outcome(src, hs, path, o) == Ok
  {
    var inner := path + [Text(FREE)];
    assert MachineInside(src, hs, inner, o, ReadHeader(src, o), rounds) == Walked(Ok, Advance(o, size), []);
    assert [Step(o, Advance(o, size))] + [] == [Step(o, Advance(o, size))];
  }

  // The path in a container, and of a box in it.
  const IN_UDTA: seq<string> := ["udta"]
  const IN_FREE: seq<string> := ["udta", "free"]

  lemma UdtaLayout()
    ensures [] + [Text(UDTA)] == IN_UDTA && IN_UDTA + [Text(FREE)] == IN_FREE
    ensures LayoutOf(IN_UDTA) == Boxes(0) && LayoutOf(IN_FREE) == Leaf
  {
    assert Text(UDTA) == "udta" && Text(FREE) == "free";
  }

  // The container itself, when its header says it is the whole file.
  lemma UdtaFile(src: Data, hs: Handlers, rounds: nat)
    requires ReadHeader(src, 0) == Header(UDTA, 40, 8) && |src| == 40 && rounds > 0
    ensures Machine(src, hs, [], 0, rounds)
         == Then([Step(0, 40)], After(hs, IN_UDTA, 0, MachineWalk(src, hs, IN_UDTA, 8, 40, rounds - 1)))
    ensures Outcome(src, hs, [], 0) == Closed(hs, IN_UDTA, 0, Walk(src, hs, IN_UDTA, 8, 40))
  {
    UdtaLayout();
    SignedSmall(40);
    SignedSmall(32);
  }

  // On unbounded offsets both files are refused, since their second box reaches too far.
  lemma ReachesTooFar(src: Data, hs: Handlers, path: seq<string>)
    requires Outcome(src, hs, path, 8) == Ok && SizeAt(src, 8) == 16
    requires Outcome(src, hs, path, 24) == Ok && SizeAt(src, 24) > 16
    ensures Walk(src, hs, path, 8, 40) == Malformed
  {
    assert Walk(src, hs, path, 24 + SizeAt(src, 24), 40) == Malformed;
    assert Walk(src, hs, path, 24, 40) == Malformed;
  }

  lemma FileParts(a: Data, b: Data, c: Data, d: Data)
    requires |a| == 8 && |b| == 8 && |c| == 8 && |d| == 16
    ensures var src := a + b + c + d;
            |src| == 40 && Holds(src, 0, a) && Holds(src, 8, b) && Holds(src, 16, c) && Holds(src, 24, d)
  {}

  /** Two boxes in a container, the second with a 64-bit size that leads back to the first. */
  function LoopingFile(): Data {
    Small(40, UDTA) + Small(16, FREE) + BigEndian(0, 8) + Large(TWO64 - 16, FREE)
  }

  lemma LoopingHeaders()
    ensures var src := LoopingFile();
            && |src| == 40 && ReadHeader(src, 0) == Header(UDTA, 40, 8)
            && ReadHeader(src, 8) == Header(FREE, 16, 16) && ReadHeader(src, 24) == Header(FREE, TWO64 - 16, 40)
  {
    var src := LoopingFile();
    FileParts(Small(40, UDTA), Small(16, FREE), BigEndian(0, 8), Large(TWO64 - 16, FREE));
    SmallHeader(src, 0, 40, UDTA);
    SmallHeader(src, 8, 16, FREE);
    LargeHeader(src, 24, TWO64 - 16, FREE);
  }

  /** The walk over the boxes of this 40-byte container revisits them without end. */
  lemma WalkCanRevisit(hs: Handlers, rounds: nat)
    requires hs.leaf(IN_FREE, 8) && hs.leaf(IN_FREE, 24)
    ensures |LoopingFile()| == 40
    ensures Machine(LoopingFile(), hs, [], 0, rounds) == Running
    ensures Outcome(LoopingFile(), hs, [], 0) == Malformed
  {
    LoopingHeaders();
    LoopingWalk(LoopingFile(), hs, rounds);
  }

  lemma LoopingWalk(src: Data, hs: Handlers, rounds: nat)
    requires |src| == 40 && ReadHeader(src, 0) == Header(UDTA, 40, 8)
    requires ReadHeader(src, 8) == Header(FREE, 16, 16) && ReadHeader(src, 24) == Header(FREE, TWO64 - 16, 40)
    requires hs.leaf(IN_FREE, 8) && hs.leaf(IN_FREE, 24)
    ensures Machine(src, hs, [], 0, rounds) == Running && Outcome(src, hs, [], 0) == Malformed
  {
    UdtaLayout();
    UdtaFile(src, hs, rounds + 1);
    LeafStep(src, hs, IN_UDTA, 8, 1, 16, 16);
    LeafStep(src, hs, IN_UDTA, 24, 1, TWO64 - 16, 40);
    ReachesTooFar(src, hs, IN_UDTA);
    if rounds > 0 {
      UdtaFile(src, hs, rounds);
      Revisits(src, hs, IN_UDTA, rounds - 1);
    }
  }

  lemma {:induction false} Revisits(src: Data, hs: Handlers, path: seq<string>, rounds: nat)
    requires ReadHeader(src, 8) == Header(FREE, 16, 16) && ReadHeader(src, 24) == Header(FREE, TWO64 - 16, 40)
    requires LayoutOf(path + [Text(FREE)]) == Leaf
    requires hs.leaf(path + [Text(FREE)], 8) && hs.leaf(path + [Text(FREE)], 24)
    ensures MachineWalk(src, hs, path, 8, 40, rounds) == Running
    ensures MachineWalk(src, hs, path, 24, 40, rounds) == Running
  {
    if rounds > 1 {
      LeafStep(src, hs, path, 8, rounds - 1, 16, 16);
      LeafStep(src, hs, path, 24, rounds - 1, TWO64 - 16, 40);
    }
    if rounds > 0 {
      Revisits(src, hs, path, rounds - 1);
    }
  }

  /** Here the second box leads into the first, where something that looks like a box reaches the end. */
  function JumpingFile(): Data {
    Small(40, UDTA) + Small(16, FREE) + Small(24, FREE) + Large(TWO64 - 8, FREE)
  }

  lemma JumpingHeaders()
    ensures var src := JumpingFile();
            && |src| == 40 && ReadHeader(src, 0) == Header(UDTA, 40, 8) && ReadHeader(src, 8) == Header(FREE, 16, 16)
            && ReadHeader(src, 16) == Header(FREE, 24, 24) && ReadHeader(src, 24) == Header(FREE, TWO64 - 8, 40)
  {
    var src := JumpingFile();
    FileParts(Small(40, UDTA), Small(16, FREE), Small(24, FREE), Large(TWO64 - 8, FREE));
    SmallHeader(src, 0, 40, UDTA);
    SmallHeader(src, 8, 16, FREE);
    SmallHeader(src, 16, 24, FREE);
    LargeHeader(src, 24, TWO64 - 8, FREE);
  }

  /** The machine accepts this container although no boxes tile it. */
  lemma UntiledIsAccepted(hs: Handlers, rounds: nat)
    requires rounds >= 5 && hs.leaf(IN_FREE, 8) && hs.leaf(IN_FREE, 24) && hs.leaf(IN_FREE, 16)
    ensures Machine(JumpingFile(), hs, [], 0, rounds)
         == Walked(Ok, 40, [Step(0, 40)] + [Step(8, 24), Step(24, 16), Step(16, 40)])
    ensures Outcome(JumpingFile(), hs, [], 0) == Malformed
  {
    JumpingHeaders();
    JumpingFileWalk(JumpingFile(), hs, rounds);
  }

  lemma JumpingFileWalk(src: Data, hs: Handlers, rounds: nat)
    requires |src| == 40 && ReadHeader(src, 0) == Header(UDTA, 40, 8) && ReadHeader(src, 8) == Header(FREE, 16, 16)
    requires ReadHeader(src, 16) == Header(FREE, 24, 24) && ReadHeader(src, 24) == Header(FREE, TWO64 - 8, 40)
    requires rounds >= 5 && hs.leaf(IN_FREE, 8) && hs.leaf(IN_FREE, 24) && hs.leaf(IN_FREE, 16)
    ensures Machine(src, hs, [], 0, rounds)
         == Walked(Ok, 40, [Step(0, 40)] + [Step(8, 24), Step(24, 16), Step(16, 40)])
    ensures Outcome(src, hs, [], 0) == Malformed
  {
    UdtaLayout();
    UdtaFile(src, hs, rounds);
    LeafStep(src, hs, IN_UDTA, 8, rounds - 2, 16, 16);
    LeafStep(src, hs, IN_UDTA, 24, rounds - 3, TWO64 - 8, 40);
    LeafStep(src, hs, IN_UDTA, 16, rounds - 4, 24, 24);
    ReachesTooFar(src, hs, IN_UDTA);
    JumpingWalk(src, hs, IN_UDTA, rounds - 1);
    assert AfterBoxes(hs, IN_UDTA, 0) == Ok;
  }

  lemma JumpingWalk(src: Data, hs: Handlers, path: seq<string>, rounds: nat)
    requires rounds >= 4
    requires Machine(src, hs, path, 8, rounds - 1) == Walked(Ok, 24, [Step(8, 24)])
    requires Machine(src, hs, path, 24, rounds - 2) == Walked(Ok, 16, [Step(24, 16)])
    requires Machine(src, hs, path, 16, rounds - 3) == Walked(Ok, 40, [Step(16, 40)])
    ensures MachineWalk(src, hs, path, 8, 40, rounds) == Walked(Ok, 40, [Step(8, 24), Step(24, 16), Step(16, 40)])
  {
    assert MachineWalk(src, hs, path, 40, 40, rounds - 3) == Walked(Ok, 40, []);
    assert MachineWalk(src, hs, path, 16, 40, rounds - 2) == Walked(Ok, 40, [Step(16, 40)] + []);
    assert MachineWalk(src, hs, path, 24, 40, rounds - 1) == Walked(Ok, 40, [Step(24, 16)] + ([Step(16, 40)] + []));
  }
}
