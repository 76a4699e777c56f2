/** MPEG4Extractor::parseChunk (libstagefright/MPEG4Extractor.cpp): the recursive walk over the boxes of
    a file, and how it keeps its offset. */
module BoxParser {
  import opened Bits
  import opened Sequences
  import opened BoxWriter

  const TWO63: int := 0x8000_0000_0000_0000
  const TWO64: int := 0x1_0000_0000_0000_0000

  /** Stop is the dummy error that ends the walk after the moov box or a sidx box. */
  datatype Status = Ok | Io | Malformed | Failed | Stop

  // ------------------------------------------------------------------ headers and offsets

  datatype Header = Header(fourcc: Data, size: nat, data: nat) | NoHeader(error: Status)

  /** The header of the box at offset o, lines 751 to 772. */
  function ReadHeader(src: Data, o: nat): (h: Header)
    ensures h.Header? ==> o + 8 <= h.data <= o + h.size && h.data <= |src| && h.size < TWO64
    ensures h.NoHeader? ==> h.error == Io || h.error == Malformed
  {
    if o + 8 > |src| then NoHeader(Io) else
      FieldBounds(src, o);
      var size := Number(src[o..o + 4]);
      if size == 1 then
        if o + 16 > |src| then NoHeader(Io) else
          var large := Number(src[o + 8..o + 16]);
          if large < 16 then NoHeader(Malformed) else Header(src[o + 4..o + 8], large, o + 16)
      else if size < 8 then NoHeader(Malformed)
      else Header(src[o + 4..o + 8], size, o + 8)
  }

  lemma FieldBounds(src: Data, o: nat)
    requires o + 8 <= |src|
    ensures Number(src[o..o + 4]) < TWO64
    ensures o + 16 <= |src| ==> Number(src[o + 8..o + 16]) < TWO64
  {
    BigEndianOfNumber(src[o..o + 4]);
    assert Pow256(4) == 0x1_0000_0000;
    if o + 16 <= |src| {
      BigEndianOfNumber(src[o + 8..o + 16]);
      assert Pow256(8) == 256 * (256 * (256 * (256 * Pow256(4))));
    }
  }

  /** A 64-bit sum or difference, read as signed. */
  function Signed(x: int): (r: int)
    ensures -TWO63 <= r < TWO63
  {
    var low := x % TWO64;
    if low < TWO63 then low else low - TWO64
  }

  lemma SignedSmall(x: int)
    requires 0 <= x < TWO63
    ensures Signed(x) == x
  {}

  /** *offset += chunk_size. */
  function Advance(o: nat, size: nat): int { Signed(o + size) }

  /** Stepping over a box goes forward exactly when the sum stays below 2^63. */
  lemma AdvanceIsForward(o: nat, size: nat)
    requires o < TWO63 && 8 <= size < TWO64
    ensures Advance(o, size) > o <==> o + size < TWO63
    ensures o + size < TWO63 ==> Advance(o, size) == o + size
  {}

  // ------------------------------------------------------------------ what each type holds

  datatype Layout =
    | Leaf                        // nothing that is walked
    | Index                       // sidx: ends the walk
    | Boxes(prefix: nat)          // boxes after so many bytes
    | Meta                        // boxes after a zero word; anything else is skipped
    | Entries                     // stsd: a zero word, a count, so many boxes

  const MOOV := "moov"
  const TRAK := "trak"
  const CONTAINERS: set<string> := {"moov", "trak", "mdia", "minf", "dinf", "stbl", "mvex", "moof", "traf", "mfra",
                                    "udta", "ilst", "sinf", "schi", "edts"}
  const AUDIO: set<string> := {"mp4a", "enca", "samr", "sawb", ".mp3"}
  const VIDEO: set<string> := {"mp4v", "encv", "s263", "H263", "h263", "avc1", "jpeg", "MJPG", "MPG2"}

  // A type as text.
  function Text(fourcc: Data): string { seq(|fourcc|, i requires 0 <= i < |fourcc| => fourcc[i] as char) }

  /** underMetaDataPath, and deep enough to be an item of the list. */
  predicate IsMetaItem(path: seq<string>) {
    && |path| == 5
    && path[0] == "moov" && path[1] == "udta" && path[2] == "meta" && path[3] == "ilst"
    && path[4] != "cprt" && path[4] != "covr"
  }

  /** The cases of parseChunk, for a box whose path, its own type included, is this. */
  function LayoutOf(path: seq<string>): Layout
    requires path != []
  {
    var kind := path[|path| - 1];
    if IsMetaItem(path) || kind in CONTAINERS then Boxes(0)
    else if kind in AUDIO then Boxes(28)
    else if kind in VIDEO then Boxes(78)
    else if kind == "meta" then Meta
    else if kind == "stsd" then Entries
    else if kind == "sidx" then Index
    else Leaf
  }

  /** What parsing does besides walking, as far as it decides whether to go on: whether a leaf box is
      accepted, whether a track verifies (or is skipped), and whether the entries of an stsd are ignored. */
  datatype Handlers = Handlers(leaf: (seq<string>, nat) -> bool, track: nat -> bool, ignoreEntries: nat -> bool,
                               isDrm: bool)

  // ------------------------------------------------------------------ the walk, as a function

  function Left(src: Data, o: nat): nat { if o < |src| then |src| - o else 0 }

  /** The result of parsing the box at o, inside `path`. */
  ghost function Outcome(src: Data, hs: Handlers, path: seq<string>, o: nat): Status
    decreases Left(src, o), 2
  {
    var h := ReadHeader(src, o);
    if h.NoHeader? then h.error else BodyOutcome(src, hs, path + [Text(h.fourcc)], o, h)
  }

  /** What parsing a box comes to before any box inside it is parsed: it is over, or boxes follow from
      here on, up to the end of the box or a number of them. */
  datatype Inside = Decided(err: Status) | Contents(from: nat) | Counted(from: nat, count: nat)

  // The start of each case of parseChunk; `room` is chunk_data_size.
  function Opened(src: Data, hs: Handlers, path: seq<string>, o: nat, h: Header, room: int): (r: Inside)
    requires path != [] && h == ReadHeader(src, o) && h.Header?
    ensures !r.Decided? ==> h.data <= r.from <= |src| && r.from - h.data <= room
  {
    match LayoutOf(path)
    case Leaf => Decided(if hs.leaf(path, o) then Ok else Failed)
    case Index => Decided(Stop)
    case Boxes(prefix) =>
      if room < prefix then Decided(Malformed)
      else if h.data + prefix > |src| then Decided(Io)
      else Contents(h.data + prefix)
    case Meta =>
      if room < 4 then Decided(Malformed)
      else if h.data + 4 > |src| then Decided(Io)
      else if Number(src[h.data..h.data + 4]) != 0 then Decided(Ok)
      else Contents(h.data + 4)
    case Entries =>
      if room < 8 then Decided(Malformed)
      else if h.data + 8 > |src| then Decided(Io)
      else if Number(src[h.data..h.data + 4]) != 0 then Decided(Malformed)
      else
        var count := Number(src[h.data + 4..h.data + 8]);
        if count > 1 && hs.ignoreEntries(o) then Decided(Ok) else Counted(h.data + 8, count)
  }

  ghost function BodyOutcome(src: Data, hs: Handlers, path: seq<string>, o: nat, h: Header): Status
    requires path != [] && h == ReadHeader(src, o) && h.Header?
    decreases Left(src, o), 1
  {
    var end := o + h.size;
    match Opened(src, hs, path, o, h, end - h.data)
    case Decided(err) => err
    case Contents(from) => Closed(hs, path, o, Walk(src, hs, path, from, end))
    case Counted(from, count) => WalkEntries(src, hs, path, from, end, count)
  }

  function Closed(hs: Handlers, path: seq<string>, o: nat, inside: Status): Status
    requires path != []
  {
    if inside != Ok then inside else AfterBoxes(hs, path, o)
  }

  // After the boxes in a container: a track is verified, the moov box ends the walk.
  function AfterBoxes(hs: Handlers, path: seq<string>, o: nat): Status
    requires path != []
  {
    var kind := path[|path| - 1];
    if IsMetaItem(path) then Ok
    else if kind == TRAK then if hs.track(o) then Ok else Failed
    else if kind == MOOV && !hs.isDrm then Stop
    else Ok
  }

  /** Boxes from `from` on until `to` is reached; they must end exactly there. */
  ghost function Walk(src: Data, hs: Handlers, path: seq<string>, from: nat, to: nat): Status
    decreases Left(src, from), 3
  {
    if from == to then Ok
    else if from > to then Malformed
    else
      var first := Outcome(src, hs, path, from);
      if first != Ok then first else Walk(src, hs, path, from + SizeAt(src, from), to)
  }

  /** So many boxes, which must end exactly at `to`. */
  ghost function WalkEntries(src: Data, hs: Handlers, path: seq<string>, from: nat, to: nat, count: nat): Status
    decreases Left(src, from), 3
  {
    if count == 0 then if from == to then Ok else Malformed
    else
      var first := Outcome(src, hs, path, from);
      if first != Ok then first else WalkEntries(src, hs, path, from + SizeAt(src, from), to, count - 1)
  }

  // The size of the box at o.
  function SizeAt(src: Data, o: nat): (n: nat)
    ensures ReadHeader(src, o).Header? ==> n >= 8 && o < |src|
  {
    if ReadHeader(src, o).Header? then ReadHeader(src, o).size else 0
  }

  // ------------------------------------------------------------------ the boxes that are visited

  /** A box whose parsing begins, and where it ends. */
  datatype Step = Step(at: int, end: int)

  /** The boxes that parsing the box at o visits, in order. */
  ghost function Visited(src: Data, hs: Handlers, path: seq<string>, o: nat): seq<Step>
    decreases Left(src, o), 2
  {
    var h := ReadHeader(src, o);
    if h.NoHeader? then [] else [Step(o, o + h.size)] + VisitedInside(src, hs, path + [Text(h.fourcc)], o, h)
  }

  ghost function VisitedInside(src: Data, hs: Handlers, path: seq<string>, o: nat, h: Header): seq<Step>
    requires path != [] && h == ReadHeader(src, o) && h.Header?
    decreases Left(src, o), 1
  {
    var end := o + h.size;
    match Opened(src, hs, path, o, h, end - h.data)
    case Decided(_) => []
    case Contents(from) => VisitedWalk(src, hs, path, from, end)
    case Counted(from, count) => VisitedEntries(src, hs, path, from, count)
  }

  ghost function VisitedWalk(src: Data, hs: Handlers, path: seq<string>, from: nat, to: nat): seq<Step>
    decreases Left(src, from), 3
  {
    if from >= to then []
    else if Outcome(src, hs, path, from) != Ok then Visited(src, hs, path, from)
    else Visited(src, hs, path, from) + VisitedWalk(src, hs, path, from + SizeAt(src, from), to)
  }

  ghost function VisitedEntries(src: Data, hs: Handlers, path: seq<string>, from: nat, count: nat): seq<Step>
    decreases Left(src, from), 3
  {
    if count == 0 then []
    else if Outcome(src, hs, path, from) != Ok then Visited(src, hs, path, from)
    else Visited(src, hs, path, from) + VisitedEntries(src, hs, path, from + SizeAt(src, from), count - 1)
  }

  /** None of these boxes reaches 2^63. */
  ghost predicate Fit(steps: seq<Step>) {
    forall i :: 0 <= i < |steps| ==> steps[i].end < TWO63
  }

  lemma FitParts(a: seq<Step>, b: seq<Step>)
    ensures Fit(a + b) <==> Fit(a) && Fit(b)
  {
    if Fit(a + b) {
      forall i | 0 <= i < |a| ensures a[i].end < TWO63 { assert (a + b)[i] == a[i]; }
      forall i | 0 <= i < |b| ensures b[i].end < TWO63 { assert (a + b)[|a| + i] == b[i]; }
    }
  }

  lemma FitFirst(first: Step, rest: seq<Step>)
    ensures Fit([first] + rest) <==> first.end < TWO63 && Fit(rest)
  {
    FitParts([first], rest);
    assert Fit([first]) <==> [first][0].end < TWO63;
  }

  // A container whose boxes are all accepted and end where it ends.
  ghost predicate TiledBody(src: Data, hs: Handlers, path: seq<string>, h: Header, end: nat)
    requires path != [] && h.Header?
  {
    LayoutOf(path) == Boxes(0) && h.data <= end && h.data <= |src| && Walk(src, hs, path, h.data, end) == Ok
  }

  ghost predicate TiledContainer(src: Data, hs: Handlers, path: seq<string>, o: nat) {
    var h := ReadHeader(src, o);
    h.Header? && TiledBody(src, hs, path + [Text(h.fourcc)], h, o + h.size)
  }

  // ------------------------------------------------------------------ exact tiling

  /** Consecutive boxes, each accepted, from the first of these offsets to the last. */
  ghost predicate Tiling(src: Data, hs: Handlers, path: seq<string>, at: seq<nat>) {
    && at != []
    && forall i :: 0 <= i < |at| - 1 ==> Outcome(src, hs, path, at[i]) == Ok && at[i + 1] == at[i] + SizeAt(src, at[i])
  }

  // The offsets at which the walk finds boxes.
  ghost function Boundaries(src: Data, hs: Handlers, path: seq<string>, from: nat, to: nat): (at: seq<nat>)
    ensures at != [] && at[0] == from
    decreases Left(src, from)
  {
    if from >= to || Outcome(src, hs, path, from) != Ok then [from]
    else [from] + Boundaries(src, hs, path, from + SizeAt(src, from), to)
  }

  lemma {:induction false} WalkTiles(src: Data, hs: Handlers, path: seq<string>, from: nat, to: nat)
    requires Walk(src, hs, path, from, to) == Ok
    ensures var at := Boundaries(src, hs, path, from, to);
            Tiling(src, hs, path, at) && at[|at| - 1] == to
    decreases Left(src, from)
  {
    if from < to {
      var next := from + SizeAt(src, from);
      WalkTiles(src, hs, path, next, to);
      var at := Boundaries(src, hs, path, next, to);
      assert Boundaries(src, hs, path, from, to) == [from] + at;
      forall i | 0 <= i < |at|
        ensures Outcome(src, hs, path, ([from] + at)[i]) == Ok
        ensures ([from] + at)[i + 1] == ([from] + at)[i] + SizeAt(src, ([from] + at)[i])
      {
        if i > 0 { assert ([from] + at)[i] == at[i - 1]; }
      }
    }
  }

  lemma {:induction false} TilingWalks(src: Data, hs: Handlers, path: seq<string>, at: seq<nat>, i: nat)
    requires Tiling(src, hs, path, at) && i < |at|
    ensures at[i] <= at[|at| - 1] && Walk(src, hs, path, at[i], at[|at| - 1]) == Ok
    decreases |at| - i
  {
    if i + 1 < |at| {
      assert at[i + 1] == at[i] + SizeAt(src, at[i]);
      TilingWalks(src, hs, path, at, i + 1);
    }
  }

  /** A container's contents are accepted exactly when accepted boxes tile them: one begins where the one
      before ends, the first at the start and the last ending at the end. */
  lemma WalkIffTiled(src: Data, hs: Handlers, path: seq<string>, from: nat, to: nat)
    ensures Walk(src, hs, path, from, to) == Ok <==>
            exists at :: Tiling(src, hs, path, at) && at[0] == from && at[|at| - 1] == to
  {
    if Walk(src, hs, path, from, to) == Ok {
      WalkTiles(src, hs, path, from, to);
    }
    forall at | Tiling(src, hs, path, at) && at[0] == from && at[|at| - 1] == to
      ensures Walk(src, hs, path, from, to) == Ok
    {
      TilingWalks(src, hs, path, at, 0);
    }
  }

  // ------------------------------------------------------------------ the extractor

  class MPEG4Extractor {
    const src: Data         // mDataSource
    const hs: Handlers
    var path: seq<string>   // mPath

    constructor (src: Data, hs: Handlers)
      ensures this.src == src && this.hs == hs && path == []
    {
      this.src, this.hs, path := src, hs, [];
    }

    /** Parses the box at `offset`.  Whenever it returns OK, and when it stops after the boxes of a moov
        box, the offset has moved by exactly the size of the box.  No box on the way may reach 2^63. */
    method ParseChunk(offset: nat) returns (err: Status, next: int)
      requires Fit(Visited(src, hs, path, offset))
      modifies this
      ensures path == old(path)
      ensures err == Outcome(src, hs, path, offset)
      ensures err == Ok || TiledContainer(src, hs, path, offset) ==>
                ReadHeader(src, offset).Header? && next == offset + SizeAt(src, offset)
      decreases Left(src, offset), 2
    {
      var h := ReadHeader(src, offset);
      if h.NoHeader? {
        return h.error, offset;
      }
      FitFirst(Step(offset, offset + h.size), VisitedInside(src, hs, path + [Text(h.fourcc)], offset, h));
      path := path + [Text(h.fourcc)];
      err, next := ParseBody(offset, h);
      path := path[..|path| - 1];
    }

    method ParseBody(offset: nat, h: Header) returns (err: Status, next: int)
      requires path != [] && h == ReadHeader(src, offset) && h.Header? && offset + h.size < TWO63
      requires Fit(VisitedInside(src, hs, path, offset, h))
      modifies this
      ensures path == old(path)
      ensures err == BodyOutcome(src, hs, path, offset, h)
      ensures err == Ok || TiledBody(src, hs, path, h, offset + h.size) ==> next == offset + h.size
      decreases Left(src, offset), 1
    {
      SignedSmall(offset + h.size);
      SignedSmall(offset + h.size - h.data);
      var end := Advance(offset, h.size);
      next := offset;
      match Opened(src, hs, path, offset, h, Signed(offset + h.size - h.data)) {
        case Decided(decided) =>
          err := decided;
          if err == Ok || err == Stop {
            next := end;
          }
        case Contents(from) =>
          err, next := ParseBoxes(from, end);
          if err == Ok {
            err := AfterBoxes(hs, path, offset);
          }
        case Counted(from, count) =>
          err, next := ParseEntries(from, end, count);
      }
    }

    method ParseBoxes(from: nat, stop: int) returns (err: Status, next: int)
      requires from <= stop && Fit(VisitedWalk(src, hs, path, from, stop))
      modifies this
      ensures path == old(path)
      ensures err == Walk(src, hs, path, from, stop) && (err == Ok ==> next == stop)
      decreases Left(src, from), 3
    {
      next := from;
      while next < stop
        invariant path == old(path) && next >= from
        invariant Walk(src, hs, path, next, stop) == Walk(src, hs, path, from, stop)
        invariant Fit(VisitedWalk(src, hs, path, next, stop))
        decreases stop - next
      {
        ghost var at: nat := next;
        FitWalk(src, hs, path, at, stop);
        err, next := ParseChunk(next);
        if err != Ok {
          return;
        }
      }
      err := if next != stop then Malformed else Ok;
    }

    method ParseEntries(from: nat, stop: int, count: nat) returns (err: Status, next: int)
      requires from <= stop && Fit(VisitedEntries(src, hs, path, from, count))
      modifies this
      ensures path == old(path)
      ensures err == WalkEntries(src, hs, path, from, stop, count) && (err == Ok ==> next == stop)
      decreases Left(src, from), 3
    {
      next := from;
      var i := 0;
      while i < count
        invariant path == old(path) && next >= from && i <= count
        invariant WalkEntries(src, hs, path, next, stop, count - i) == WalkEntries(src, hs, path, from, stop, count)
        invariant Fit(VisitedEntries(src, hs, path, next, count - i))
      {
        ghost var at: nat := next;
        FitEntries(src, hs, path, at, count - i);
        err, next := ParseChunk(next);
        if err != Ok {
          return;
        }
        i := i + 1;
      }
      err := if next != stop then Malformed else Ok;
    }
  }

  lemma FitWalk(src: Data, hs: Handlers, path: seq<string>, from: nat, to: nat)
    requires Fit(VisitedWalk(src, hs, path, from, to)) && from < to
    ensures Fit(Visited(src, hs, path, from))
    ensures Outcome(src, hs, path, from) == Ok ==> Fit(VisitedWalk(src, hs, path, from + SizeAt(src, from), to))
  {
    if Outcome(src, hs, path, from) == Ok {
      FitParts(Visited(src, hs, path, from), VisitedWalk(src, hs, path, from + SizeAt(src, from), to));
    }
  }

  lemma FitEntries(src: Data, hs: Handlers, path: seq<string>, from: nat, count: nat)
    requires Fit(VisitedEntries(src, hs, path, from, count)) && count > 0
    ensures Fit(Visited(src, hs, path, from))
    ensures Outcome(src, hs, path, from) == Ok ==>
            Fit(VisitedEntries(src, hs, path, from + SizeAt(src, from), count - 1))
  {
    if Outcome(src, hs, path, from) == Ok {
      FitParts(Visited(src, hs, path, from), VisitedEntries(src, hs, path, from + SizeAt(src, from), count - 1));
    }
  }

  // ------------------------------------------------------------------ boxes that were written

  // The contents after the first k bytes, if those are plain bytes.
  datatype Dropped = Rest(c: Content) | NotPlain

  function DropPlain(c: Content, k: nat): Dropped {
    if k == 0 then Rest(c) else
      match c
      case Raw(data, rest) => if |data| <= k then DropPlain(rest, k - |data|) else NotPlain
      case _ => NotPlain
  }

  lemma {:induction false} DropPlainBytes(c: Content, k: nat)
    requires DropPlain(c, k).Rest?
    ensures k <= |Bytes(c)| && Bytes(c)[k..] == Bytes(DropPlain(c, k).c)
    decreases c
  {
    if k > 0 {
      DropPlainBytes(c.rest, k - |c.data|);
    }
  }

  function NumBoxes(c: Content): nat {
    match c
    case Nothing => 0
    case Raw(_, rest) => NumBoxes(rest)
    case Box(_, _, rest) => 1 + NumBoxes(rest)
  }

  /** A tree of boxes that the extractor should accept when it is at offset `at`, inside `path`: there are
      only boxes where boxes are walked, every box has a 32-bit size, and the handlers accept. */
  predicate Readable(hs: Handlers, path: seq<string>, c: Content, at: nat)
    decreases c, 1
  {
    match c
    case Nothing => true
    case Raw(_, _) => false
    case Box(fourcc, body, rest) =>
      && |fourcc| == 4 && 8 + |Bytes(body)| < Pow256(4)
      && ReadableBody(hs, path + [Text(fourcc)], body, at)
      && Readable(hs, path, rest, at + 8 + |Bytes(body)|)
  }

  predicate ReadableBody(hs: Handlers, path: seq<string>, body: Content, at: nat)
    requires path != []
    decreases body, 3
  {
    match LayoutOf(path)
    case Leaf => hs.leaf(path, at)
    case Index => false
    case Boxes(prefix) => ReadableAfter(hs, path, body, at, prefix) && AfterBoxes(hs, path, at) == Ok
    case Meta => ReadableAfter(hs, path, body, at, 4) && Number(Bytes(body)[..4]) == 0
    case Entries =>
      && ReadableAfter(hs, path, body, at, 8) && Number(Bytes(body)[..4]) == 0
      && Number(Bytes(body)[4..8]) == NumBoxes(DropPlain(body, 8).c)
  }

  predicate ReadableAfter(hs: Handlers, path: seq<string>, body: Content, at: nat, prefix: nat)
    ensures ReadableAfter(hs, path, body, at, prefix) ==> DropPlain(body, prefix).Rest? && prefix <= |Bytes(body)|
    decreases body, 2
  {
    && DropPlain(body, prefix).Rest?
    && (DropPlainBytes(body, prefix); DropPlainSmaller(body, prefix);
        Readable(hs, path, DropPlain(body, prefix).c, at + 8 + prefix))
  }

  lemma {:induction false} DropPlainSmaller(c: Content, k: nat)
    requires DropPlain(c, k).Rest?
    ensures k == 0 ==> DropPlain(c, k).c == c
    ensures k > 0 ==> DropPlain(c, k).c < c
    decreases c
  {
    if k > 0 { DropPlainSmaller(c.rest, k - |c.data|); }
  }

  // These bytes are in the source from `at` on.
  predicate Holds(src: Data, at: nat, bytes: Data) {
    at + |bytes| <= |src| && src[at..at + |bytes|] == bytes
  }

  lemma HoldsParts(src: Data, at: nat, a: Data, b: Data)
    requires Holds(src, at, a + b)
    ensures Holds(src, at, a) && Holds(src, at + |a|, b)
  {
    SliceOfSlice(src, at, at + |a| + |b|, 0, |a|);
    SliceOfSlice(src, at, at + |a| + |b|, |a|, |a| + |b|);
    assert (a + b)[0..|a|] == a && (a + b)[|a|..|a| + |b|] == b;
  }

  // The header of a box that was written.
  lemma WrittenHeader(src: Data, at: nat, fourcc: Data, body: Data)
    requires |fourcc| == 4 && 8 + |body| < Pow256(4) && Holds(src, at, BoxBytes(fourcc, body))
    ensures ReadHeader(src, at) == Header(fourcc, 8 + |body|, at + 8)
    ensures Holds(src, at + 8, body)
  {
    var size := BigEndian(8 + |body|, 4);
    NumberOfBigEndian(8 + |body|, 4);
    HoldsParts(src, at, size, fourcc + body);
    HoldsParts(src, at + 4, fourcc, body);
  }

  /** Boxes that were written are walked back to the same boundaries. */
  lemma {:induction false} WrittenBoxesWalk(src: Data, hs: Handlers, path: seq<string>, c: Content, at: nat, to: nat)
    requires Holds(src, at, Bytes(c)) && Readable(hs, path, c, at) && to == at + |Bytes(c)|
    ensures Walk(src, hs, path, at, to) == Ok
    ensures WalkEntries(src, hs, path, at, to, NumBoxes(c)) == Ok
    decreases c, 1
  {
    if c.Box? {
      var next := at + 8 + |Bytes(c.body)|;
      FirstBox(src, hs, path, c, at, next);
      WrittenBox(src, hs, path, c.fourcc, c.body, at);
      WrittenBoxesWalk(src, hs, path, c.rest, next, to);
      WalkOneMore(src, hs, path, at, next, to, NumBoxes(c.rest));
    }
  }

  // What is written and readable begins with a box that is.
  lemma FirstBox(src: Data, hs: Handlers, path: seq<string>, c: Content, at: nat, next: nat)
    requires c.Box? && Holds(src, at, Bytes(c)) && Readable(hs, path, c, at) && next == at + 8 + |Bytes(c.body)|
    ensures |c.fourcc| == 4 && 8 + |Bytes(c.body)| < Pow256(4)
    ensures Holds(src, at, BoxBytes(c.fourcc, Bytes(c.body))) && ReadableBody(hs, path + [Text(c.fourcc)], c.body, at)
    ensures Holds(src, next, Bytes(c.rest)) && Readable(hs, path, c.rest, next)
            && at + |Bytes(c)| == next + |Bytes(c.rest)|
  {
    HoldsParts(src, at, BoxBytes(c.fourcc, Bytes(c.body)), Bytes(c.rest));
  }

  lemma WalkOneMore(src: Data, hs: Handlers, path: seq<string>, from: nat, next: nat, to: nat, count: nat)
    requires Outcome(src, hs, path, from) == Ok && from + SizeAt(src, from) == next && from < next <= to
    requires Walk(src, hs, path, next, to) == Ok && WalkEntries(src, hs, path, next, to, count) == Ok
    ensures Walk(src, hs, path, from, to) == Ok && WalkEntries(src, hs, path, from, to, count + 1) == Ok
  {}

  lemma {:induction false} WrittenBox(src: Data, hs: Handlers, path: seq<string>, fourcc: Data, body: Content, at: nat)
    requires |fourcc| == 4 && 8 + |Bytes(body)| < Pow256(4) && Holds(src, at, BoxBytes(fourcc, Bytes(body)))
    requires ReadableBody(hs, path + [Text(fourcc)], body, at)
    ensures Outcome(src, hs, path, at) == Ok && SizeAt(src, at) == 8 + |Bytes(body)|
    decreases body, 4
  {
    WrittenHeader(src, at, fourcc, Bytes(body));
    WrittenBody(src, hs, path + [Text(fourcc)], body, at, ReadHeader(src, at));
  }

  lemma {:induction false} WrittenBody(src: Data, hs: Handlers, path: seq<string>, body: Content, at: nat, h: Header)
    requires path != [] && h == ReadHeader(src, at) && h.Header? && h.data == at + 8 && h.size == 8 + |Bytes(body)|
    requires Holds(src, at + 8, Bytes(body)) && ReadableBody(hs, path, body, at)
    ensures BodyOutcome(src, hs, path, at, h) == Ok
    decreases body, 3
  {
    WrittenOpened(src, hs, path, body, at, h);
    var r, to := Opened(src, hs, path, at, h, h.size - 8), at + h.size;
    BodyOf(src, hs, path, at, h, to, r);
    if !r.Decided? {
      var rest := AfterPrefix(src, hs, path, body, at, r.from - at - 8);
      WrittenBoxesWalk(src, hs, path, rest, r.from, to);
    }
  }

  lemma BodyOf(src: Data, hs: Handlers, path: seq<string>, at: nat, h: Header, to: nat, r: Inside)
    requires path != [] && h == ReadHeader(src, at) && h.Header? && h.data == at + 8 && to == at + h.size
    requires r == Opened(src, hs, path, at, h, h.size - 8)
    ensures r.Decided? ==> BodyOutcome(src, hs, path, at, h) == r.err
    ensures r.Contents? ==> BodyOutcome(src, hs, path, at, h) == Closed(hs, path, at, Walk(src, hs, path, r.from, to))
    ensures r.Counted? ==> BodyOutcome(src, hs, path, at, h) == WalkEntries(src, hs, path, r.from, to, r.count)
  {
    assert to - h.data == h.size - 8;
  }

  // Where the boxes in a box that was written begin, and how many they are.
  lemma WrittenOpened(src: Data, hs: Handlers, path: seq<string>, body: Content, at: nat, h: Header)
    requires path != [] && h == ReadHeader(src, at) && h.Header? && h.data == at + 8 && h.size == 8 + |Bytes(body)|
    requires Holds(src, at + 8, Bytes(body)) && ReadableBody(hs, path, body, at)
    ensures match Opened(src, hs, path, at, h, h.size - 8)
            case Decided(err) => err == Ok
            case Contents(from) => ReadableAfter(hs, path, body, at, from - at - 8) && AfterBoxes(hs, path, at) == Ok
            case Counted(from, count) =>
              ReadableAfter(hs, path, body, at, from - at - 8) && count == NumBoxes(DropPlain(body, from - at - 8).c)
  {
    if |Bytes(body)| >= 4 { HoldsSlice(src, at + 8, Bytes(body), 0, 4); }
    if |Bytes(body)| >= 8 { HoldsSlice(src, at + 8, Bytes(body), 4, 8); }
  }

  lemma HoldsSlice(src: Data, at: nat, bytes: Data, lo: nat, hi: nat)
    requires Holds(src, at, bytes) && lo <= hi <= |bytes|
    ensures src[at + lo..at + hi] == bytes[lo..hi] && (lo == 0 ==> bytes[lo..hi] == bytes[..hi])
  {
    SliceOfSlice(src, at, at + |bytes|, lo, hi);
  }

  // The boxes that follow the plain bytes at the start.
  lemma AfterPrefix(src: Data, hs: Handlers, path: seq<string>, body: Content, at: nat, prefix: nat)
          returns (rest: Content)
    requires Holds(src, at + 8, Bytes(body)) && ReadableAfter(hs, path, body, at, prefix)
    ensures DropPlain(body, prefix) == Rest(rest) && (rest == body || rest < body)
    ensures Holds(src, at + 8 + prefix, Bytes(rest)) && Readable(hs, path, rest, at + 8 + prefix)
    ensures prefix + |Bytes(rest)| == |Bytes(body)|
  {
    DropPlainBytes(body, prefix);
    DropPlainSmaller(body, prefix);
    rest := DropPlain(body, prefix).c;
    HoldsAfter(src, at + 8, Bytes(body), prefix);
  }

  lemma HoldsAfter(src: Data, at: nat, bytes: Data, k: nat)
    requires Holds(src, at, bytes) && k <= |bytes|
    ensures Holds(src, at + k, bytes[k..])
  {
    assert bytes == bytes[..k] + bytes[k..];
    HoldsParts(src, at, bytes[..k], bytes[k..]);
  }

  /** What a box header says, for every 32-bit size and every 64-bit one. */
  lemma HeaderRead(src: Data, o: nat, fourcc: Data, size: nat)
    requires |fourcc| == 4
    ensures o + 8 > |src| ==> ReadHeader(src, o) == NoHeader(Io)
    ensures size < Pow256(4) && size != 1 && Holds(src, o, BigEndian(size, 4) + fourcc) ==>
            ReadHeader(src, o) == if size < 8 then NoHeader(Malformed) else Header(fourcc, size, o + 8)
    ensures size < Pow256(8) && Holds(src, o, (BigEndian(1, 4) + fourcc) + BigEndian(size, 8)) ==>
            ReadHeader(src, o) == if size < 16 then NoHeader(Malformed) else Header(fourcc, size, o + 16)
    ensures Holds(src, o, BigEndian(1, 4) + fourcc) && o + 16 > |src| ==> ReadHeader(src, o) == NoHeader(Io)
  {
    if size < Pow256(4) && Holds(src, o, BigEndian(size, 4) + fourcc) { FieldsRead(src, o, fourcc, size); }
    if Holds(src, o, (BigEndian(1, 4) + fourcc) + BigEndian(size, 8)) {
      HoldsParts(src, o, BigEndian(1, 4) + fourcc, BigEndian(size, 8));
      if size < Pow256(8) { NumberOfBigEndian(size, 8); }
    }
    if Holds(src, o, BigEndian(1, 4) + fourcc) { FieldsRead(src, o, fourcc, 1); }
  }

  lemma FieldsRead(src: Data, o: nat, fourcc: Data, size: nat)
    requires |fourcc| == 4 && size < Pow256(4) && Holds(src, o, BigEndian(size, 4) + fourcc)
    ensures o + 8 <= |src| && Number(src[o..o + 4]) == size && src[o + 4..o + 8] == fourcc
  {
    NumberOfBigEndian(size, 4);
    HoldsParts(src, o, BigEndian(size, 4), fourcc);
  }

  // A container that was written is tiled.
  lemma WrittenContainer(src: Data, hs: Handlers, path: seq<string>, fourcc: Data, body: Content, at: nat)
    requires |fourcc| == 4 && 8 + |Bytes(body)| < Pow256(4) && Holds(src, at, BoxBytes(fourcc, Bytes(body)))
    requires LayoutOf(path + [Text(fourcc)]) == Boxes(0) && Readable(hs, path + [Text(fourcc)], body, at + 8)
    ensures TiledContainer(src, hs, path, at) && SizeAt(src, at) == 8 + |Bytes(body)|
    ensures Outcome(src, hs, path, at) == AfterBoxes(hs, path + [Text(fourcc)], at)
  {
    WrittenHeader(src, at, fourcc, Bytes(body));
    var h, inner := ReadHeader(src, at), path + [Text(fourcc)];
    WrittenIsTiled(src, hs, inner, body, at, h);
    TiledOutcome(src, hs, path, inner, at, h);
  }

  lemma WrittenIsTiled(src: Data, hs: Handlers, path: seq<string>, body: Content, at: nat, h: Header)
    requires path != [] && h.Header? && h.data == at + 8 && h.size == 8 + |Bytes(body)|
    requires Holds(src, at + 8, Bytes(body)) && LayoutOf(path) == Boxes(0) && Readable(hs, path, body, at + 8)
    ensures TiledBody(src, hs, path, h, at + h.size)
  {
    WrittenBoxesWalk(src, hs, path, body, at + 8, at + h.size);
  }

  lemma TiledOutcome(src: Data, hs: Handlers, path: seq<string>, inner: seq<string>, o: nat, h: Header)
    requires h == ReadHeader(src, o) && h.Header? && inner == path + [Text(h.fourcc)]
    requires TiledBody(src, hs, inner, h, o + h.size)
    ensures TiledContainer(src, hs, path, o) && SizeAt(src, o) == h.size
    ensures Outcome(src, hs, path, o) == AfterBoxes(hs, inner, o)
  {}

  /** The moov box that was written, wherever it ended up in the file, is parsed to its end. */
  lemma WrittenMoovIsParsed(src: Data, hs: Handlers, body: Content, at: nat)
    requires Holds(src, at, BoxBytes(MOOV_TYPE, Bytes(body))) && 8 + |Bytes(body)| < Pow256(4)
    requires Readable(hs, [MOOV], body, at + 8)
    ensures TiledContainer(src, hs, [], at) && SizeAt(src, at) == 8 + |Bytes(body)|
    ensures Outcome(src, hs, [], at) == if hs.isDrm then Ok else Stop
  {
    var fourcc := MOOV_TYPE;
    MoovLayout(hs, [] + [Text(fourcc)], at);
    WrittenContainer(src, hs, [], fourcc, body, at);
  }

  const MOOV_TYPE: Data := [109, 111, 111, 118]

  lemma MoovLayout(hs: Handlers, path: seq<string>, at: nat)
    requires path == [] + [Text(MOOV_TYPE)]
    ensures path == [MOOV] && LayoutOf(path) == Boxes(0) && AfterBoxes(hs, path, at) == if hs.isDrm then Ok else Stop
  {
    assert Text(MOOV_TYPE) == MOOV;
    assert path == [MOOV];
  }
}
