/** How MPEG4Writer writes nested boxes (libstagefright/MPEG4Writer.cpp: write, beginBox, endBox and the
    end of reset): in memory while the moov box still fits the reserved space, else at the end of the
    file.  The bytes written do not depend on which. */
module BoxWriter {
  import opened Bits
  import opened Sequences

  type Data = seq<byte>

  // ------------------------------------------------------------------ boxes as a tree

  /** What is written between a beginBox and its endBox: plain bytes and boxes, in order. */
  datatype Content = Nothing | Raw(data: Data, rest: Content) | Box(fourcc: Data, body: Content, rest: Content)

  /** Four bytes for every type. */
  predicate NamesOk(c: Content) {
    match c
    case Nothing => true
    case Raw(_, rest) => NamesOk(rest)
    case Box(fourcc, body, rest) => |fourcc| == 4 && NamesOk(body) && NamesOk(rest)
  }

  /** The bytes of a box: its extent in 32 bits, its type, its contents. */
  function BoxBytes(fourcc: Data, body: Data): Data {
    BigEndian(8 + |body|, 4) + (fourcc + body)
  }

  function Bytes(c: Content): Data {
    match c
    case Nothing => []
    case Raw(data, rest) => data + Bytes(rest)
    case Box(fourcc, body, rest) => BoxBytes(fourcc, Bytes(body)) + Bytes(rest)
  }

  /** The size field of a box is its extent. */
  lemma SizeFieldIsExtent(fourcc: Data, body: Data)
    requires |fourcc| == 4 && 8 + |body| < Pow256(4)
    ensures Number(BoxBytes(fourcc, body)[..4]) == |BoxBytes(fourcc, body)|
  {
    SplitHead(BigEndian(8 + |body|, 4), fourcc + body, 4);
    assert BigEndian(8 + |body|, 4)[..4] == BigEndian(8 + |body|, 4);
    NumberOfBigEndian(8 + |body|, 4);
  }

  // ------------------------------------------------------------------ the plain writer

  /** What has been written, and where the open boxes start, innermost last. */
  datatype Stream = Stream(bytes: Data, open: seq<nat>)

  const ZERO32: Data := [0, 0, 0, 0]

  // Open boxes start in what is written.
  predicate Proper(s: Stream) {
    forall i :: 0 <= i < |s.open| ==> s.open[i] <= |s.bytes|
  }

  // There is a box to end, and it has its size field.
  predicate HasOpenBox(s: Stream) {
    s.open != [] && s.open[|s.open| - 1] + 4 <= |s.bytes|
  }

  function Patch(bytes: Data, at: nat, field: Data): (r: Data)
    requires at + |field| <= |bytes|
    ensures |r| == |bytes|
  {
    bytes[..at] + field + bytes[at + |field|..]
  }

  function Written(s: Stream, data: Data): Stream { s.(bytes := s.bytes + data) }

  function Begun(s: Stream, fourcc: Data): Stream {
    Stream(s.bytes + ZERO32 + fourcc, s.open + [|s.bytes|])
  }

  function Ended(s: Stream): Stream
    requires HasOpenBox(s)
  {
    var at := s.open[|s.open| - 1];
    Stream(Patch(s.bytes, at, BigEndian(|s.bytes| - at, 4)), s.open[..|s.open| - 1])
  }

  // Patching the field left open in front of a box.
  lemma PatchOpened(before: Data, fourcc: Data, body: Data)
    requires |fourcc| == 4
    ensures Patch(before + ZERO32 + fourcc + body, |before|, BigEndian(8 + |body|, 4)) ==
            before + BoxBytes(fourcc, body)
  {
    var field, rest := BigEndian(8 + |body|, 4), fourcc + body;
    Associative(before + ZERO32, fourcc, body);
    PatchMiddle(before, ZERO32, rest, field);
    Associative(before, field, rest);
  }

  lemma PatchMiddle(before: Data, hole: Data, rest: Data, field: Data)
    requires |hole| == |field|
    ensures Patch(before + hole + rest, |before|, field) == before + field + rest
  {
    var all := before + hole + rest;
    assert all[..|before|] == before && all[|before| + |field|..] == rest;
  }

  /** Begin, write the contents, end: a whole box. */
  lemma BoxWritten(s: Stream, fourcc: Data, inside: Stream, body: Data)
    requires Proper(s) && |fourcc| == 4
    requires inside == Written(Begun(s, fourcc), body)
    ensures HasOpenBox(inside) && Ended(inside) == Written(s, BoxBytes(fourcc, body))
  {
    PatchOpened(s.bytes, fourcc, body);
    assert inside.open[..|s.open|] == s.open;
  }

  // ------------------------------------------------------------------ the real writer

  class MPEG4Writer {
    const estimatedMoovBoxSize: nat
    var file: Data          // mFd
    var pos: nat            // its position
    var offset: nat         // mOffset
    var inMemory: bool      // mWriteMoovBoxToMemory
    var buffer: Data        // mMoovBoxBuffer, up to mMoovBoxBufferOffset
    var boxes: seq<nat>     // mBoxes

    const streamable: bool
    ghost const before: Data  // the file when the moov box is begun
    ghost var s: Stream       // what the plain writer would have

    /** The real writer holds what the plain one would: in memory exactly as long as it fits. */
    ghost predicate Valid()
      reads this
    {
      && Proper(s)
      && (inMemory <==> streamable && 8 + |s.bytes| <= estimatedMoovBoxSize)
      && offset == |file|
      && if inMemory then
           file == before && buffer == s.bytes && boxes == s.open
         else
           file == before + s.bytes && pos == offset && boxes == Shifted(s.open, |before|)
    }

    constructor (file: Data, streamable: bool, estimatedMoovBoxSize: nat)
      requires estimatedMoovBoxSize >= 8
      ensures Valid() && s == Stream([], []) && before == file
      ensures this.streamable == streamable && this.estimatedMoovBoxSize == estimatedMoovBoxSize
    {
      this.file, this.streamable, this.estimatedMoovBoxSize := file, streamable, estimatedMoovBoxSize;
      pos, offset, inMemory, buffer, boxes := |file|, |file|, streamable, [], [];
      before, s := file, Stream([], []);
      new;
      assert before + [] == before;
    }

    // ::write at the current position
    method FileWrite(data: Data)
      requires pos <= |file|
      modifies `file, `pos
      ensures file == Overwritten(old(file), old(pos), data) && pos == old(pos) + |data|
    {
      file := Overwritten(file, pos, data);
      pos := pos + |data|;
    }

    method Write(data: Data)
      requires Valid()
      modifies this
      ensures Valid() && s == Written(old(s), data)
    {
      if inMemory {
        if 8 + |buffer| + |data| > estimatedMoovBoxSize {
          Spill(data);
        } else {
          buffer := buffer + data;
          s := Written(s, data);
        }
      } else {
        AppendAtEnd(file, data);
        FileWrite(data);
        offset := offset + |data|;
        Associative(before, s.bytes, data);
        s := Written(s, data);
      }
    }

    // The reserved space is too small: what is in memory and the new data go to the end of the file.
    method Spill(data: Data)
      requires Valid() && inMemory && 8 + |buffer| + |data| > estimatedMoovBoxSize
      modifies this
      ensures Valid() && s == Written(old(s), data)
    {
      boxes := Shifted(boxes, offset);
      pos := offset;
      AppendAtEnd(file, buffer);
      FileWrite(buffer);
      AppendAtEnd(file, data);
      FileWrite(data);
      offset := offset + |data| + |buffer|;
      inMemory := false;
      Associative(before, buffer, data);
      s := Written(s, data);
    }

    method BeginBox(fourcc: Data)
      requires Valid() && |fourcc| == 4
      modifies this
      ensures Valid() && s == Begun(old(s), fourcc)
    {
      boxes := boxes + [if inMemory then |buffer| else offset];
      s := Stream(s.bytes, s.open + [|s.bytes|]);
      Write(ZERO32);  // writeInt32(0)
      Write(fourcc);
    }

    method EndBox()
      requires Valid() && HasOpenBox(s)
      modifies this
      ensures Valid() && s == Ended(old(s))
    {
      var start := boxes[|boxes| - 1];
      boxes := boxes[..|boxes| - 1];
      if inMemory {
        buffer := Patch(buffer, start, BigEndian(|buffer| - start, 4));
      } else {
        ShiftedInit(s.open, |before|);
        WriteSize(start);
      }
      s := Ended(s);
    }

    // Seeks back to the size field of a box and on to the end of the file again.
    method WriteSize(start: nat)
      requires |before| <= start && start - |before| + 4 <= |s.bytes| && file == before + s.bytes && offset == |file|
      modifies `file, `pos
      ensures file == before + Patch(s.bytes, start - |before|, BigEndian(|s.bytes| - (start - |before|), 4))
      ensures pos == offset == |file|
    {
      PatchAfter(before, s.bytes, start - |before|, BigEndian(offset - start, 4));
      pos := start;
      FileWrite(BigEndian(offset - start, 4));
      pos := offset;
    }

    /** Writes a tree of boxes: its bytes are added and no box is left open. */
    method WriteContent(c: Content)
      requires Valid() && NamesOk(c)
      modifies this
      ensures Valid() && s == Written(old(s), Bytes(c))
      decreases c
    {
      match c
      case Nothing =>
        assert s.bytes + [] == s.bytes;
      case Raw(data, rest) =>
        Associative(s.bytes, data, Bytes(rest));
        Write(data);
        WriteContent(rest);
      case Box(fourcc, body, rest) =>
        Associative(s.bytes, BoxBytes(fourcc, Bytes(body)), Bytes(rest));
        BoxWritten(s, fourcc, Written(Begun(s, fourcc), Bytes(body)), Bytes(body));
        BeginBox(fourcc);
        WriteContent(body);
        EndBox();
        WriteContent(rest);
    }

    /** The end of reset: a moov box still in memory goes into the space reserved for it, and what is
        left of that space becomes a free box. */
    method WriteMoov(moov: Content, freeBoxOffset: nat)
      requires Valid() && s == Stream([], []) && NamesOk(moov)
      requires streamable ==> freeBoxOffset + estimatedMoovBoxSize <= |file|
      modifies this
      ensures streamable && 8 + |Bytes(moov)| <= estimatedMoovBoxSize ==>
                file == Overwritten(before, freeBoxOffset,
                    Bytes(moov) + FreeHeader(estimatedMoovBoxSize - |Bytes(moov)|))
      ensures !(streamable && 8 + |Bytes(moov)| <= estimatedMoovBoxSize) ==> file == before + Bytes(moov)
    {
      WriteContent(moov);
      assert [] + Bytes(moov) == Bytes(moov);
      if inMemory {
        inMemory := false;
        pos, offset := freeBoxOffset, freeBoxOffset;
        FileWrite(buffer);
        offset := offset + |buffer|;
        pos := offset;
        var header := FreeHeader(estimatedMoovBoxSize - |buffer|);
        OverwrittenTwice(before, freeBoxOffset, buffer, header);
        FileWrite(header);
        offset := offset + 8;
      }
    }
  }

  const FREE: Data := [102, 114, 101, 101]

  function FreeHeader(size: nat): Data { BigEndian(size, 4) + FREE }

  /** A file after writing `data` at `pos`, over what was there. */
  function Overwritten(file: Data, pos: nat, data: Data): (r: Data)
    requires pos <= |file|
    ensures |r| >= |file| && |r| >= pos + |data|
  {
    file[..pos] + data + if pos + |data| <= |file| then file[pos + |data|..] else []
  }

  function Shifted(offsets: seq<nat>, distance: nat): (r: seq<nat>)
    ensures |r| == |offsets| && forall i :: 0 <= i < |r| ==> r[i] == offsets[i] + distance
  {
    seq(|offsets|, i requires 0 <= i < |offsets| => offsets[i] + distance)
  }

  lemma ShiftedInit(offsets: seq<nat>, distance: nat)
    requires offsets != []
    ensures Shifted(offsets, distance)[..|offsets| - 1] == Shifted(offsets[..|offsets| - 1], distance)
  {}

  lemma AppendAtEnd(file: Data, data: Data)
    ensures Overwritten(file, |file|, data) == file + data
  {
    assert file[..|file|] == file;
  }

  // Patching the part of the file that comes after `before`.
  lemma PatchAfter(before: Data, bytes: Data, at: nat, field: Data)
    requires at + |field| <= |bytes|
    ensures Overwritten(before + bytes, |before| + at, field) == before + Patch(bytes, at, field)
  {
    var all := before + bytes;
    assert all[..|before| + at] == before + bytes[..at];
    assert all[|before| + at + |field|..] == bytes[at + |field|..];
    assert before + Patch(bytes, at, field) == before + bytes[..at] + field + bytes[at + |field|..];
  }

  lemma OverwrittenTwice(file: Data, pos: nat, a: Data, b: Data)
    requires pos + |a| + |b| <= |file|
    ensures Overwritten(Overwritten(file, pos, a), pos + |a|, b) == Overwritten(file, pos, a + b)
  {
    var once := Overwritten(file, pos, a);
    assert once[..pos + |a|] == file[..pos] + a;
    assert once[pos + |a| + |b|..] == file[pos + |a| + |b|..];
    assert file[..pos] + (a + b) == file[..pos] + a + b;
  }

  /** The reserved space is filled exactly: the moov box, then a free box whose size field covers what
      is left, up to the mdat box; nothing outside the space changes. */
  lemma SpaceFilled(before: Data, freeBoxOffset: nat, reserved: nat, moov: Data)
    requires 8 + |moov| <= reserved < Pow256(4) && freeBoxOffset + reserved <= |before|
    ensures var file := Overwritten(before, freeBoxOffset, moov + FreeHeader(reserved - |moov|));
            var free := freeBoxOffset + |moov|;
            && |file| == |before|
            && file[..freeBoxOffset] == before[..freeBoxOffset]
            && file[freeBoxOffset..free] == moov
            && Number(file[free..free + 4]) == freeBoxOffset + reserved - free && file[free + 4..free + 8] == FREE
            && file[freeBoxOffset + reserved..] == before[freeBoxOffset + reserved..]
  {
    var size := BigEndian(reserved - |moov|, 4);
    var file := Overwritten(before, freeBoxOffset, moov + FreeHeader(reserved - |moov|));
    var free := freeBoxOffset + |moov|;
    NumberOfBigEndian(reserved - |moov|, 4);
    assert file[free..free + 4] == size;
    assert file[free + 4..free + 8] == FREE;
  }
}
