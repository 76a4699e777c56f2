/** The moov box as MPEG4Writer writes it, box by box (libstagefright/MPEG4Writer.cpp), and what
    MPEG4Extractor::parseChunk makes of it. */
module MovieBoxes {
  import opened Bits
  import opened BoxWriter
  import opened BoxParser

  // ------------------------------------------------------------------ the boxes written

  function FourCC(kind: string): (fourcc: Data)
    ensures |fourcc| == |kind|
  {
    seq(|kind|, i requires 0 <= i < |kind| => kind[i] as int % 256)
  }

  // A box with nothing but plain bytes in it.
  function Plain(kind: string, data: Data, rest: Content): Content {
    Box(FourCC(kind), Raw(data, Nothing), rest)
  }

  /** What tracks differ in; the other fields are the contents of boxes without boxes in them. */
  datatype Coding =
    | Audio(format: string, channels: nat, sampleRate: nat)
    | Video(format: string, width: nat, height: nat, pasp: Data, stss: Data)

  datatype Movie = Movie(mvhd: Data, geoData: seq<Data>, tracks: seq<TrackBoxes>)

  datatype TrackBoxes = TrackBoxes(coding: Coding, tkhd: Data, mdhd: Data, hdlr: Data, mediaHeader: Data, dref: Data,
                                   codecBox: string, codecData: Data, stts: Data, ctts: seq<Data>, stsz: Data,
                                   stsc: Data, use32BitOffset: bool, chunkOffsets: Data)

  /** The formats that are written. */
  predicate CodingOk(t: TrackBoxes) {
    if t.coding.Audio? then
      || (t.coding.format == "mp4a" && t.codecBox == "esds")
      || (t.coding.format in {"samr", "sawb"} && t.codecBox == "damr")
    else
      || (t.coding.format == "mp4v" && t.codecBox == "esds")
      || (t.coding.format == "s263" && t.codecBox == "d263")
      || (t.coding.format == "avc1" && t.codecBox == "avcC")
  }

  predicate MovieOk(m: Movie) {
    |m.geoData| <= 1 && forall i :: 0 <= i < |m.tracks| ==> CodingOk(m.tracks[i]) && |m.tracks[i].ctts| <= 1
  }

  function Zeros(n: nat): (bs: Data)
    ensures |bs| == n
  {
    seq(n, _ => 0)
  }

  /** writeAudioFourCCBox, lines 2809 to 2823. */
  function AudioFields(channels: nat, sampleRate: nat): (bs: Data)
    ensures |bs| == 28
  {
    Zeros(4) + Zeros(2) + BigEndian(1, 2) + Zeros(4) + Zeros(4) + BigEndian(channels, 2) + BigEndian(16, 2)
      + Zeros(2) + Zeros(2) + BigEndian(sampleRate * 65536, 4)
  }

  /** writeVideoFourCCBox, lines 2753 to 2777. */
  function VideoFields(width: nat, height: nat): (bs: Data)
    ensures |bs| == 78
  {
    Zeros(4) + Zeros(2) + BigEndian(1, 2) + Zeros(2) + Zeros(2) + Zeros(4) + Zeros(4) + Zeros(4)
      + BigEndian(width, 2) + BigEndian(height, 2) + BigEndian(0x480000, 4) + BigEndian(0x480000, 4) + Zeros(4)
      + BigEndian(1, 2) + Zeros(1) + seq(31, _ => 0x20) + BigEndian(0x18, 2) + BigEndian(0xffff, 2)
  }

  function Fields(t: TrackBoxes): Data {
    match t.coding
    case Audio(_, channels, sampleRate) => AudioFields(channels, sampleRate)
    case Video(_, width, height, _, _) => VideoFields(width, height)
  }

  // What is in a sample entry, behind its fields.
  function Codec(t: TrackBoxes): Content {
    Plain(t.codecBox, t.codecData, if t.coding.Audio? then Nothing else Plain("pasp", t.coding.pasp, Nothing))
  }

  function SampleEntry(t: TrackBoxes): Content {
    Box(FourCC(t.coding.format), Raw(Fields(t), Codec(t)), Nothing)
  }

  function Stsd(t: TrackBoxes, rest: Content): Content {
    Box(FourCC("stsd"), Raw(BigEndian(0, 4) + BigEndian(1, 4), SampleEntry(t)), rest)
  }

  function Optional(kind: string, data: seq<Data>, rest: Content): Content {
    if data == [] then rest else Plain(kind, data[0], rest)
  }

  // The tables behind stsd.
  function Tables(t: TrackBoxes): Content {
    Plain("stts", t.stts, Optional("ctts", t.ctts, Syncs(t)))
  }

  function Syncs(t: TrackBoxes): Content {
    if t.coding.Audio? then Sizes(t) else Plain("stss", t.coding.stss, Sizes(t))
  }

  function Sizes(t: TrackBoxes): Content {
    Plain("stsz", t.stsz, Plain("stsc", t.stsc,
      Plain(if t.use32BitOffset then "stco" else "co64", t.chunkOffsets, Nothing)))
  }

  function Stbl(t: TrackBoxes): Content { Box(FourCC("stbl"), Stsd(t, Tables(t)), Nothing) }

  function Dinf(t: TrackBoxes): Content { Box(FourCC("dinf"), Plain("dref", t.dref, Nothing), Stbl(t)) }

  function Minf(t: TrackBoxes): Content {
    Plain(if t.coding.Audio? then "smhd" else "vmhd", t.mediaHeader, Dinf(t))
  }

  function Mdia(t: TrackBoxes): Content {
    Plain("mdhd", t.mdhd, Plain("hdlr", t.hdlr, Box(FourCC("minf"), Minf(t), Nothing)))
  }

  /** writeTrackHeader. */
  function Trak(t: TrackBoxes, rest: Content): Content {
    Box(FourCC("trak"), Plain("tkhd", t.tkhd, Box(FourCC("mdia"), Mdia(t), Nothing)), rest)
  }

  function Traks(tracks: seq<TrackBoxes>): Content {
    if tracks == [] then Nothing else Trak(tracks[0], Traks(tracks[1..]))
  }

  const GEO_TYPE: Data := [0xa9, 0x78, 0x79, 0x7a]

  // Location, if it is known.
  function Udta(geoData: seq<Data>, rest: Content): Content {
    if geoData == [] then rest
    else Box(FourCC("udta"), Box(GEO_TYPE, Raw(geoData[0], Nothing), Nothing), rest)
  }

  /** writeMoovBox: what is inside the moov box. */
  function MovieBody(m: Movie): Content {
    Plain("mvhd", m.mvhd, Udta(m.geoData, Traks(m.tracks)))
  }

  // ------------------------------------------------------------------ boxes with and without boxes

  /** The handlers accept every box that has no box in it, where it is, and every track. */
  predicate Accepts(hs: Handlers, c: Content, path: seq<string>, at: nat)
    decreases c
  {
    match c
    case Nothing => true
    case Raw(data, rest) => Accepts(hs, rest, path, at + |data|)
    case Box(fourcc, body, rest) =>
      && (if NumBoxes(body) == 0 then hs.leaf(path + [Text(fourcc)], at)
          else Accepts(hs, body, path + [Text(fourcc)], at + 8) && (Text(fourcc) == TRAK ==> hs.track(at)))
      && Accepts(hs, rest, path, at + 8 + |Bytes(body)|)
  }

  // Where boxes are walked there are boxes, and nowhere else.
  predicate Shaped(path: seq<string>, c: Content)
    decreases c, 1
  {
    match c
    case Nothing => true
    case Raw(_, _) => false
    case Box(fourcc, body, rest) =>
      |fourcc| == 4 && Text(fourcc) != MOOV && ShapedBody(path + [Text(fourcc)], body) && Shaped(path, rest)
  }

  predicate ShapedBody(path: seq<string>, body: Content)
    requires path != []
    decreases body, 3
  {
    match LayoutOf(path)
    case Leaf => NumBoxes(body) == 0
    case Boxes(prefix) => ShapedAfter(path, body, prefix)
    case Entries =>
      && ShapedAfter(path, body, 8) && Number(Bytes(body)[..4]) == 0
      && Number(Bytes(body)[4..8]) == NumBoxes(DropPlain(body, 8).c)
    case _ => false
  }

  predicate ShapedAfter(path: seq<string>, body: Content, prefix: nat)
    ensures ShapedAfter(path, body, prefix) ==> DropPlain(body, prefix).Rest? && prefix <= |Bytes(body)|
    decreases body, 2
  {
    && DropPlain(body, prefix).Rest? && NumBoxes(body) > 0
    && (DropPlainBytes(body, prefix); DropPlainSmaller(body, prefix);
        Shaped(path, DropPlain(body, prefix).c))
  }

  lemma {:induction false} AcceptsAfter(hs: Handlers, c: Content, path: seq<string>, at: nat, k: nat)
    requires Accepts(hs, c, path, at) && DropPlain(c, k).Rest?
    ensures Accepts(hs, DropPlain(c, k).c, path, at + k)
  {
    if k > 0 { AcceptsAfter(hs, c.rest, path, at + |c.data|, k - |c.data|); }
  }

  // Accepted boxes where they belong are readable.
  lemma {:induction false} ShapedReadable(hs: Handlers, path: seq<string>, c: Content, at: nat)
    requires Shaped(path, c) && Accepts(hs, c, path, at) && |Bytes(c)| < Pow256(4)
    ensures Readable(hs, path, c, at)
    decreases c, 1
  {
    if c.Box? {
      BodyReadable(hs, path + [Text(c.fourcc)], c.body, at);
      ShapedReadable(hs, path, c.rest, at + 8 + |Bytes(c.body)|);
    }
  }

  lemma {:induction false} BodyReadable(hs: Handlers, path: seq<string>, body: Content, at: nat)
    requires path != [] && path[|path| - 1] != MOOV && ShapedBody(path, body) && |Bytes(body)| < Pow256(4)
    requires if NumBoxes(body) == 0 then hs.leaf(path, at)
             else Accepts(hs, body, path, at + 8) && (path[|path| - 1] == TRAK ==> hs.track(at))
    ensures ReadableBody(hs, path, body, at)
    decreases body, 3
  {
    match LayoutOf(path)
    case Boxes(prefix) => AfterReadable(hs, path, body, at, prefix);
    case Entries => AfterReadable(hs, path, body, at, 8);
    case _ =>
  }

  lemma {:induction false} AfterReadable(hs: Handlers, path: seq<string>, body: Content, at: nat, prefix: nat)
    requires ShapedAfter(path, body, prefix) && Accepts(hs, body, path, at + 8) && |Bytes(body)| < Pow256(4)
    ensures ReadableAfter(hs, path, body, at, prefix)
    decreases body, 2
  {
    DropPlainBytes(body, prefix);
    DropPlainSmaller(body, prefix);
    AcceptsAfter(hs, body, path, at + 8, prefix);
    ShapedReadable(hs, path, DropPlain(body, prefix).c, at + 8 + prefix);
  }

  // ------------------------------------------------------------------ the written boxes are where they belong

  // A type of four plain characters.
  predicate Narrow(kind: string) {
    |kind| == 4 && kind != MOOV && forall i :: 0 <= i < |kind| ==> kind[i] as int < 256
  }

  lemma TextOfFourCC(kind: string)
    requires Narrow(kind)
    ensures |FourCC(kind)| == 4 && Text(FourCC(kind)) == kind
  {}

  // Not where the items of the metadata list are.
  predicate NoItems(path: seq<string>) {
    |path| < 4 || path[1] == TRAK
  }

  predicate InTrack(path: seq<string>) {
    |path| >= 2 && path[1] == TRAK
  }

  // A type with boxes after so many bytes.
  ghost predicate Holder(kind: string, prefix: nat) {
    && Narrow(kind) && kind != TRAK
    && forall path :: NoItems(path) ==> LayoutOf(path + [kind]) == Boxes(prefix)
  }

  // A type without boxes.
  ghost predicate Childless(kind: string) {
    && Narrow(kind)
    && forall path :: NoItems(path) ==> LayoutOf(path + [kind]) == Leaf
  }

  // One more box without boxes.
  lemma PlainShaped(path: seq<string>, kind: string, data: Data, rest: Content)
    requires Childless(kind) && NoItems(path) && Shaped(path, rest)
    ensures Shaped(path, Plain(kind, data, rest)) && NumBoxes(Plain(kind, data, rest)) > 0
  {
    TextOfFourCC(kind);
    var body := Raw(data, Nothing);
    assert NumBoxes(body) == 0 && NumBoxes(Plain(kind, data, rest)) == 1 + NumBoxes(rest);
    assert ShapedBody(path + [kind], body);
  }

  // One more box of boxes.
  lemma BoxShaped(path: seq<string>, inner: seq<string>, kind: string, body: Content, rest: Content, prefix: nat)
    requires inner == path + [kind] && Narrow(kind) && LayoutOf(inner) == Boxes(prefix)
    requires Shaped(path, rest) && ShapedAfter(inner, body, prefix)
    ensures Shaped(path, Box(FourCC(kind), body, rest)) && NumBoxes(Box(FourCC(kind), body, rest)) > 0
  {
    TextOfFourCC(kind);
    var fourcc := FourCC(kind);
    assert path + [Text(fourcc)] == inner;
    assert ShapedBody(inner, body);
  }

  lemma TimeTypes()
    ensures Childless("stts") && Childless("ctts")
  {}

  lemma SizeTypes()
    ensures Childless("stss") && Childless("stsz")
  {}

  lemma ChunkType()
    ensures Childless("stsc")
  {}

  lemma OffsetTypes()
    ensures Childless("stco") && Childless("co64")
  {}

  lemma AudioCodecTypes()
    ensures Childless("esds") && Childless("damr")
  {}

  lemma VideoCodecTypes()
    ensures Childless("d263") && Childless("avcC")
  {}

  lemma AspectType()
    ensures Childless("pasp")
  {}

  lemma HeaderTypes()
    ensures Childless("mvhd") && Childless("tkhd")
  {}

  lemma MediaTypes()
    ensures Childless("mdhd") && Childless("hdlr")
  {}

  lemma MediaHeaderTypes()
    ensures Childless("smhd") && Childless("vmhd")
  {}

  lemma ReferenceType()
    ensures Childless("dref")
  {}

  lemma ContainerTypes()
    ensures Holder("mdia", 0) && Holder("minf", 0) && Holder("dinf", 0) && Holder("stbl", 0)
  {}

  lemma AudioTypes()
    ensures Holder("mp4a", 28) && Holder("samr", 28) && Holder("sawb", 28)
  {}

  lemma VideoTypes()
    ensures Holder("mp4v", 78) && Holder("s263", 78) && Holder("avc1", 78)
  {}
  lemma TablesShaped(t: TrackBoxes, path: seq<string>)
    requires |t.ctts| <= 1 && NoItems(path)
    ensures Shaped(path, Tables(t))
  {
    SizesShaped(t, path);
    TimeTypes();
    SizeTypes();
    var syncs := Syncs(t);
    if t.coding.Video? { PlainShaped(path, "stss", t.coding.stss, Sizes(t)); }
    if t.ctts != [] { PlainShaped(path, "ctts", t.ctts[0], syncs); }
    PlainShaped(path, "stts", t.stts, Optional("ctts", t.ctts, syncs));
  }

  lemma SizesShaped(t: TrackBoxes, path: seq<string>)
    requires NoItems(path)
    ensures Shaped(path, Sizes(t))
  {
    OffsetTypes();
    ChunkType();
    SizeTypes();
    var offsets := if t.use32BitOffset then "stco" else "co64";
    var last := Plain(offsets, t.chunkOffsets, Nothing);
    PlainShaped(path, offsets, t.chunkOffsets, Nothing);
    PlainShaped(path, "stsc", t.stsc, last);
    PlainShaped(path, "stsz", t.stsz, Plain("stsc", t.stsc, last));
  }

  lemma CodecShaped(t: TrackBoxes, path: seq<string>)
    requires CodingOk(t) && NoItems(path)
    ensures Shaped(path, Codec(t)) && NumBoxes(Codec(t)) > 0
  {
    AudioCodecTypes();
    VideoCodecTypes();
    AspectType();
    var rest := if t.coding.Audio? then Nothing else Plain("pasp", t.coding.pasp, Nothing);
    if t.coding.Video? { PlainShaped(path, "pasp", t.coding.pasp, Nothing); }
    PlainShaped(path, t.codecBox, t.codecData, rest);
  }

  lemma DropFields(fields: Data, rest: Content)
    requires fields != []
    ensures DropPlain(Raw(fields, rest), |fields|) == Rest(rest) && NumBoxes(Raw(fields, rest)) == NumBoxes(rest)
  {}

  // One more box of boxes behind fields.
  lemma FieldsShaped(path: seq<string>, kind: string, fields: Data, body: Content)
    requires fields != [] && NoItems(path) && Holder(kind, |fields|)
    requires Shaped(path + [kind], body) && NumBoxes(body) > 0
    ensures Shaped(path, Box(FourCC(kind), Raw(fields, body), Nothing))
  {
    DropFields(fields, body);
    BoxShaped(path, path + [kind], kind, Raw(fields, body), Nothing, |fields|);
  }

  lemma EntryShaped(t: TrackBoxes, path: seq<string>)
    requires CodingOk(t) && InTrack(path)
    ensures Shaped(path, SampleEntry(t)) && NumBoxes(SampleEntry(t)) == 1
  {
    AudioTypes();
    VideoTypes();
    var format := t.coding.format;
    CodecShaped(t, path + [format]);
    FieldsShaped(path, format, Fields(t), Codec(t));
    assert NumBoxes(SampleEntry(t)) == 1 + NumBoxes(Nothing);
  }

  lemma StsdShaped(t: TrackBoxes, path: seq<string>, rest: Content)
    requires CodingOk(t) && InTrack(path) && Shaped(path, rest)
    ensures Shaped(path, Stsd(t, rest))
  {
    StsdType(path);
    EntryShaped(t, path + ["stsd"]);
    EntriesShaped(path + ["stsd"], SampleEntry(t));
    TextOfFourCC("stsd");
  }

  lemma StsdType(path: seq<string>)
    requires InTrack(path)
    ensures Narrow("stsd") && LayoutOf(path + ["stsd"]) == Entries
  {}

  lemma EntriesShaped(path: seq<string>, entry: Content)
    requires path != [] && LayoutOf(path) == Entries && Shaped(path, entry) && NumBoxes(entry) == 1
    ensures ShapedBody(path, Raw(BigEndian(0, 4) + BigEndian(1, 4), entry))
  {
    var zero, one := BigEndian(0, 4), BigEndian(1, 4);
    NumberOfBigEndian(0, 4);
    NumberOfBigEndian(1, 4);
    DropFields(zero + one, entry);
    var body := Raw(zero + one, entry);
    assert Bytes(body)[..4] == zero && Bytes(body)[4..8] == one;
  }

  // One more container.
  lemma ContainerShaped(path: seq<string>, kind: string, body: Content, rest: Content)
    requires NoItems(path) && Holder(kind, 0) && Shaped(path + [kind], body) && NumBoxes(body) > 0 && Shaped(path, rest)
    ensures Shaped(path, Box(FourCC(kind), body, rest))
  {
    BoxShaped(path, path + [kind], kind, body, rest, 0);
  }

  lemma MinfShaped(t: TrackBoxes, path: seq<string>)
    requires CodingOk(t) && |t.ctts| <= 1 && InTrack(path)
    ensures Shaped(path, Minf(t))
  {
    ContainerTypes();
    MediaHeaderTypes();
    ReferenceType();
    TablesShaped(t, path + ["stbl"]);
    StsdShaped(t, path + ["stbl"], Tables(t));
    ContainerShaped(path, "stbl", Stsd(t, Tables(t)), Nothing);
    PlainShaped(path + ["dinf"], "dref", t.dref, Nothing);
    ContainerShaped(path, "dinf", Plain("dref", t.dref, Nothing), Stbl(t));
    PlainShaped(path, if t.coding.Audio? then "smhd" else "vmhd", t.mediaHeader, Dinf(t));
  }

  lemma MdiaShaped(t: TrackBoxes, path: seq<string>)
    requires CodingOk(t) && |t.ctts| <= 1 && InTrack(path)
    ensures Shaped(path, Mdia(t))
  {
    ContainerTypes();
    MediaTypes();
    MinfShaped(t, path + ["minf"]);
    var minf := Box(FourCC("minf"), Minf(t), Nothing);
    ContainerShaped(path, "minf", Minf(t), Nothing);
    PlainShaped(path, "hdlr", t.hdlr, minf);
    PlainShaped(path, "mdhd", t.mdhd, Plain("hdlr", t.hdlr, minf));
  }

  lemma TrakShaped(t: TrackBoxes, rest: Content)
    requires CodingOk(t) && |t.ctts| <= 1 && Shaped([MOOV], rest)
    ensures Shaped([MOOV], Trak(t, rest))
  {
    ContainerTypes();
    HeaderTypes();
    var path := [MOOV, TRAK];
    MdiaShaped(t, path + ["mdia"]);
    var mdia := Box(FourCC("mdia"), Mdia(t), Nothing);
    ContainerShaped(path, "mdia", Mdia(t), Nothing);
    PlainShaped(path, "tkhd", t.tkhd, mdia);
    TrakType();
    BoxShaped([MOOV], path, TRAK, Plain("tkhd", t.tkhd, mdia), rest, 0);
  }

  lemma TrakType()
    ensures Narrow(TRAK) && LayoutOf([MOOV, TRAK]) == Boxes(0) && [MOOV, TRAK] == [MOOV] + [TRAK]
  {}

  lemma {:induction false} TraksShaped(tracks: seq<TrackBoxes>)
    requires forall i :: 0 <= i < |tracks| ==> CodingOk(tracks[i]) && |tracks[i].ctts| <= 1
    ensures Shaped([MOOV], Traks(tracks))
  {
    if tracks != [] {
      TraksShaped(tracks[1..]);
      TrakShaped(tracks[0], Traks(tracks[1..]));
    }
  }

  lemma UdtaShaped(geoData: Data, rest: Content)
    requires Shaped([MOOV], rest)
    ensures Shaped([MOOV], Udta([geoData], rest))
  {
    var path := [MOOV, "udta"];
    var geo := Box(GEO_TYPE, Raw(geoData, Nothing), Nothing);
    UdtaTypes(path);
    assert NumBoxes(Raw(geoData, Nothing)) == 0;
    assert ShapedBody(path + [Text(GEO_TYPE)], Raw(geoData, Nothing));
    BoxShaped([MOOV], path, "udta", geo, rest, 0);
  }

  lemma UdtaTypes(path: seq<string>)
    requires path == [MOOV, "udta"]
    ensures Narrow("udta") && LayoutOf(path) == Boxes(0) && path == [MOOV] + ["udta"]
    ensures Text(GEO_TYPE) != MOOV && LayoutOf(path + [Text(GEO_TYPE)]) == Leaf
  {
    assert Text(GEO_TYPE)[0] == 0xa9 as char;
  }

  lemma MovieShaped(m: Movie)
    requires MovieOk(m)
    ensures Shaped([MOOV], MovieBody(m))
  {
    HeaderTypes();
    var traks := Traks(m.tracks);
    TraksShaped(m.tracks);
    if m.geoData != [] {
      assert m.geoData == [m.geoData[0]];
      UdtaShaped(m.geoData[0], traks);
    }
    PlainShaped([MOOV], "mvhd", m.mvhd, Udta(m.geoData, traks));
  }

  /** Whatever the tracks, the moov box the writer writes is walked to its last byte, with boxes found
      exactly where the writer put them, if the contents of the boxes without boxes are accepted. */
  lemma MovieIsParsed(src: Data, hs: Handlers, m: Movie, at: nat)
    requires MovieOk(m) && Holds(src, at, BoxBytes(MOOV_TYPE, Bytes(MovieBody(m))))
    requires 8 + |Bytes(MovieBody(m))| < Pow256(4) && Accepts(hs, MovieBody(m), [MOOV], at + 8)
    ensures TiledContainer(src, hs, [], at) && SizeAt(src, at) == 8 + |Bytes(MovieBody(m))|
    ensures Outcome(src, hs, [], at) == if hs.isDrm then Ok else Stop
  {
    MovieShaped(m);
    ShapedReadable(hs, [MOOV], MovieBody(m), at + 8);
    WrittenMoovIsParsed(src, hs, MovieBody(m), at);
  }
}
