/** NAL units: the loop in MPEG4Source::read that turns length prefixes into start codes
    (libstagefright/MPEG4Extractor.cpp), and getNextNALUnit, which splits the result again
    (libstagefright/avc_utils.cpp); Annex B of ITU-T H.264. */
module NalUnits {
  import opened Bits
  import opened Sequences

  type Data = seq<byte>

  // ------------------------------------------------------------------ splitting at start codes

  /** A one byte after two zero bytes. */
  predicate StartsAt(data: Data, o: nat) {
    2 <= o < |data| && data[o] == 1 && data[o - 1] == 0 && data[o - 2] == 0
  }

  function LeadingZeros(data: Data, o: nat): (z: nat)
    requires o <= |data|
    ensures o <= z <= |data|
    ensures forall i :: o <= i < z ==> data[i] == 0
    ensures z < |data| ==> data[z] != 0
    decreases |data| - o
  {
    if o < |data| && data[o] == 0 then LeadingZeros(data, o + 1) else o
  }

  /** The next start code's last byte, from o on; the end if there is none. */
  function NextStart(data: Data, o: nat): (p: nat)
    requires o <= |data|
    ensures o <= p <= |data|
    ensures forall i :: o <= i < p ==> !StartsAt(data, i)
    ensures p < |data| ==> StartsAt(data, p)
    decreases |data| - o
  {
    if o == |data| || StartsAt(data, o) then o else NextStart(data, o + 1)
  }

  /** Trailing zeros are dropped, but one byte is kept. */
  function Stripped(data: Data, start: nat, end: nat): (e: nat)
    requires start <= end <= |data|
    ensures start <= e <= end && (end > start ==> e > start)
    ensures e > start + 1 ==> data[e - 1] != 0
    ensures forall i :: e <= i < end ==> data[i] == 0
    decreases end
  {
    if end > start + 1 && data[end - 1] == 0 then Stripped(data, start, end - 1) else end
  }

  datatype Next = Again | Malformed | Unit(nal: Data, rest: Data)

  /** getNextNALUnit with startCodeFollows; an empty rest stands for the null pointer. */
  function NextUnit(data: Data): Next {
    var z := LeadingZeros(data, 0);
    if z == |data| then Again
    else if z < 2 || data[z] != 1 then Malformed
    else UnitAt(data, z + 1)
  }

  // The unit that begins at `start`, behind a start code, and what is left behind it.
  function UnitAt(data: Data, start: nat): Next
    requires 0 < start <= |data| && data[start - 1] == 1
  {
    StartIsFurther(data, start);
    var p := NextStart(data, start);
    Unit(data[start..UnitEnd(data, start)], if p + 2 < |data| then data[p - 2..] else [])
  }

  // Where the unit that begins at `start`, behind a start code, ends.
  function UnitEnd(data: Data, start: nat): (end: nat)
    requires 0 < start <= |data| && data[start - 1] == 1
    ensures start <= end <= |data|
  {
    StartIsFurther(data, start);
    var p := NextStart(data, start);
    Stripped(data, start, if p == |data| then p else p - 2)
  }

  // Start codes found from just behind a one byte on begin behind it.
  lemma StartIsFurther(data: Data, start: nat)
    requires 0 < start <= |data| && data[start - 1] == 1
    ensures NextStart(data, start) == |data| || NextStart(data, start) - 2 >= start
  {}

  method GetNextNALUnit(data: Data) returns (r: Next)
    ensures r == NextUnit(data)
  {
    if |data| == 0 {
      return Again;
    }
    var offset := 0;
    while offset < |data| && data[offset] == 0x00
      invariant 0 <= offset <= |data| && LeadingZeros(data, 0) == LeadingZeros(data, offset)
    {
      offset := offset + 1;
    }
    if offset == |data| {
      return Again;
    }
    if offset < 2 || data[offset] != 0x01 {
      return Malformed;
    }
    r := TakeUnit(data, offset + 1);
  }

  // The rest of getNextNALUnit, lines 211 to 252.
  method TakeUnit(data: Data, startOffset: nat) returns (r: Next)
    requires 2 <= startOffset <= |data| && data[startOffset - 1] == 1
    ensures r == UnitAt(data, startOffset)
  {
    StartIsFurther(data, startOffset);
    var offset := FindStart(data, startOffset);
    var endOffset := StripZeros(data, startOffset, if offset == |data| then offset else offset - 2);
    r := Unit(data[startOffset..endOffset], if offset + 2 < |data| then data[offset - 2..] else []);
  }

  // The loop that looks for the next start code.
  method FindStart(data: Data, start: nat) returns (offset: nat)
    requires 2 <= start <= |data|
    ensures offset == NextStart(data, start)
  {
    offset := start;
    while offset < |data|
      invariant start <= offset <= |data| && NextStart(data, start) == NextStart(data, offset)
    {
      if data[offset] == 0x01 {
        if data[offset - 1] == 0x00 && data[offset - 2] == 0x00 {
          return;
        }
      }
      offset := offset + 1;
    }
  }

  // The loop that drops trailing zeros.
  method StripZeros(data: Data, start: nat, end: nat) returns (offset: nat)
    requires start <= end <= |data|
    ensures offset == Stripped(data, start, end)
  {
    offset := end;
    while offset > start + 1 && data[offset - 1] == 0x00
      invariant start <= offset <= end && Stripped(data, start, end) == Stripped(data, start, offset)
    {
      offset := offset - 1;
    }
  }

  /** All units that repeated calls return. */
  function Split(data: Data): seq<Data>
    decreases |data|
  {
    var r := NextUnit(data);
    if r.Unit? then (RestIsShorter(data); [r.nal] + Split(r.rest)) else []
  }

  lemma RestIsShorter(data: Data)
    requires NextUnit(data).Unit?
    ensures |NextUnit(data).rest| < |data|
  {
    StartIsFurther(data, LeadingZeros(data, 0) + 1);
  }

  // ------------------------------------------------------------------ start codes in front of units

  const START_CODE: Data := [0, 0, 0, 1]

  function AnnexB(nals: seq<Data>): Data {
    if nals == [] then [] else START_CODE + nals[0] + AnnexB(nals[1..])
  }

  /** A unit that survives: no start code inside, and no zero at the end unless it is the only byte. */
  predicate Clean(nal: Data) {
    && nal != [] && (|nal| == 1 || nal[|nal| - 1] != 0)
    && forall o :: 0 <= o < |nal| ==> !StartsAt(nal, o)
  }

  /** What follows a unit: nothing, or another start code and at least a byte. */
  predicate Follows(tail: Data) {
    tail == [] || (|tail| > 4 && tail[..4] == START_CODE)
  }

  /** The unit is in the data from `start` on, just behind a start code, and the tail is behind it. */
  predicate Placed(data: Data, start: nat, nal: Data, tail: Data) {
    && 2 < start && |data| == start + |nal| + |tail| && data[start - 1] == 1
    && data[start..start + |nal|] == nal && data[start + |nal|..] == tail
  }

  lemma PlacedAt(data: Data, start: nat, nal: Data, tail: Data)
    requires Placed(data, start, nal, tail)
    ensures forall i :: 0 <= i < |nal| ==> data[start + i] == nal[i]
    ensures forall i :: 0 <= i < |tail| ==> data[start + |nal| + i] == tail[i]
  {
    forall i | 0 <= i < |nal| ensures data[start + i] == nal[i] {
      assert data[start + i] == data[start..start + |nal|][i];
    }
    forall i | 0 <= i < |tail| ensures data[start + |nal| + i] == tail[i] {
      assert data[start + |nal| + i] == data[start + |nal|..][i];
    }
  }

  // Where the search for the next start code ends.
  lemma NextStartAt(data: Data, start: nat, nal: Data, tail: Data)
    requires Placed(data, start, nal, tail) && nal != [] && Follows(tail)
    ensures var p, inside := NextStart(data, start), exists o :: 0 <= o < |nal| && StartsAt(nal, o);
            && (inside ==> start + 2 <= p < start + |nal|)
            && (!inside && tail == [] ==> p == |data|)
            && (!inside && tail != [] && nal[|nal| - 1] != 0 ==> p == start + |nal| + 3)
            && (!inside && tail != [] ==> start + |nal| <= p <= start + |nal| + 3 && p < |data|)
  {
    PlacedAt(data, start, nal, tail);
    StartInside(data, start, nal, NextStart(data, start));
    if tail != [] {
      var behind := start + |nal|;
      assert tail[0] == tail[..4][0] && tail[1] == tail[..4][1] && tail[2] == tail[..4][2] && tail[3] == tail[..4][3];
      assert StartsAt(data, behind + 3);
    }
  }

  // What is left of the unit when trailing zeros are dropped.
  lemma StrippedAt(data: Data, start: nat, nal: Data, tail: Data)
    requires Placed(data, start, nal, tail) && nal != [] && Follows(tail)
    ensures Clean(nal) ==> UnitEnd(data, start) == start + |nal|
    ensures !Clean(nal) ==> UnitEnd(data, start) < start + |nal|
  {
    PlacedAt(data, start, nal, tail);
    NextStartAt(data, start, nal, tail);
    StartIsFurther(data, start);
    var p, behind := NextStart(data, start), start + |nal|;
    var end := if p == |data| then p else p - 2;
    if Clean(nal) {
      assert data[behind - 1] == nal[|nal| - 1];
      assert tail != [] ==> data[behind] == tail[..4][0];
    } else if p >= behind {
      assert data[behind - 1] == nal[|nal| - 1];
      assert tail != [] ==> data[behind] == tail[..4][0];
    }
  }

  // Reading the first unit off.
  lemma FirstUnit(data: Data, start: nat, nal: Data, tail: Data)
    requires Placed(data, start, nal, tail) && (forall i :: 0 <= i < start - 1 ==> data[i] == 0)
    requires nal != [] && Follows(tail)
    ensures var r := NextUnit(data);
            && r.Unit? && (r.nal == nal <==> Clean(nal))
            && (Clean(nal) ==> r.rest == if |tail| > 5 then data[start + |nal| + 1..] else [])
  {
    ZerosThenOne(data, 0, start - 1);
    StrippedAt(data, start, nal, tail);
    NextStartAt(data, start, nal, tail);
    StartIsFurther(data, start);
  }

  lemma ZerosThenOne(data: Data, o: nat, z: nat)
    requires o <= z < |data| && data[z] == 1 && forall i :: o <= i < z ==> data[i] == 0
    ensures LeadingZeros(data, o) == z
  {}

  // Start codes before the end of the unit are start codes in it.
  lemma StartInside(data: Data, start: nat, nal: Data, p: nat)
    requires 2 < start && start + |nal| <= |data| && data[start - 1] == 1
    requires forall i :: 0 <= i < |nal| ==> data[start + i] == nal[i]
    requires start <= p <= |data| && (forall i :: start <= i < p ==> !StartsAt(data, i))
             && (p < |data| ==> StartsAt(data, p))
    ensures p < start + |nal| <==> exists o :: 0 <= o < |nal| && StartsAt(nal, o)
    ensures p < start + |nal| ==> p >= start + 2
  {
    if p < start + |nal| {
      assert StartsAt(nal, p - start);
    }
    if o :| 0 <= o < |nal| && StartsAt(nal, o) {
      assert StartsAt(data, start + o);
    }
  }

  // ------------------------------------------------------------------ lists of units

  predicate NoneEmpty(nals: seq<Data>) {
    forall i :: 0 <= i < |nals| ==> nals[i] != []
  }

  /** The units that come through: each is clean, and if there are several the last has two bytes. */
  predicate Survive(nals: seq<Data>) {
    && (forall i :: 0 <= i < |nals| ==> Clean(nals[i]))
    && (|nals| >= 2 ==> |nals[|nals| - 1]| >= 2)
  }

  lemma AnnexBFollows(nals: seq<Data>)
    requires NoneEmpty(nals)
    ensures Follows(AnnexB(nals))
    ensures nals != [] ==> (|AnnexB(nals)| > 5 <==> |nals| >= 2 || |nals[0]| >= 2)
  {
    if nals != [] {
      assert START_CODE + nals[0] + AnnexB(nals[1..]) == START_CODE + (nals[0] + AnnexB(nals[1..]));
      if |nals| >= 2 { assert |AnnexB(nals[1..])| >= 4; }
    }
  }

  // What is left when the first of several units has been read: its successor, behind two zeros and a one.
  lemma RestIsPlaced(data: Data, start: nat, nals: seq<Data>)
    requires |nals| >= 2 && Placed(data, start, nals[0], AnnexB(nals[1..])) && NoneEmpty(nals)
    ensures start + |nals[0]| < |data|
    ensures var rest, more := data[start + |nals[0]| + 1..], nals[1..];
            && Placed(rest, 3, more[0], AnnexB(more[1..])) && NoneEmpty(more)
            && forall i :: 0 <= i < 2 ==> rest[i] == 0
  {
    var tail, behind := AnnexB(nals[1..]), start + |nals[0]|;
    assert nals[1..][0] == nals[1] && nals[1..][1..] == nals[2..];
    assert tail == START_CODE + nals[1] + AnnexB(nals[2..]);
    SliceOfTail(data, behind, 1);
    assert data[behind + 1..] == tail[1..];
    AfterStartCode(nals[1], AnnexB(nals[2..]));
  }

  lemma AfterStartCode(nal: Data, tail: Data)
    ensures var rest := (START_CODE + nal + tail)[1..];
            && |rest| == 3 + |nal| + |tail| && rest[0] == 0 && rest[1] == 0 && rest[2] == 1
            && rest[3..3 + |nal|] == nal && rest[3 + |nal|..] == tail
  {}

  lemma {:induction false} SplitPlaced(data: Data, start: nat, nals: seq<Data>)
    requires nals != [] && NoneEmpty(nals) && Placed(data, start, nals[0], AnnexB(nals[1..]))
    requires forall i :: 0 <= i < start - 1 ==> data[i] == 0
    ensures Split(data) == nals <==> Survive(nals)
    decreases |nals|
  {
    var rest := FirstOfPlaced(data, start, nals);
    if Clean(nals[0]) && |AnnexB(nals[1..])| > 5 {
      RestIsPlaced(data, start, nals);
      SplitPlaced(rest, 3, nals[1..]);
    }
    SplitByFirst(data, nals, rest);
  }

  lemma FirstOfPlaced(data: Data, start: nat, nals: seq<Data>) returns (rest: Data)
    requires nals != [] && NoneEmpty(nals) && Placed(data, start, nals[0], AnnexB(nals[1..]))
    requires forall i :: 0 <= i < start - 1 ==> data[i] == 0
    ensures NextUnit(data).Unit? && (NextUnit(data).nal == nals[0] <==> Clean(nals[0]))
    ensures Clean(nals[0]) ==> NextUnit(data).rest == rest
    ensures |AnnexB(nals[1..])| > 5 ==> start + |nals[0]| < |data| && rest == data[start + |nals[0]| + 1..]
    ensures |AnnexB(nals[1..])| <= 5 ==> rest == []
  {
    AnnexBFollows(nals[1..]);
    FirstUnit(data, start, nals[0], AnnexB(nals[1..]));
    rest := if |AnnexB(nals[1..])| > 5 then data[start + |nals[0]| + 1..] else [];
  }

  lemma SplitByFirst(data: Data, nals: seq<Data>, rest: Data)
    requires nals != [] && NoneEmpty(nals)
    requires NextUnit(data).Unit? && (NextUnit(data).nal == nals[0] <==> Clean(nals[0]))
    requires Clean(nals[0]) ==> NextUnit(data).rest == rest
    requires Clean(nals[0]) && |AnnexB(nals[1..])| > 5 ==> (Split(rest) == nals[1..] <==> Survive(nals[1..]))
    requires |AnnexB(nals[1..])| <= 5 ==> rest == []
    ensures Split(data) == nals <==> Survive(nals)
  {
    FirstOfSplit(data, NextUnit(data).nal, NextUnit(data).rest, nals);
    if !Clean(nals[0]) {
      assert !Survive(nals);
    } else if |AnnexB(nals[1..])| > 5 {
      AnnexBFollows(nals[1..]);
      SurviveRest(nals);
    } else {
      LastIsShort(nals);
    }
  }

  lemma FirstOfSplit(data: Data, first: Data, rest: Data, nals: seq<Data>)
    requires nals != [] && NextUnit(data) == Unit(first, rest)
    ensures Split(data) == nals <==> first == nals[0] && Split(rest) == nals[1..]
  {
    RestIsShorter(data);
    Heads(first, Split(rest), nals);
  }

  lemma Heads(a: Data, x: seq<Data>, s: seq<Data>)
    requires s != []
    ensures [a] + x == s <==> a == s[0] && x == s[1..]
  {
    if a == s[0] && x == s[1..] {
      assert s == [s[0]] + s[1..];
    }
    assert ([a] + x)[0] == a && ([a] + x)[1..] == x;
  }

  lemma SurviveRest(nals: seq<Data>)
    requires |nals| >= 2 && Clean(nals[0]) && (|nals| >= 3 || |nals[1]| >= 2)
    ensures Survive(nals) <==> Survive(nals[1..])
  {
    if Survive(nals[1..]) {
      forall i | 0 <= i < |nals| ensures Clean(nals[i]) {
        if i > 0 { assert nals[i] == nals[1..][i - 1]; }
      }
    }
  }

  lemma LastIsShort(nals: seq<Data>)
    requires nals != [] && NoneEmpty(nals) && |AnnexB(nals[1..])| <= 5 && Clean(nals[0])
    ensures Survive(nals) <==> nals[1..] == []
  {
    AnnexBFollows(nals[1..]);
  }

  /** Splitting what start codes were put in front of gives back the same units exactly when they all
      come through. */
  lemma {:induction false} SplitAnnexB(nals: seq<Data>)
    requires NoneEmpty(nals)
    ensures Split(AnnexB(nals)) == nals <==> Survive(nals)
  {
    if nals != [] {
      var data := AnnexB(nals);
      BehindStartCode(nals[0], AnnexB(nals[1..]));
      SplitPlaced(data, 4, nals);
    }
  }

  lemma BehindStartCode(nal: Data, tail: Data)
    ensures var data := START_CODE + nal + tail;
            && |data| == 4 + |nal| + |tail| && data[0] == 0 && data[1] == 0 && data[2] == 0 && data[3] == 1
            && data[4..4 + |nal|] == nal && data[4 + |nal|..] == tail
  {}

  // ------------------------------------------------------------------ length prefixes

  /** Units with length prefixes of w bytes. */
  function LengthPrefixed(nals: seq<Data>, w: nat): Data {
    if nals == [] then [] else BigEndian(|nals[0]|, w) + nals[0] + LengthPrefixed(nals[1..], w)
  }

  datatype Parsed = Units(nals: seq<Data>) | Bad

  /** The units in the source, if its prefixes lead exactly to its end. */
  function Parse(src: Data, w: nat): Parsed
    requires 1 <= w <= 4
    decreases |src|
  {
    if src == [] then Units([])
    else if w > |src| then Bad
    else
      var n := Number(src[..w]);
      if w + n > |src| then Bad else
        OneMore(src[w..w + n], Parse(src[w + n..], w))
  }

  function OneMore(nal: Data, rest: Parsed): Parsed {
    if rest.Bad? then Bad else Units([nal] + rest.nals)
  }

  function WithoutEmpty(nals: seq<Data>): seq<Data> {
    if nals == [] then [] else (if nals[0] == [] then [] else [nals[0]]) + WithoutEmpty(nals[1..])
  }

  function U16At(data: Data, k: nat): nat
    requires k + 2 <= |data|
  {
    (data[k] as int) * 256 + data[k + 1]
  }

  /** parseNALSize. */
  method ParseNALSize(data: Data, w: nat) returns (n: nat)
    requires 1 <= w <= 4 && |data| >= w
    ensures n == Number(data[..w])
  {
    NumberOfBytes(data);
    match w {
      case 1 => n := data[0];
      case 2 => n := U16At(data, 0);
      case 3 => n := (data[0] as int) * 65536 + U16At(data, 1);
      case 4 => n := U16At(data, 0) * 65536 + U16At(data, 2);
    }
  }

  lemma NumberOfBytes(data: Data)
    ensures |data| >= 1 ==> Number(data[..1]) == data[0]
    ensures |data| >= 2 ==> Number(data[..2]) == U16At(data, 0)
    ensures |data| >= 3 ==> Number(data[..3]) == (data[0] as int) * 65536 + U16At(data, 1)
    ensures |data| >= 4 ==> Number(data[..4]) == U16At(data, 0) * 65536 + U16At(data, 2)
  {
    if |data| >= 1 { NumberNext(data, 0); assert data[..0] == []; }
    if |data| >= 2 { NumberNext(data, 1); }
    if |data| >= 3 { NumberNext(data, 2); }
    if |data| >= 4 { NumberNext(data, 3); }
  }

  lemma NumberNext(data: Data, k: nat)
    requires k < |data|
    ensures Number(data[..k + 1]) == 256 * Number(data[..k]) + data[k]
  {
    assert data[..k + 1][..k] == data[..k];
  }

  /** The loop of MPEG4Source::read: malformed exactly when the prefixes do not lead to the end. */
  method ToStartCodes(src: Data, w: nat) returns (ok: bool, dst: Data)
    requires 1 <= w <= 4
    ensures ok <==> Parse(src, w).Units?
    ensures ok ==> dst == AnnexB(WithoutEmpty(Parse(src, w).nals))
  {
    var srcOffset := 0;
    dst := [];
    ghost var done: seq<Data> := [];
    ParsedNone(src, w);
    while srcOffset < |src|
      invariant ParsedTo(src, w, srcOffset, done)
      invariant dst == AnnexB(WithoutEmpty(done))
      decreases |src| - srcOffset
    {
      if srcOffset + w > |src| {
        return false, [];
      }
      var nalLength := ParseNALSize(src[srcOffset..], w);
      ghost var begin, end := srcOffset + w, srcOffset + w + nalLength;
      ParsedOne(src, w, srcOffset, done, nalLength, begin, end);
      srcOffset := srcOffset + w;
      if srcOffset + nalLength > |src| {
        return false, [];
      }
      ghost var nal := src[begin..end];
      AppendedUnit(done, nal);
      done := done + [nal];
      if nalLength == 0 {
        continue;
      }
      dst := dst + (START_CODE + src[srcOffset..srcOffset + nalLength]);
      srcOffset := srcOffset + nalLength;
    }
    ok := true;
    ParsedAll(src, w, done);
  }

  lemma AppendedUnit(done: seq<Data>, nal: Data)
    ensures nal == [] ==> AnnexB(WithoutEmpty(done + [nal])) == AnnexB(WithoutEmpty(done))
    ensures nal != [] ==> AnnexB(WithoutEmpty(done + [nal])) == AnnexB(WithoutEmpty(done)) + (START_CODE + nal)
  {
    AppendedNext(done, nal);
  }

  // The units before offset o have been read.
  ghost predicate ParsedTo(src: Data, w: nat, o: nat, done: seq<Data>)
    requires 1 <= w <= 4
  {
    o <= |src| && Parse(src, w) == Prepended(done, Parse(src[o..], w))
  }

  lemma ParsedNone(src: Data, w: nat)
    requires 1 <= w <= 4
    ensures ParsedTo(src, w, 0, [])
  {
    assert src[0..] == src;
    assert Parse(src, w).Units? ==> [] + Parse(src, w).nals == Parse(src, w).nals;
  }

  lemma ParsedOne(src: Data, w: nat, o: nat, done: seq<Data>, n: nat, begin: nat, end: nat)
    requires 1 <= w <= 4 && o + w <= |src| && n == Number(src[o..][..w]) && ParsedTo(src, w, o, done)
    requires begin == o + w && end == begin + n
    ensures end > |src| ==> Parse(src, w).Bad?
    ensures end <= |src| ==> ParsedTo(src, w, end, done + [src[begin..end]])
  {
    ParseAt(src, o, w, n, begin, end);
    if end <= |src| {
      PrependedNext(done, src[begin..end], Parse(src[end..], w));
    }
  }

  lemma ParsedAll(src: Data, w: nat, done: seq<Data>)
    requires 1 <= w <= 4 && ParsedTo(src, w, |src|, done)
    ensures Parse(src, w) == Units(done)
  {
    assert src[|src|..] == [];
    assert done + [] == done;
  }

  // Parsing from offset o on, where a prefix says n.
  lemma ParseAt(src: Data, o: nat, w: nat, n: nat, begin: nat, end: nat)
    requires 1 <= w <= 4 && o + w <= |src| && n == Number(src[o..][..w])
    requires begin == o + w && end == begin + n
    ensures end > |src| ==> Parse(src[o..], w).Bad?
    ensures end <= |src| ==> Parse(src[o..], w) == OneMore(src[begin..end], Parse(src[end..], w))
  {
    if end <= |src| {
      SliceOfTail(src, o, w + n);
      SliceOfSlice(src, o, |src|, w, w + n);
      assert src[o..][w..w + n] == src[begin..end] && src[o..][w + n..] == src[end..];
    }
  }

  function Prepended(done: seq<Data>, rest: Parsed): Parsed {
    if rest.Bad? then Bad else Units(done + rest.nals)
  }

  lemma PrependedNext(done: seq<Data>, nal: Data, rest: Parsed)
    ensures Prepended(done + [nal], rest) == Prepended(done, OneMore(nal, rest))
  {
    if rest.Units? { Associative(done, [nal], rest.nals); }
  }

  lemma {:induction false} AppendedNext(done: seq<Data>, nal: Data)
    ensures AnnexB(WithoutEmpty(done + [nal])) ==
            AnnexB(WithoutEmpty(done)) + if nal == [] then [] else START_CODE + nal
  {
    if done == [] {
      assert [] + [nal] == [nal] && [nal][1..] == [];
      if nal != [] {
        assert WithoutEmpty([nal]) == [nal];
        assert AnnexB([nal]) == START_CODE + nal + [];
      }
    } else {
      assert (done + [nal])[1..] == done[1..] + [nal];
      AppendedNext(done[1..], nal);
      AnnexBOfFirst(done[0], WithoutEmpty(done[1..] + [nal]));
      AnnexBOfFirst(done[0], WithoutEmpty(done[1..]));
      Associative(if done[0] == [] then [] else START_CODE + done[0], AnnexB(WithoutEmpty(done[1..])),
                  if nal == [] then [] else START_CODE + nal);
    }
  }

  lemma AnnexBOfFirst(first: Data, rest: seq<Data>)
    ensures AnnexB((if first == [] then [] else [first]) + rest)
         == (if first == [] then [] else START_CODE + first) + AnnexB(rest)
  {
    if first == [] {
      assert [] + rest == rest;
    } else {
      assert ([first] + rest)[1..] == rest;
    }
  }

  predicate LengthsFit(nals: seq<Data>, w: nat) {
    forall i :: 0 <= i < |nals| ==> |nals[i]| < Pow256(w)
  }

  /** Prefixes are read as they are written. */
  lemma {:induction false} ParsePrefixed(nals: seq<Data>, w: nat)
    requires 1 <= w <= 4 && LengthsFit(nals, w)
    ensures Parse(LengthPrefixed(nals, w), w) == Units(nals)
  {
    if nals != [] {
      var src, prefix, rest := LengthPrefixed(nals, w), BigEndian(|nals[0]|, w), LengthPrefixed(nals[1..], w);
      NumberOfBigEndian(|nals[0]|, w);
      PrefixParts(prefix, nals[0], rest);
      ParsePrefixed(nals[1..], w);
      assert [nals[0]] + nals[1..] == nals;
    }
  }

  lemma PrefixParts(prefix: Data, nal: Data, rest: Data)
    ensures var src, w := prefix + nal + rest, |prefix|;
            src[..w] == prefix && src[w..w + |nal|] == nal && src[w + |nal|..] == rest
  {}

  /** Length-prefixed units, rewritten with start codes and split again, come back as they were exactly
      when they survive. */
  lemma {:induction false} RoundTrip(nals: seq<Data>, w: nat)
    requires 1 <= w <= 4 && LengthsFit(nals, w) && NoneEmpty(nals)
    ensures Parse(LengthPrefixed(nals, w), w) == Units(nals)
    ensures Split(AnnexB(WithoutEmpty(nals))) == nals <==> Survive(nals)
  {
    ParsePrefixed(nals, w);
    NothingEmpty(nals);
    SplitAnnexB(nals);
  }

  lemma {:induction false} NothingEmpty(nals: seq<Data>)
    requires NoneEmpty(nals)
    ensures WithoutEmpty(nals) == nals
  {
    if nals != [] {
      NothingEmpty(nals[1..]);
      assert [nals[0]] + nals[1..] == nals;
    }
  }
}
