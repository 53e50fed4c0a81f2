/** Finding a JPEG image's size by walking its marker segments. */
module JpegScan {
  import opened Wrappers
  import opened Bytes

  /** The size a frame header states; the scan reports success only when both are positive. */
  datatype Size = Size(width: nat, height: nat)

  predicate IsFrameMarker(marker: byte) {
    0xC0 <= marker <= 0xCF && marker != 0xC4 && marker != 0xC8 && marker != 0xCC
  }

  function Word(data: Bytes, at: nat): nat
    requires at + 2 <= |data|
  {
    (data[at] as int) * 256 + (data[at + 1] as int)
  }

  /** The first position from `pos` on that holds (or does not hold) 0xFF; the length when there is none. */
  function SkipWhile(data: Bytes, pos: nat, fill: bool): (r: nat)
    requires pos <= |data|
    ensures pos <= r <= |data|
    ensures forall i :: pos <= i < r ==> (data[i] == 0xFF) == fill
    ensures r < |data| ==> (data[r] == 0xFF) != fill
    decreases |data| - pos
  {
    if pos < |data| && (data[pos] == 0xFF) == fill then SkipWhile(data, pos + 1, fill) else pos
  }

  /** One turn of the walk: the frame header's size, an end without one, or the next position. */
  datatype Turn = Found(size: Size) | Ended | Continue(pos: nat)

  function TurnAt(data: Bytes, pos: nat): (r: Turn)
    requires pos < |data|
    ensures r.Continue? ==> pos < r.pos
  {
    var prefix := SkipWhile(data, pos, false);
    if prefix >= |data| then Ended
    else
      var code := SkipWhile(data, prefix + 1, true);
      if code >= |data| then Ended else SegmentAt(data, code)
  }

  /** What the marker at `code` leads to. */
  function SegmentAt(data: Bytes, code: nat): (r: Turn)
    requires code < |data|
    ensures r.Continue? ==> code < r.pos
  {
    var at := code + 1;
    if IsFrameMarker(data[code]) then
      if at + 7 > |data| then Ended else Found(Size(Word(data, at + 5), Word(data, at + 3)))
    else if at + 2 > |data| || Word(data, at) < 2 then Ended
    else Continue(at + Word(data, at))
  }

  /** What the walk finds from `pos` on. */
  function ScanFrom(data: Bytes, pos: nat): Option<Size>
    decreases if pos < |data| then |data| - pos else 0
  {
    if pos >= |data| then None
    else
      match TurnAt(data, pos)
      case Found(size) => Some(size)
      case Ended => None
      case Continue(next) => ScanFrom(data, next)
  }

  function JpegSize(data: Bytes): Option<Size> {
    if |data| < 2 || data[0] != 0xFF || data[1] != 0xD8 then None else ScanFrom(data, 2)
  }

  /** Advances over bytes that are (or are not) 0xFF. */
  method Skip(data: array<byte>, from: nat, fill: bool) returns (pos: nat)
    requires from <= data.Length
    ensures pos == SkipWhile(data[..], from, fill)
  {
    pos := from;
    while pos < data.Length && (data[pos] == 0xFF) == fill
      invariant from <= pos <= data.Length
      invariant SkipWhile(data[..], from, fill) == SkipWhile(data[..], pos, fill)
    {
      pos := pos + 1;
    }
  }

  /** Reads the segment whose marker is at `code`. */
  method ReadSegment(data: array<byte>, code: nat) returns (turn: Turn)
    requires code < data.Length
    ensures turn == SegmentAt(data[..], code)
  {
    var marker, pos := data[code], code + 1;
    if IsFrameMarker(marker) {
      if pos + 7 > data.Length { return Ended; }
      var height := (data[pos + 3] as int) * 256 + (data[pos + 4] as int);
      var width := (data[pos + 5] as int) * 256 + (data[pos + 6] as int);
      return Found(Size(width, height));
    }
    if pos + 2 > data.Length { return Ended; }
    var segLen := (data[pos] as int) * 256 + (data[pos + 1] as int);
    if segLen < 2 { return Ended; }
    return Continue(pos + segLen);
  }

  /** `get_jpg_size_mem`: reads only inside the buffer, ends on every buffer, and finds what the walk defines. */
  method GetJpgSize(data: array<byte>) returns (ok: bool, width: nat, height: nat)
    ensures ok <==>
      JpegSize(data[..]).Some? && JpegSize(data[..]).value.width > 0 && JpegSize(data[..]).value.height > 0
    ensures ok ==> JpegSize(data[..]) == Some(Size(width, height))
  {
    ok, width, height := false, 0, 0;
    if data.Length < 2 { return; }
    if data[0] != 0xFF || data[1] != 0xD8 { return; }
    var pos := 2;
    while pos < data.Length
      invariant 2 <= pos
      invariant JpegSize(data[..]) == ScanFrom(data[..], pos)
      decreases if pos < data.Length then data.Length - pos else 0
    {
      var prefix := Skip(data, pos, false);
      if prefix >= data.Length { return; }
      var code := Skip(data, prefix + 1, true);
      if code >= data.Length { return; }
      var turn := ReadSegment(data, code);
      match turn
      case Found(size) =>
        width, height := size.width, size.height;
        return width > 0 && height > 0, width, height;
      case Ended => return;
      case Continue(next) => pos := next;
    }
  }

  // ------------------------------------------------------------------ well-formed streams

  /** A marker segment with its length: any number of fill bytes, the marker, the length and the parameters. */
  datatype Segment = Segment(fill: nat, marker: byte, parameters: Bytes)

  /** Segments that carry a length and are not frame headers (section B.1.1.4 of ITU-T T.81). */
  predicate IsSkippable(s: Segment) {
    s.marker != 0xFF && !IsFrameMarker(s.marker) && |s.parameters| + 2 < 0x1_0000
  }

  /** A frame header up to its dimensions (section B.2.2), with whatever follows in the stream. */
  datatype FrameHeader = FrameHeader(fill: nat, marker: byte, length: nat, precision: byte, height: nat, width: nat)

  predicate IsFrame(f: FrameHeader) {
    IsFrameMarker(f.marker) && f.length < 0x1_0000 && f.height < 0x1_0000 && f.width < 0x1_0000
  }

  function Fill(n: nat): (r: Bytes)
    ensures |r| == n && forall i :: 0 <= i < n ==> r[i] == 0xFF
  {
    seq(n, _ => 0xFF)
  }

  function Be16(n: nat): (r: Bytes)
    requires n < 0x1_0000
    ensures |r| == 2 && Word(r, 0) == n
  {
    [n / 256, n % 256]
  }

  function EncodeSegment(s: Segment): Bytes
    requires IsSkippable(s)
  {
    [0xFF] + Fill(s.fill) + [s.marker] + Be16(|s.parameters| + 2) + s.parameters
  }

  function EncodeSegments(segments: seq<Segment>): Bytes
    requires forall i :: 0 <= i < |segments| ==> IsSkippable(segments[i])
  {
    if segments == [] then [] else EncodeSegment(segments[0]) + EncodeSegments(segments[1..])
  }

  function EncodeFrame(f: FrameHeader): Bytes
    requires IsFrame(f)
  {
    [0xFF] + Fill(f.fill) + [f.marker] + Be16(f.length) + [f.precision] + Be16(f.height) + Be16(f.width)
  }

  lemma {:induction false} SkipFill(data: Bytes, pos: nat, n: nat)
    requires pos + n < |data|
    requires forall i :: pos <= i < pos + n ==> data[i] == 0xFF
    requires data[pos + n] != 0xFF
    ensures SkipWhile(data, pos, true) == pos + n
    decreases n
  {
    if n > 0 { SkipFill(data, pos + 1, n - 1); }
  }

  /** At `pos` the stream has a prefix, `fill` fill bytes and then the marker at `pos + 1 + fill`. */
  ghost predicate MarkerAt(data: Bytes, pos: nat, fill: nat, marker: byte) {
    && pos + 1 + fill < |data| && marker != 0xFF && data[pos + 1 + fill] == marker
    && forall i :: pos <= i < pos + 1 + fill ==> data[i] == 0xFF
  }

  /** A marker found at `pos` decides the turn the walk takes there. */
  lemma TurnAtMarker(data: Bytes, pos: nat, fill: nat, marker: byte)
    requires MarkerAt(data, pos, fill, marker)
    ensures TurnAt(data, pos) == SegmentAt(data, pos + 1 + fill)
  {
    SkipFill(data, pos + 1, fill);
    assert SkipWhile(data, pos, false) == pos;
  }

  /** `part` stands in `data` from `pos` on. */
  ghost predicate Holds(data: Bytes, pos: nat, part: Bytes) {
    pos + |part| <= |data| && data[pos..pos + |part|] == part
  }

  lemma HeldAt(data: Bytes, pos: nat, part: Bytes, i: nat)
    requires Holds(data, pos, part) && i < |part|
    ensures data[pos + i] == part[i]
  {
    assert data[pos..pos + |part|][i] == data[pos + i];
  }

  lemma WordMoves(data: Bytes, pos: nat, part: Bytes, at: nat)
    requires Holds(data, pos, part) && at + 2 <= |part|
    ensures Word(data, pos + at) == Word(part, at)
  {
    HeldAt(data, pos, part, at);
    HeldAt(data, pos, part, at + 1);
  }

  lemma MarkerMoves(data: Bytes, pos: nat, part: Bytes, fill: nat, marker: byte)
    requires Holds(data, pos, part) && MarkerAt(part, 0, fill, marker)
    ensures MarkerAt(data, pos, fill, marker)
  {
    forall i | pos <= i < pos + 1 + fill ensures data[i] == 0xFF {
      HeldAt(data, pos, part, i - pos);
    }
    HeldAt(data, pos, part, 1 + fill);
  }

  lemma SegmentParts(s: Segment)
    requires IsSkippable(s)
    ensures |EncodeSegment(s)| == s.fill + 4 + |s.parameters|
    ensures MarkerAt(EncodeSegment(s), 0, s.fill, s.marker)
    ensures Word(EncodeSegment(s), 2 + s.fill) == |s.parameters| + 2
  {
  }

  lemma FrameParts(f: FrameHeader)
    requires IsFrame(f)
    ensures |EncodeFrame(f)| == f.fill + 9
    ensures f.marker != 0xFF && MarkerAt(EncodeFrame(f), 0, f.fill, f.marker)
    ensures Word(EncodeFrame(f), 5 + f.fill) == f.height && Word(EncodeFrame(f), 7 + f.fill) == f.width
  {
  }

  /** The walk steps over one segment exactly. */
  lemma ScanSkips(data: Bytes, pos: nat, s: Segment)
    requires IsSkippable(s) && Holds(data, pos, EncodeSegment(s))
    ensures pos < |data| && TurnAt(data, pos) == Continue(pos + |EncodeSegment(s)|)
  {
    SegmentParts(s);
    MarkerMoves(data, pos, EncodeSegment(s), s.fill, s.marker);
    WordMoves(data, pos, EncodeSegment(s), 2 + s.fill);
    TurnAtMarker(data, pos, s.fill, s.marker);
  }

  lemma ScanReads(data: Bytes, pos: nat, f: FrameHeader)
    requires IsFrame(f) && Holds(data, pos, EncodeFrame(f))
    ensures pos < |data| && TurnAt(data, pos) == Found(Size(f.width, f.height))
  {
    FrameParts(f);
    MarkerMoves(data, pos, EncodeFrame(f), f.fill, f.marker);
    WordMoves(data, pos, EncodeFrame(f), 5 + f.fill);
    WordMoves(data, pos, EncodeFrame(f), 7 + f.fill);
    TurnAtMarker(data, pos, f.fill, f.marker);
  }

  lemma HoldsSplit(data: Bytes, pos: nat, a: Bytes, b: Bytes)
    requires Holds(data, pos, a + b)
    ensures Holds(data, pos, a) && Holds(data, pos + |a|, b)
  {
    var whole := data[pos..pos + |a + b|];
    assert whole[..|a|] == a == data[pos..pos + |a|];
    assert whole[|a|..] == b == data[pos + |a|..pos + |a| + |b|];
  }

  lemma HoldsInside(before: Bytes, part: Bytes, after: Bytes)
    ensures Holds(before + part + after, |before|, part)
  {
    assert (before + part + after)[|before|..|before| + |part|] == part;
  }

  /** The turns taken from `pos` on lead to `found`, passing the given positions. */
  ghost predicate Walk(data: Bytes, pos: nat, stops: seq<nat>, found: Size)
    decreases |stops|
  {
    && pos < |data|
    && if stops == [] then TurnAt(data, pos) == Found(found)
       else TurnAt(data, pos) == Continue(stops[0]) && Walk(data, stops[0], stops[1..], found)
  }

  lemma {:induction false} WalkScans(data: Bytes, pos: nat, stops: seq<nat>, found: Size)
    requires Walk(data, pos, stops, found)
    ensures ScanFrom(data, pos) == Some(found)
    decreases |stops|
  {
    if stops != [] { WalkScans(data, stops[0], stops[1..], found); }
  }

  lemma {:induction false} SegmentsWalk(data: Bytes, pos: nat, segments: seq<Segment>, f: FrameHeader)
    returns (stops: seq<nat>)
    requires IsFrame(f) && forall i :: 0 <= i < |segments| ==> IsSkippable(segments[i])
    requires Holds(data, pos, EncodeSegments(segments))
    requires Holds(data, pos + |EncodeSegments(segments)|, EncodeFrame(f))
    ensures Walk(data, pos, stops, Size(f.width, f.height))
    decreases |segments|
  {
    if segments == [] {
      ScanReads(data, pos, f);
      stops := [];
    } else {
      var first, rest := EncodeSegment(segments[0]), EncodeSegments(segments[1..]);
      HoldsSplit(data, pos, first, rest);
      ScanSkips(data, pos, segments[0]);
      var later := SegmentsWalk(data, pos + |first|, segments[1..], f);
      stops := [pos + |first|] + later;
      assert stops[1..] == later;
    }
  }

  lemma ScanReachesFrame(data: Bytes, pos: nat, segments: seq<Segment>, f: FrameHeader)
    requires IsFrame(f) && forall i :: 0 <= i < |segments| ==> IsSkippable(segments[i])
    requires Holds(data, pos, EncodeSegments(segments))
    requires Holds(data, pos + |EncodeSegments(segments)|, EncodeFrame(f))
    ensures ScanFrom(data, pos) == Some(Size(f.width, f.height))
  {
    var stops := SegmentsWalk(data, pos, segments, f);
    WalkScans(data, pos, stops, Size(f.width, f.height));
  }

  lemma StartsWithSoi(data: Bytes, soi: Bytes, rest: Bytes)
    requires soi == [0xFF, 0xD8] && data == soi + rest
    ensures JpegSize(data) == ScanFrom(data, 2)
  {
    assert data[0] == soi[0] && data[1] == soi[1];
  }

  lemma Regrouped(a: Bytes, b: Bytes, c: Bytes, d: Bytes)
    ensures a + b + c + d == a + b + (c + d) && a + b + c + d == a + (b + c + d)
  {
  }

  lemma StreamLayout(data: Bytes, soi: Bytes, body: Bytes, frame: Bytes, after: Bytes)
    requires soi == [0xFF, 0xD8] && data == soi + body + frame + after
    ensures Holds(data, 2, body) && Holds(data, 2 + |body|, frame) && JpegSize(data) == ScanFrom(data, 2)
  {
    Regrouped(soi, body, frame, after);
    HoldsInside(soi, body, frame + after);
    HoldsInside(soi + body, frame, after);
    StartsWithSoi(data, soi, body + frame + after);
  }

  /**
   * For every stream of an SOI marker, any length-bearing segments that are not frame headers, with any
   * fill bytes, and then a frame header, the scan finds that header's size, whatever the segments
   * contain and whatever follows.
   */
  lemma FindsFrameSize(segments: seq<Segment>, f: FrameHeader, after: Bytes)
    requires IsFrame(f) && forall i :: 0 <= i < |segments| ==> IsSkippable(segments[i])
    ensures JpegSize([0xFF, 0xD8] + EncodeSegments(segments) + EncodeFrame(f) + after) == Some(Size(f.width, f.height))
  {
    var soi: Bytes, body, frame := [0xFF, 0xD8], EncodeSegments(segments), EncodeFrame(f);
    var data := soi + body + frame + after;
    StreamLayout(data, soi, body, frame, after);
    ScanReachesFrame(data, 2, segments, f);
  }
}
