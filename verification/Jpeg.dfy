/** Frame dimensions read straight from a JPEG's start-of-frame marker (sections B.1.1.4 and B.2.2 of ITU-T T.81). */
module Jpeg {
  import opened Options

  type byte = x: int | 0 <= x < 256
  datatype Size = Size(width: nat, height: nat)

  function Join(high: int, low: int): int { high * 256 + low }

  function ReadUInt16BE(data: seq<byte>, at: nat): nat
    requires at + 1 < |data|
  {
    Join(data[at], data[at + 1])
  }

  /** SOF0..SOF15, excluding DHT, JPG and DAC. */
  predicate IsStartOfFrame(marker: byte) {
    0xc0 <= marker <= 0xcf && marker != 0xc4 && marker != 0xc8 && marker != 0xcc
  }

  /** The thirteen frame headers of table B.1: the others of that row of markers are DHT, JPG and DAC. */
  lemma FrameMarkers(marker: byte)
    ensures IsStartOfFrame(marker) <==>
              marker in {0xc0, 0xc1, 0xc2, 0xc3, 0xc5, 0xc6, 0xc7, 0xc9, 0xca, 0xcb, 0xcd, 0xce, 0xcf}
  {
  }

  /** What the scan finds from an offset on. */
  function Scan(data: seq<byte>, offset: nat): Option<Size>
    decreases |data| - offset
  {
    if offset + 9 >= |data| then None
    else if data[offset] != 0xff then Scan(data, offset + 1)
    else if IsStartOfFrame(data[offset + 1]) then
      Some(Size(ReadUInt16BE(data, offset + 7), ReadUInt16BE(data, offset + 5)))
    else
      var length := ReadUInt16BE(data, offset + 2);
      if length < 2 then None else Scan(data, offset + 2 + length)
  }

  function SizeOf(data: seq<byte>): Option<Size> {
    if |data| < 4 || data[0] != 0xff || data[1] != 0xd8 then None else Scan(data, 2)
  }

  /** On every byte string the scanner terminates and reads in bounds. */
  method ReadJpegSize(data: seq<byte>) returns (size: Option<Size>)
    ensures size == SizeOf(data)
  {
    if |data| < 4 || data[0] != 0xff || data[1] != 0xd8 { return None; }
    var offset := 2;
    while offset + 9 < |data|
      invariant Scan(data, offset) == Scan(data, 2)
      decreases |data| - offset
    {
      if data[offset] != 0xff {
        offset := offset + 1;
        continue;
      }
      var marker := data[offset + 1];
      if 0xc0 <= marker && marker <= 0xcf && marker != 0xc4 && marker != 0xc8 && marker != 0xcc {
        return Some(Size(ReadUInt16BE(data, offset + 7), ReadUInt16BE(data, offset + 5)));
      }
      var segmentLength := ReadUInt16BE(data, offset + 2);
      if segmentLength < 2 { break; }
      offset := offset + 2 + segmentLength;
    }
    return None;
  }

  // ---- Writing headers ----

  function High(n: nat): byte
    requires n < 0x10000
  {
    n / 256
  }

  function Low(n: nat): byte { n % 256 }

  /** Bytes between segments that begin no marker. */
  predicate IsFill(fill: seq<byte>) { forall i :: 0 <= i < |fill| ==> fill[i] != 0xff }

  /**
   A marker segment other than a frame header, after any bytes that begin no marker: its length counts itself and the
   payload.
   */
  datatype Segment = Segment(fill: seq<byte>, marker: byte, payload: seq<byte>) {
    predicate Valid() { IsFill(fill) && !IsStartOfFrame(marker) && |payload| + 2 < 0x10000 }
    function Bytes(): seq<byte>
      requires Valid()
    {
      [0xff, marker, High(|payload| + 2), Low(|payload| + 2)] + payload
    }
  }

  /** `rest` starts with the number of components. */
  datatype FrameHeader = FrameHeader(marker: byte, length: nat, precision: byte, height: nat, width: nat,
      rest: seq<byte>) {
    predicate Valid() { IsStartOfFrame(marker) && length < 0x10000 && height < 0x10000 && width < 0x10000 }
    function Bytes(): seq<byte>
      requires Valid()
    {
      [0xff, marker, High(length), Low(length), precision, High(height), Low(height), High(width), Low(width)] + rest
    }
  }

  function SegmentBytes(segments: seq<Segment>): seq<byte>
    requires forall i :: 0 <= i < |segments| ==> segments[i].Valid()
  {
    if segments == [] then [] else segments[0].fill + (segments[0].Bytes() + SegmentBytes(segments[1..]))
  }

  function Encode(segments: seq<Segment>, fill: seq<byte>, header: FrameHeader): seq<byte>
    requires (forall i :: 0 <= i < |segments| ==> segments[i].Valid()) && header.Valid()
  {
    [0xff, 0xd8] + (SegmentBytes(segments) + (fill + header.Bytes()))
  }

  lemma Joined(n: nat)
    requires n < 0x10000
    ensures Join(High(n), Low(n)) == n
  {
  }

  /** These bytes stand there. */
  predicate HasAt(data: seq<byte>, at: nat, bytes: seq<byte>) {
    at + |bytes| <= |data| && forall i :: 0 <= i < |bytes| ==> data[at + i] == bytes[i]
  }

  lemma HasParts(data: seq<byte>, at: nat, head: seq<byte>, rest: seq<byte>)
    requires HasAt(data, at, head + rest)
    ensures HasAt(data, at, head) && HasAt(data, at + |head|, rest)
  {
    forall i | 0 <= i < |head| ensures data[at + i] == head[i] { assert (head + rest)[i] == head[i]; }
    forall i | 0 <= i < |rest| ensures data[at + |head| + i] == rest[i] {
      assert (head + rest)[|head| + i] == rest[i] && data[at + (|head| + i)] == rest[i];
    }
  }

  /** A frame header found at the current offset ends the scan. */
  lemma ScanAtHeader(data: seq<byte>, at: nat, header: FrameHeader)
    requires header.Valid() && HasAt(data, at, header.Bytes()) && at + |header.Bytes()| == |data|
    ensures Scan(data, at) == if header.rest == [] then None else Some(Size(header.width, header.height))
  {
    var h := header.Bytes();
    assert data[at + 0] == h[0] && data[at + 1] == h[1];
    assert data[at + 5] == h[5] && data[at + 6] == h[6] && data[at + 7] == h[7] && data[at + 8] == h[8];
    Joined(header.height);
    Joined(header.width);
  }

  lemma Skips(data: seq<byte>, at: nat, length: nat)
    requires at + 9 < |data| && data[at] == 0xff && !IsStartOfFrame(data[at + 1])
    requires Join(data[at + 2], data[at + 3]) == length >= 2
    ensures Scan(data, at) == Scan(data, at + 2 + length)
  {
  }

  /** Any other segment at the current offset is skipped whole. */
  lemma ScanAtSegment(data: seq<byte>, at: nat, segment: Segment)
    requires segment.Valid() && at + 9 < |data| && HasAt(data, at, segment.Bytes())
    ensures Scan(data, at) == Scan(data, at + |segment.Bytes()|)
  {
    var s, length := segment.Bytes(), |segment.payload| + 2;
    Joined(length);
    assert data[at + 0] == s[0] && data[at + 1] == s[1] && data[at + 2] == s[2] && data[at + 3] == s[3];
    Skips(data, at, length);
  }

  /** Bytes that begin no marker are passed over one by one. */
  lemma {:induction false} ScanPastFill(data: seq<byte>, at: nat, fill: seq<byte>)
    requires IsFill(fill) && HasAt(data, at, fill) && at + |fill| + 9 <= |data|
    ensures Scan(data, at) == Scan(data, at + |fill|)
    decreases |fill|
  {
    if fill != [] {
      assert data[at + 0] == fill[0];
      assert Scan(data, at) == Scan(data, at + 1);
      assert fill == [fill[0]] + fill[1..];
      HasParts(data, at, [fill[0]], fill[1..]);
      ScanPastFill(data, at + 1, fill[1..]);
    }
  }

  /** So are all segments, while a frame header may still follow. */
  lemma {:induction false} ScanSegments(data: seq<byte>, at: nat, segments: seq<Segment>)
    requires forall i :: 0 <= i < |segments| ==> segments[i].Valid()
    requires HasAt(data, at, SegmentBytes(segments)) && at + |SegmentBytes(segments)| + 9 <= |data|
    ensures Scan(data, at) == Scan(data, at + |SegmentBytes(segments)|)
    decreases |segments|
  {
    if segments != [] {
      var fill, bytes, others := segments[0].fill, segments[0].Bytes(), SegmentBytes(segments[1..]);
      HasParts(data, at, fill, bytes + others);
      HasParts(data, at + |fill|, bytes, others);
      ScanPastFill(data, at, fill);
      ScanAtSegment(data, at + |fill|, segments[0]);
      ScanSegments(data, at + |fill| + |bytes|, segments[1..]);
    }
  }

  /**
   Header writer and reader undo each other: after a start-of-image marker and any segments, with any bytes between
   them that begin no marker, the scan returns exactly the encoded width and height. It needs one byte past them,
   which a frame header always has.
   */
  lemma RoundTrip(segments: seq<Segment>, fill: seq<byte>, header: FrameHeader)
    requires (forall i :: 0 <= i < |segments| ==> segments[i].Valid()) && header.Valid() && IsFill(fill)
    ensures SizeOf(Encode(segments, fill, header))
         == if header.rest == [] then None else Some(Size(header.width, header.height))
  {
    var data, before, rest := Encode(segments, fill, header), SegmentBytes(segments), fill + header.Bytes();
    HasSelf(data);
    HasParts(data, 0, [0xff, 0xd8], before + rest);
    HasThreeParts(data, 2, before, fill, header.Bytes(), rest);
    ScanParts(data, segments, fill, header);
    StartsAsJpeg(before + rest);
  }

  lemma HasSelf(data: seq<byte>)
    ensures HasAt(data, 0, data)
  {
  }

  lemma HasThreeParts(data: seq<byte>, at: nat, a: seq<byte>, b: seq<byte>, c: seq<byte>, rest: seq<byte>)
    requires HasAt(data, at, a + rest) && rest == b + c
    ensures HasAt(data, at, a) && HasAt(data, at + |a|, b) && HasAt(data, at + |a| + |b|, c)
  {
    HasParts(data, at, a, rest);
    HasParts(data, at + |a|, b, c);
  }

  lemma ScanParts(data: seq<byte>, segments: seq<Segment>, fill: seq<byte>, header: FrameHeader)
    requires (forall i :: 0 <= i < |segments| ==> segments[i].Valid()) && header.Valid() && IsFill(fill)
    requires var start := 2 + |SegmentBytes(segments)|;
             && HasAt(data, 2, SegmentBytes(segments)) && HasAt(data, start, fill)
             && HasAt(data, start + |fill|, header.Bytes()) && |data| == start + |fill| + |header.Bytes()|
    ensures Scan(data, 2) == if header.rest == [] then None else Some(Size(header.width, header.height))
  {
    var start := 2 + |SegmentBytes(segments)|;
    ScanSegments(data, 2, segments);
    ScanPastFill(data, start, fill);
    ScanAtHeader(data, start + |fill|, header);
  }

  lemma StartsAsJpeg(rest: seq<byte>)
    requires |rest| >= 2
    ensures SizeOf([0xff, 0xd8] + rest) == Scan([0xff, 0xd8] + rest, 2)
  {
  }

  /** Sizes are big-endian, height first: a frame of 640 by 480 pixels. */
  lemma VgaFrame()
    ensures SizeOf([0xff, 0xd8, 0xff, 0xc0, 0x00, 0x11, 0x08, 0x01, 0xe0, 0x02, 0x80, 0x03]) == Some(Size(640, 480))
  {
  }

  /** Anything else is given up: another file type, or a segment shorter than its own length field. */
  lemma Unreadable(data: seq<byte>, at: nat)
    ensures |data| < 2 || data[0] != 0xff || data[1] != 0xd8 ==> SizeOf(data) == None
    ensures at + 9 < |data| && data[at] == 0xff && !IsStartOfFrame(data[at + 1]) ==>
              data[at + 2] == 0 && data[at + 3] < 2 ==> Scan(data, at) == None
    ensures at + 9 >= |data| ==> Scan(data, at) == None
  {
  }
}
