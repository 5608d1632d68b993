/** Removal of EXIF metadata from JPEG uploads: a scanner over marker segments, a TIFF reader in
    both byte orders, a filter, and a writer of a minimal EXIF segment. */
module Jpeg {
  import opened Prelude

  type Bytes = seq<byte>

  // ---------------------------------------------------------------- integers in bytes

  function U16BE(s: Bytes, o: nat): (v: int)
    requires o + 2 <= |s|
    ensures 0 <= v < 0x1_0000
  {
    (s[o] as int) * 256 + s[o + 1]
  }

  function U16LE(s: Bytes, o: nat): (v: int)
    requires o + 2 <= |s|
    ensures 0 <= v < 0x1_0000
  {
    (s[o + 1] as int) * 256 + s[o]
  }

  function U16(little: bool, s: Bytes, o: nat): (v: int)
    requires o + 2 <= |s|
    ensures 0 <= v < 0x1_0000
  {
    if little then U16LE(s, o) else U16BE(s, o)
  }

  function U32(little: bool, s: Bytes, o: nat): (v: int)
    requires o + 4 <= |s|
    ensures 0 <= v < 0x1_0000_0000
  {
    if little then U16LE(s, o) + 0x1_0000 * U16LE(s, o + 2)
    else 0x1_0000 * U16BE(s, o) + U16BE(s, o + 2)
  }

  function PutU16LE(v: int): Bytes
    requires 0 <= v < 0x1_0000
  {
    [v % 256, v / 256]
  }

  function PutU16BE(v: int): Bytes
    requires 0 <= v < 0x1_0000
  {
    [v / 256, v % 256]
  }

  function PutU32LE(v: int): Bytes
    requires 0 <= v < 0x1_0000_0000
  {
    PutU16LE(v % 0x1_0000) + PutU16LE(v / 0x1_0000)
  }

  // ---------------------------------------------------------------- the scan

  const APP1: byte := 0xE1
  const SOS: byte := 0xDA

  predicate IsJpeg(d: Bytes) {
    |d| >= 2 && d[0] == 0xFF && d[1] == 0xD8
  }

  /** What the scanner finds at the head of what is left: fewer than four bytes, something that
      ends the headers, or a whole segment of the given size. */
  datatype Head = Spent | Stop | Segment(size: nat)

  function HeadOf(s: Bytes): (h: Head)
    ensures h.Segment? ==> 4 <= h.size <= |s|
  {
    if |s| < 4 then Spent
    else if s[0] != 0xFF || s[1] == SOS then Stop
    else
      var n := U16BE(s, 2);
      if n < 2 || 2 + n > |s| then Stop else Segment(2 + n)
  }

  /** The header segments of what follows the SOI marker, in order. */
  function Segments(s: Bytes): seq<Bytes>
    decreases |s|
  {
    match HeadOf(s)
    case Segment(n) => [s[..n]] + Segments(s[n..])
    case _ => []
  }

  /** What follows the last header segment. */
  function Rest(s: Bytes): Bytes
    decreases |s|
  {
    match HeadOf(s)
    case Segment(n) => Rest(s[n..])
    case _ => s
  }

  function Join(parts: seq<Bytes>): Bytes {
    if parts == [] then [] else parts[0] + Join(parts[1..])
  }

  predicate IsApp1(seg: Bytes) {
    |seg| >= 2 && seg[1] == APP1
  }

  function WithoutApp1(segs: seq<Bytes>): seq<Bytes> {
    if segs == [] then []
    else if IsApp1(segs[0]) then WithoutApp1(segs[1..])
    else [segs[0]] + WithoutApp1(segs[1..])
  }

  /** The scan took the file apart without loss, and what is left is no whole segment. */
  lemma {:induction false} ScanLosesNothing(s: Bytes)
    ensures s == Join(Segments(s)) + Rest(s)
    ensures !HeadOf(Rest(s)).Segment?
    decreases |s|
  {
    match HeadOf(s)
    case Segment(n) =>
      ScanLosesNothing(s[n..]);
      assert Segments(s)[1..] == Segments(s[n..]);
      assert s == s[..n] + s[n..];
      assert s[..n] + (Join(Segments(s[n..])) + Rest(s[n..])) == (s[..n] + Join(Segments(s[n..]))) + Rest(s[n..]);
    case _ =>
  }

  // ---------------------------------------------------------------- the TIFF reader

  const EXIF_MAGIC: Bytes := [0x45, 0x78, 0x69, 0x66, 0, 0]
  const ORIENTATION: int := 0x0112

  /** The value of the first directory entry from index j on that carries the orientation tag; the
      walk ends after count entries or at the first one that does not fit. */
  function FindEntry(little: bool, tiff: Bytes, dir: nat, count: nat, j: nat): int
    decreases count - j
  {
    var off := dir + 2 + 12 * j;
    if j >= count || off + 12 > |tiff| then 0
    else if U16(little, tiff, off) == ORIENTATION then U16(little, tiff, off + 8)
    else FindEntry(little, tiff, dir, count, j + 1)
  }

  function ExifOrientation(seg: Bytes): int {
    if |seg| < 14 || seg[..6] != EXIF_MAGIC then 0
    else
      var tiff := seg[6..];
      if tiff[..2] != [0x49, 0x49] && tiff[..2] != [0x4D, 0x4D] then 0
      else
        var little := tiff[0] == 0x49;
        if U16(little, tiff, 2) != 0x002A then 0
        else
          var dir := U32(little, tiff, 4);
          if dir + 2 > |tiff| then 0
          else FindEntry(little, tiff, dir, U16(little, tiff, dir), 0)
  }

  /** The orientation of the first APP1 segment, whatever that segment holds; 0 without one. */
  function Orientation(segs: seq<Bytes>): int {
    if segs == [] then 0
    else if IsApp1(segs[0]) && |segs[0]| >= 4 then ExifOrientation(segs[0][4..])
    else Orientation(segs[1..])
  }

  function OrientationOf(d: Bytes): int {
    if IsJpeg(d) then Orientation(Segments(d[2..])) else 0
  }

  /** Entry k of the directory is in range and carries the orientation tag. */
  predicate Tagged(little: bool, tiff: Bytes, dir: nat, count: nat, k: nat) {
    k < count && dir + 2 + 12 * k + 12 <= |tiff| && U16(little, tiff, dir + 2 + 12 * k) == ORIENTATION
  }

  /** Meaning of the walk: the value of the first tagged entry ... */
  lemma {:induction false} FirstTaggedEntry(little: bool, tiff: Bytes, dir: nat, count: nat, j: nat, k: nat)
    requires j <= k && Tagged(little, tiff, dir, count, k)
    requires forall i: nat :: j <= i < k ==> !Tagged(little, tiff, dir, count, i)
    ensures FindEntry(little, tiff, dir, count, j) == U16(little, tiff, dir + 2 + 12 * k + 8)
    decreases k - j
  {
    if j < k {
      assert !Tagged(little, tiff, dir, count, j);
      FirstTaggedEntry(little, tiff, dir, count, j + 1, k);
    }
  }

  /** ... and 0 when there is none. */
  lemma {:induction false} NoTaggedEntry(little: bool, tiff: Bytes, dir: nat, count: nat, j: nat)
    requires forall i: nat :: j <= i ==> !Tagged(little, tiff, dir, count, i)
    ensures FindEntry(little, tiff, dir, count, j) == 0
    decreases count - j
  {
    if j < count && dir + 2 + 12 * j + 12 <= |tiff| {
      assert !Tagged(little, tiff, dir, count, j);
      NoTaggedEntry(little, tiff, dir, count, j + 1);
    }
  }

  // ---------------------------------------------------------------- the code

  method ParseOrientation(seg: Bytes) returns (v: int)
    ensures v == ExifOrientation(seg)
  {
    if |seg| < 14 || seg[..6] != EXIF_MAGIC { return 0; }
    var tiff := seg[6..];
    var little: bool;
    if tiff[..2] == [0x49, 0x49] { little := true; }
    else if tiff[..2] == [0x4D, 0x4D] { little := false; }
    else { return 0; }
    assert little == (tiff[0] == 0x49);
    if U16(little, tiff, 2) != 0x002A { return 0; }
    var dir := U32(little, tiff, 4);
    if dir + 2 > |tiff| { return 0; }
    var count := U16(little, tiff, dir);
    var j := 0;
    while j < count
      invariant 0 <= j <= count
      invariant FindEntry(little, tiff, dir, count, j) == FindEntry(little, tiff, dir, count, 0)
    {
      var off := dir + 2 + j * 12;
      if off + 12 > |tiff| { break; }
      if U16(little, tiff, off) == ORIENTATION { return U16(little, tiff, off + 8); }
      j := j + 1;
    }
    return 0;
  }

  /** The head of the data from position i on, read with the loops' own indices. */
  lemma HeadAt(d: Bytes, i: nat)
    requires i + 4 <= |d|
    ensures HeadOf(d[i..]) ==
              if d[i] != 0xFF || d[i + 1] == SOS then Stop
              else if U16BE(d, i + 2) < 2 || i + 2 + U16BE(d, i + 2) > |d| then Stop
              else Segment(2 + U16BE(d, i + 2))
  {
    var s := d[i..];
    assert s[0] == d[i] && s[1] == d[i + 1] && s[2] == d[i + 2] && s[3] == d[i + 3];
  }

  lemma SegmentAt(d: Bytes, i: nat, end: nat)
    requires i <= |d| && HeadOf(d[i..]).Segment? && end == i + HeadOf(d[i..]).size
    ensures end <= |d| && Segments(d[i..]) == [d[i..end]] + Segments(d[end..])
    ensures Rest(d[i..]) == Rest(d[end..])
  {
    assert d[i..][..end - i] == d[i..end] && d[i..][end - i..] == d[end..];
  }

  method FindOrientation(d: Bytes) returns (v: int)
    requires IsJpeg(d)
    ensures v == OrientationOf(d)
  {
    var i := 2;
    while i + 3 < |d|
      invariant 2 <= i <= |d|
      invariant Orientation(Segments(d[i..])) == OrientationOf(d)
    {
      HeadAt(d, i);
      if d[i] != 0xFF { return 0; }
      var marker := d[i + 1];
      if marker == SOS { return 0; }
      var segLen := U16BE(d, i + 2);
      if segLen < 2 { return 0; }
      var segEnd := i + 2 + segLen;
      if segEnd > |d| { return 0; }
      SegmentAt(d, i, segEnd);
      OrientationStep(d[i..segEnd], Segments(d[segEnd..]));
      if marker == APP1 {
        assert d[i..segEnd][4..] == d[i + 4..segEnd];
        v := ParseOrientation(d[i + 4..segEnd]);
        return;
      }
      i := segEnd;
    }
    return 0;
  }

  lemma OrientationStep(seg: Bytes, more: seq<Bytes>)
    requires |seg| >= 4
    ensures Orientation([seg] + more) == if IsApp1(seg) then ExifOrientation(seg[4..]) else Orientation(more)
  {
    assert ([seg] + more)[1..] == more;
  }

  /** What the filter writes after the SOI marker: the other segments, and the rest of the file
      unless fewer than four bytes are left of it. */
  function Filtered(s: Bytes): Bytes {
    Join(WithoutApp1(Segments(s))) + (if HeadOf(Rest(s)).Stop? then Rest(s) else [])
  }

  method RemoveApp1Markers(d: Bytes) returns (r: Bytes)
    requires IsJpeg(d)
    ensures r == d[..2] + Filtered(d[2..])
  {
    r := d[..2];
    var i := 2;
    while i + 3 < |d|
      invariant 2 <= i <= |d|
      invariant r + Filtered(d[i..]) == d[..2] + Filtered(d[2..])
    {
      HeadAt(d, i);
      if HeadOf(d[i..]).Stop? { assert Filtered(d[i..]) == d[i..]; }
      if d[i] != 0xFF { return r + d[i..]; }
      var marker := d[i + 1];
      if marker == SOS { return r + d[i..]; }
      var segLen := U16BE(d, i + 2);
      if segLen < 2 { return r + d[i..]; }
      var segEnd := i + 2 + segLen;
      if segEnd > |d| { return r + d[i..]; }
      SegmentAt(d, i, segEnd);
      FilterStep(d[i..], d[i..segEnd], d[segEnd..]);
      if marker != APP1 {
        assert r + (d[i..segEnd] + Filtered(d[segEnd..])) == (r + d[i..segEnd]) + Filtered(d[segEnd..]);
        r := r + d[i..segEnd];
      }
      i := segEnd;
    }
    assert Filtered(d[i..]) == [];
  }

  lemma FilterStep(s: Bytes, seg: Bytes, tail: Bytes)
    requires Segments(s) == [seg] + Segments(tail) && Rest(s) == Rest(tail)
    ensures Filtered(s) == (if IsApp1(seg) then [] else seg) + Filtered(tail)
  {
    var end := if HeadOf(Rest(s)).Stop? then Rest(s) else [];
    if !IsApp1(seg) {
      assert WithoutApp1(Segments(s))[1..] == WithoutApp1(Segments(tail));
      assert (seg + Join(WithoutApp1(Segments(tail)))) + end == seg + (Join(WithoutApp1(Segments(tail))) + end);
    }
  }

  /** Little-endian TIFF header, the offset of the directory, and its entry count. */
  function TiffHeader(): (r: Bytes)
    ensures r == [0x49, 0x49, 42, 0, 8, 0, 0, 0, 1, 0]
  {
    [0x49, 0x49] + PutU16LE(0x002A) + PutU32LE(8) + PutU16LE(1)
  }

  /** One directory entry: tag, type SHORT, count 1, the value and padding. */
  function OrientationEntry(o: int): (r: Bytes)
    requires 0 <= o < 0x1_0000
    ensures r == [0x12, 0x01, 3, 0, 1, 0, 0, 0, o % 256, o / 256, 0, 0]
  {
    PutU16LE(ORIENTATION) + PutU16LE(3) + PutU32LE(1) + PutU16LE(o) + PutU16LE(0)
  }

  /** The TIFF part ends with the offset of the next directory, 0. */
  function MinimalTiff(o: int): Bytes
    requires 0 <= o < 0x1_0000
  {
    TiffHeader() + OrientationEntry(o) + PutU32LE(0)
  }

  /** A minimal APP1 segment. */
  function OrientationSegment(o: int): Bytes
    requires 0 <= o < 0x1_0000
  {
    var exif := EXIF_MAGIC + MinimalTiff(o);
    [0xFF, APP1] + PutU16BE(|exif| + 2) + exif
  }

  /** A segment that the scanner takes as a whole. */
  predicate Whole(seg: Bytes) {
    HeadOf(seg) == Segment(|seg|)
  }

  lemma SegmentIsWhole(o: int)
    requires 0 <= o < 0x1_0000
    ensures Whole(OrientationSegment(o)) && IsApp1(OrientationSegment(o)) && |OrientationSegment(o)| == 36
  {
  }

  lemma MinimalTiffEntry(o: int)
    requires 0 <= o < 0x1_0000
    ensures var tiff := MinimalTiff(o);
            && |tiff| == 26 && tiff[..2] == [0x49, 0x49]
            && U16(true, tiff, 2) == 0x002A && U32(true, tiff, 4) == 8 && U16(true, tiff, 8) == 1
            && FindEntry(true, tiff, 8, 1, 0) == o
  {
    var tiff := MinimalTiff(o);
    assert forall i :: 0 <= i < 10 ==> tiff[i] == TiffHeader()[i];
    assert forall i :: 0 <= i < 12 ==> tiff[10 + i] == OrientationEntry(o)[i];
    assert tiff[10] == OrientationEntry(o)[0] && tiff[11] == OrientationEntry(o)[1];
    assert tiff[18] == OrientationEntry(o)[8] && tiff[19] == OrientationEntry(o)[9];
    assert U16(true, tiff, 10) == ORIENTATION && U16(true, tiff, 18) == o;
  }

  /** The reader undoes the writer, for every 16-bit value. */
  lemma OrientationReadsBack(o: int)
    requires 0 <= o < 0x1_0000
    ensures ExifOrientation(OrientationSegment(o)[4..]) == o
  {
    MinimalTiffEntry(o);
    var seg := EXIF_MAGIC + MinimalTiff(o);
    assert OrientationSegment(o)[4..] == seg;
    assert seg[..6] == EXIF_MAGIC && seg[6..] == MinimalTiff(o);
  }

  lemma WholeHead(seg: Bytes, rest: Bytes)
    requires Whole(seg)
    ensures HeadOf(seg + rest) == Segment(|seg|)
  {
    var s := seg + rest;
    assert s[0] == seg[0] && s[1] == seg[1] && s[2] == seg[2] && s[3] == seg[3];
  }

  /** A whole segment in front is scanned first. */
  lemma WholeFirst(seg: Bytes, rest: Bytes)
    requires Whole(seg)
    ensures Segments(seg + rest) == [seg] + Segments(rest) && Rest(seg + rest) == Rest(rest)
  {
    WholeHead(seg, rest);
    assert (seg + rest)[..|seg|] == seg && (seg + rest)[|seg|..] == rest;
  }

  lemma InjectedBody(d: Bytes, r: Bytes, seg: Bytes)
    requires |d| >= 2 && r == d[..2] + seg + d[2..]
    ensures |r| >= 2 && r[..2] == d[..2] && r[2..] == seg + d[2..]
  {
  }

  /** A whole APP1 segment in front is scanned first, and its orientation is the one read. */
  lemma FrontScan(s: Bytes, seg: Bytes, rest: Bytes)
    requires Whole(seg) && IsApp1(seg) && s == seg + rest
    ensures Segments(s) == [seg] + Segments(rest) && Rest(s) == Rest(rest)
    ensures Orientation(Segments(s)) == ExifOrientation(seg[4..])
  {
    WholeFirst(seg, rest);
    OrientationStep(seg, Segments(rest));
  }

  /** The written segment is scanned first, and its orientation read, whatever follows it. */
  lemma InjectedScan(d: Bytes, r: Bytes, o: int)
    requires IsJpeg(d) && 0 <= o < 0x1_0000 && r == d[..2] + OrientationSegment(o) + d[2..]
    ensures IsJpeg(r) && OrientationOf(r) == o && Rest(r[2..]) == Rest(d[2..])
    ensures Segments(r[2..]) == [OrientationSegment(o)] + Segments(d[2..])
  {
    var seg := OrientationSegment(o);
    SegmentIsWhole(o);
    OrientationReadsBack(o);
    InjectedBody(d, r, seg);
    FrontScan(r[2..], seg, d[2..]);
    assert IsJpeg(r) by { assert r[0] == r[..2][0] == d[0] && r[1] == r[..2][1] == d[1]; }
  }

  /** The segment is written field by field. */
  method WriteSegment(o: int) returns (app1: Bytes)
    requires 0 <= o < 0x1_0000
    ensures app1 == OrientationSegment(o)
  {
    var exif := EXIF_MAGIC + [0x49, 0x49];
    exif := exif + PutU16LE(0x002A);
    exif := exif + PutU32LE(8);
    exif := exif + PutU16LE(1);
    assert exif == EXIF_MAGIC + TiffHeader();
    var entry := PutU16LE(ORIENTATION);
    entry := entry + PutU16LE(3);
    entry := entry + PutU32LE(1);
    entry := entry + PutU16LE(o);
    entry := entry + PutU16LE(0);
    exif := exif + entry + PutU32LE(0);
    assert exif == EXIF_MAGIC + MinimalTiff(o);
    app1 := [0xFF, APP1] + PutU16BE(|exif| + 2) + exif;
  }

  /** The segment stands behind the SOI marker: the scanner finds it there, before the segments of
      the file, and reads the orientation back. */
  method InjectOrientation(d: Bytes, o: int) returns (r: Bytes)
    requires |d| >= 2 && 0 <= o < 0x1_0000
    ensures |r| == |d| + 36 && r[..2] == d[..2] && r[2..38] == OrientationSegment(o) && r[38..] == d[2..]
    ensures IsJpeg(d) ==> IsJpeg(r) && OrientationOf(r) == o && Rest(r[2..]) == Rest(d[2..])
    ensures IsJpeg(d) ==> Segments(r[2..]) == [OrientationSegment(o)] + Segments(d[2..])
  {
    var app1 := WriteSegment(o);
    SegmentIsWhole(o);
    r := d[..2] + app1 + d[2..];
    if IsJpeg(d) { InjectedScan(d, r, o); }
  }

  function Stripped(d: Bytes): Bytes {
    if !IsJpeg(d) then d
    else
      var result := d[..2] + Filtered(d[2..]);
      if |result| == |d| then d
      else if 1 < OrientationOf(d) < 0x1_0000 then result[..2] + OrientationSegment(OrientationOf(d)) + result[2..]
      else result
  }

  method StripEXIF(d: Bytes) returns (r: Bytes)
    ensures r == Stripped(d)
  {
    if !IsJpeg(d) { return d; }
    var o := FindOrientation(d);
    r := RemoveApp1Markers(d);
    if |r| == |d| { return d; }
    OrientationIsU16(Segments(d[2..]));
    if o > 1 {
      r := InjectOrientation(r, o);
      assert r == r[..2] + r[2..38] + r[38..];
    }
  }

  lemma {:induction false} FindEntryIsU16(little: bool, tiff: Bytes, dir: nat, count: nat, j: nat)
    ensures 0 <= FindEntry(little, tiff, dir, count, j) < 0x1_0000
    decreases count - j
  {
    if j < count && dir + 2 + 12 * j + 12 <= |tiff| { FindEntryIsU16(little, tiff, dir, count, j + 1); }
  }

  lemma {:induction false} OrientationIsU16(segs: seq<Bytes>)
    ensures 0 <= Orientation(segs) < 0x1_0000
  {
    if segs != [] {
      if IsApp1(segs[0]) && |segs[0]| >= 4 {
        var seg := segs[0][4..];
        if |seg| >= 14 {
          var tiff := seg[6..];
          var little := tiff[0] == 0x49;
          var dir := U32(little, tiff, 4);
          if dir + 2 <= |tiff| { FindEntryIsU16(little, tiff, dir, U16(little, tiff, dir), 0); }
        }
      } else {
        OrientationIsU16(segs[1..]);
      }
    }
  }
}
