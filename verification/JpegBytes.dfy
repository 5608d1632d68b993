/** What the JPEG scanner and the TIFF reader say about the bytes themselves, in both byte orders. */
module JpegBytes {
  import opened Prelude
  import opened Jpeg

  /** Two bytes as a number, the high byte first or last. */
  function HighFirst(t: Bytes, i: nat): int
    requires i + 2 <= |t|
  {
    (t[i] as int) * 256 + t[i + 1]
  }

  function LowFirst(t: Bytes, i: nat): int
    requires i + 2 <= |t|
  {
    (t[i + 1] as int) * 256 + t[i]
  }

  // ---------------------------------------------------------------- the header of a segment

  /** A header segment begins with FF and a marker other than DA; its length, high byte first, counts
      itself and fits what is left. */
  lemma HeadOverBytes(s: Bytes)
    ensures HeadOf(s).Spent? <==> |s| < 4
    ensures HeadOf(s).Segment? <==> |s| >= 4 && s[0] == 0xFF && s[1] != 0xDA && 2 <= HighFirst(s, 2) <= |s| - 2
    ensures HeadOf(s).Segment? ==> HeadOf(s).size == HighFirst(s, 2) + 2
    ensures IsApp1(s) <==> |s| >= 2 && s[1] == 0xE1
  {
  }

  // ---------------------------------------------------------------- the TIFF reader

  /** The payload holds "Exif", two zeros, and then a TIFF part in the byte order of the given letter. */
  predicate ExifPayload(p: Bytes, letter: byte) {
    |p| >= 14 && p[0] == 0x45 && p[1] == 0x78 && p[2] == 0x69 && p[3] == 0x66 && p[4] == 0 && p[5] == 0 &&
    p[6] == letter && p[7] == letter
  }

  const LETTER_I: byte := 0x49
  const LETTER_M: byte := 0x4D

  /** The entry at off lies in the data and carries tag 0112, high byte first or low byte first. */
  predicate TagHighFirst(t: Bytes, off: nat) {
    off + 12 <= |t| && t[off] == 0x01 && t[off + 1] == 0x12
  }

  predicate TagLowFirst(t: Bytes, off: nat) {
    off + 12 <= |t| && t[off] == 0x12 && t[off + 1] == 0x01
  }

  lemma PayloadHead(p: Bytes, letter: byte)
    requires ExifPayload(p, letter) && (letter == LETTER_I || letter == LETTER_M)
    ensures p[..6] == EXIF_MAGIC && p[6..][..2] == [letter, letter]
    ensures ExifOrientation(p) ==
              var t, little := p[6..], letter == LETTER_I;
              if U16(little, t, 2) != 42 then 0
              else
                var dir := U32(little, t, 4);
                if dir + 2 > |t| then 0 else FindEntry(little, t, dir, U16(little, t, dir), 0)
  {
    assert p[6..][..2] == [letter, letter];
  }

  /** Anything but the magic and one of the two byte orders gives 0. */
  lemma OtherPayload(p: Bytes)
    requires !ExifPayload(p, LETTER_I) && !ExifPayload(p, LETTER_M)
    ensures ExifOrientation(p) == 0
  {
    if |p| >= 14 && p[..6] == EXIF_MAGIC {
      var m := p[..6];
      assert m[0] == p[0] && m[1] == p[1] && m[2] == p[2] && m[3] == p[3] && m[4] == p[4] && m[5] == p[5];
      assert p[6..][..2][0] == p[6] && p[6..][..2][1] == p[7];
    }
  }

  /** Entry k of the n of the directory at dir is the first that carries the tag. */
  predicate FirstHighFirst(t: Bytes, dir: nat, n: nat, k: nat) {
    k < n && TagHighFirst(t, dir + 2 + 12 * k) && forall i: nat :: i < k ==> !TagHighFirst(t, dir + 2 + 12 * i)
  }

  predicate FirstLowFirst(t: Bytes, dir: nat, n: nat, k: nat) {
    k < n && TagLowFirst(t, dir + 2 + 12 * k) && forall i: nat :: i < k ==> !TagLowFirst(t, dir + 2 + 12 * i)
  }

  lemma HighWalk(t: Bytes, dir: nat, n: nat)
    ensures forall k: nat :: FirstHighFirst(t, dir, n, k) ==> FindEntry(false, t, dir, n, 0) == HighFirst(t, dir + 2 + 12 * k + 8)
    ensures (forall i: nat :: i < n ==> !TagHighFirst(t, dir + 2 + 12 * i)) ==> FindEntry(false, t, dir, n, 0) == 0
  {
    forall i: nat ensures Tagged(false, t, dir, n, i) <==> i < n && TagHighFirst(t, dir + 2 + 12 * i) {
      var off := dir + 2 + 12 * i;
      if off + 12 <= |t| { assert U16(false, t, off) == HighFirst(t, off); }
    }
    forall k: nat | FirstHighFirst(t, dir, n, k)
      ensures FindEntry(false, t, dir, n, 0) == HighFirst(t, dir + 2 + 12 * k + 8)
    {
      FirstTaggedEntry(false, t, dir, n, 0, k);
    }
    if forall i: nat :: i < n ==> !TagHighFirst(t, dir + 2 + 12 * i) { NoTaggedEntry(false, t, dir, n, 0); }
  }

  lemma LowWalk(t: Bytes, dir: nat, n: nat)
    ensures forall k: nat :: FirstLowFirst(t, dir, n, k) ==> FindEntry(true, t, dir, n, 0) == LowFirst(t, dir + 2 + 12 * k + 8)
    ensures (forall i: nat :: i < n ==> !TagLowFirst(t, dir + 2 + 12 * i)) ==> FindEntry(true, t, dir, n, 0) == 0
  {
    forall i: nat ensures Tagged(true, t, dir, n, i) <==> i < n && TagLowFirst(t, dir + 2 + 12 * i) {
      var off := dir + 2 + 12 * i;
      if off + 12 <= |t| { assert U16(true, t, off) == LowFirst(t, off); }
    }
    forall k: nat | FirstLowFirst(t, dir, n, k)
      ensures FindEntry(true, t, dir, n, 0) == LowFirst(t, dir + 2 + 12 * k + 8)
    {
      FirstTaggedEntry(true, t, dir, n, 0, k);
    }
    if forall i: nat :: i < n ==> !TagLowFirst(t, dir + 2 + 12 * i) { NoTaggedEntry(true, t, dir, n, 0); }
  }

  /** A big-endian payload: after 00 2A, four bytes give the place of the directory, two its number of
      entries, and the value of the first entry with the tag is the orientation, each high byte first. It
      is 0 when the 42 is missing, the directory lies outside, or no entry in range has the tag. */
  lemma BigEndianOrientation(p: Bytes, k: nat)
    requires ExifPayload(p, 0x4D)
    ensures var t := p[6..];
            var dir := 0x1_0000 * HighFirst(t, 4) + HighFirst(t, 6);
            if t[2] != 0 || t[3] != 42 || dir + 2 > |t| then ExifOrientation(p) == 0
            else
              && (FirstHighFirst(t, dir, HighFirst(t, dir), k) ==> ExifOrientation(p) == HighFirst(t, dir + 2 + 12 * k + 8))
              && ((forall i: nat :: i < HighFirst(t, dir) ==> !TagHighFirst(t, dir + 2 + 12 * i)) ==> ExifOrientation(p) == 0)
  {
    var t := p[6..];
    PayloadHead(p, LETTER_M);
    assert U16(false, t, 2) == HighFirst(t, 2);
    var dir := 0x1_0000 * HighFirst(t, 4) + HighFirst(t, 6);
    assert U32(false, t, 4) == dir;
    if dir + 2 <= |t| {
      assert U16(false, t, dir) == HighFirst(t, dir);
      HighWalk(t, dir, HighFirst(t, dir));
    }
  }

  /** A little-endian payload: the same with the low byte first everywhere. */
  lemma LittleEndianOrientation(p: Bytes, k: nat)
    requires ExifPayload(p, 0x49)
    ensures var t := p[6..];
            var dir := LowFirst(t, 4) + 0x1_0000 * LowFirst(t, 6);
            if t[2] != 42 || t[3] != 0 || dir + 2 > |t| then ExifOrientation(p) == 0
            else
              && (FirstLowFirst(t, dir, LowFirst(t, dir), k) ==> ExifOrientation(p) == LowFirst(t, dir + 2 + 12 * k + 8))
              && ((forall i: nat :: i < LowFirst(t, dir) ==> !TagLowFirst(t, dir + 2 + 12 * i)) ==> ExifOrientation(p) == 0)
  {
    var t := p[6..];
    PayloadHead(p, LETTER_I);
    assert U16(true, t, 2) == LowFirst(t, 2);
    var dir := LowFirst(t, 4) + 0x1_0000 * LowFirst(t, 6);
    assert U32(true, t, 4) == dir;
    if dir + 2 <= |t| {
      assert U16(true, t, dir) == LowFirst(t, dir);
      LowWalk(t, dir, LowFirst(t, dir));
    }
  }

  lemma ThreeParts(a: Bytes, b: Bytes, c: Bytes, s: Bytes)
    requires s == a + b + c
    ensures |s| == |a| + |b| + |c|
    ensures forall i :: 0 <= i < |a| ==> s[i] == a[i]
    ensures forall i :: 0 <= i < |b| ==> s[|a| + i] == b[i]
    ensures forall i :: 0 <= i < |c| ==> s[|a| + |b| + i] == c[i]
  {
  }

  /** One entry behind the header: its value is the orientation. */
  lemma OneHighEntry(p: Bytes, o: int)
    requires |p| == 32 && ExifPayload(p, LETTER_M) && 0 <= o < 0x1_0000
    requires p[8] == 0 && p[9] == 42 && p[10] == 0 && p[11] == 0 && p[12] == 0 && p[13] == 8 && p[14] == 0 && p[15] == 1
    requires p[16] == 0x01 && p[17] == 0x12 && p[24] == o / 256 && p[25] == o % 256
    ensures ExifOrientation(p) == o
  {
    var t := p[6..];
    assert TagHighFirst(t, 10) && HighFirst(t, 8) == 1 && HighFirst(t, 18) == o;
    assert HighFirst(t, 4) == 0 && HighFirst(t, 6) == 8;
    assert FirstHighFirst(t, 8, 1, 0);
    BigEndianOrientation(p, 0);
  }

  lemma OneLowEntry(p: Bytes, o: int)
    requires |p| == 32 && ExifPayload(p, LETTER_I) && 0 <= o < 0x1_0000
    requires p[8] == 42 && p[9] == 0 && p[10] == 8 && p[11] == 0 && p[12] == 0 && p[13] == 0 && p[14] == 1 && p[15] == 0
    requires p[16] == 0x12 && p[17] == 0x01 && p[24] == o % 256 && p[25] == o / 256
    ensures ExifOrientation(p) == o
  {
    var t := p[6..];
    assert TagLowFirst(t, 10) && LowFirst(t, 8) == 1 && LowFirst(t, 18) == o;
    assert LowFirst(t, 4) == 8 && LowFirst(t, 6) == 0;
    assert FirstLowFirst(t, 8, 1, 0);
    LittleEndianOrientation(p, 0);
  }

  /** A photo of a big-endian camera: its orientation is read for every 16-bit value. */
  lemma BigEndianReadsBack(o: int, head: Bytes, entry: Bytes, p: Bytes)
    requires 0 <= o < 0x1_0000
    requires head == [0x45, 0x78, 0x69, 0x66, 0, 0, 0x4D, 0x4D, 0x00, 0x2A, 0, 0, 0, 8, 0, 1]
    requires entry == [0x01, 0x12, 0, 3, 0, 0, 0, 1, o / 256, o % 256, 0, 0]
    requires p == head + entry + [0, 0, 0, 0]
    ensures ExifOrientation(p) == o
  {
    ThreeParts(head, entry, [0, 0, 0, 0], p);
    assert p[16] == entry[0] && p[17] == entry[1] && p[24] == entry[8] && p[25] == entry[9];
    OneHighEntry(p, o);
  }

  /** The same photo of a little-endian camera. */
  lemma LittleEndianReadsBack(o: int, head: Bytes, entry: Bytes, p: Bytes)
    requires 0 <= o < 0x1_0000
    requires head == [0x45, 0x78, 0x69, 0x66, 0, 0, 0x49, 0x49, 0x2A, 0x00, 8, 0, 0, 0, 1, 0]
    requires entry == [0x12, 0x01, 3, 0, 1, 0, 0, 0, o % 256, o / 256, 0, 0]
    requires p == head + entry + [0, 0, 0, 0]
    ensures ExifOrientation(p) == o
  {
    ThreeParts(head, entry, [0, 0, 0, 0], p);
    assert p[16] == entry[0] && p[17] == entry[1] && p[24] == entry[8] && p[25] == entry[9];
    OneLowEntry(p, o);
  }

  lemma TiffParts(o: int)
    requires 0 <= o < 0x1_0000
    ensures MinimalTiff(o) == [0x49, 0x49, 42, 0, 8, 0, 0, 0, 1, 0] + OrientationEntry(o) + [0, 0, 0, 0]
    ensures |MinimalTiff(o)| == 26
  {
  }

  /** The segment written in front, byte by byte. */
  lemma SegmentBytes(o: int)
    requires 0 <= o < 0x1_0000
    ensures OrientationSegment(o) ==
              [0xFF, 0xE1, 0, 34] + ([0x45, 0x78, 0x69, 0x66, 0, 0] + ([0x49, 0x49, 42, 0, 8, 0, 0, 0, 1, 0] +
              [0x12, 0x01, 3, 0, 1, 0, 0, 0, o % 256, o / 256, 0, 0] + [0, 0, 0, 0]))
  {
    TiffParts(o);
    assert PutU16BE(34) == [0, 34];
  }

  /** The orientation of a file: that of the first segment with marker E1 among its header segments, even
      if this one holds something other than EXIF. */
  lemma {:induction false} FirstApp1Counts(segs: seq<Bytes>, k: nat)
    requires k < |segs| && forall i :: 0 <= i <= k ==> |segs[i]| >= 4
    requires segs[k][1] == 0xE1 && forall i :: 0 <= i < k ==> segs[i][1] != 0xE1
    ensures Orientation(segs) == ExifOrientation(segs[k][4..])
  {
    if k > 0 {
      assert segs[0][1] != 0xE1;
      FirstApp1Counts(segs[1..], k - 1);
    }
  }
}
