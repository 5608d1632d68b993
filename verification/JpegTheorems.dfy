/** What stripping a JPEG keeps, drops and reads back. */
module JpegTheorems {
  import opened Prelude
  import opened Jpeg

  // ---------------------------------------------------------------- scanning again

  ghost predicate AllWhole(segs: seq<Bytes>) {
    forall i :: 0 <= i < |segs| ==> Whole(segs[i])
  }

  lemma {:induction false} SegmentsAreWhole(s: Bytes)
    ensures AllWhole(Segments(s))
    decreases |s|
  {
    match HeadOf(s)
    case Segment(n) =>
      SegmentsAreWhole(s[n..]);
      assert Whole(s[..n]);
      assert Segments(s) == [s[..n]] + Segments(s[n..]);
    case _ =>
  }

  /** Segments delimit themselves: a file put together from whole segments and a rest that is no
      segment is scanned into just these. */
  lemma {:induction false} Rescan(segs: seq<Bytes>, rest: Bytes)
    requires AllWhole(segs) && !HeadOf(rest).Segment?
    ensures Segments(Join(segs) + rest) == segs
    ensures Rest(Join(segs) + rest) == rest
  {
    if segs == [] {
      assert Join(segs) + rest == rest;
    } else {
      var tail := Join(segs[1..]) + rest;
      var s := Join(segs) + rest;
      assert s == segs[0] + tail;
      assert Whole(segs[0]);
      assert HeadOf(s) == Segment(|segs[0]|);
      assert s[..|segs[0]|] == segs[0] && s[|segs[0]|..] == tail;
      Rescan(segs[1..], rest);
    }
  }

  lemma {:induction false} KeptAreWhole(segs: seq<Bytes>)
    requires AllWhole(segs)
    ensures AllWhole(WithoutApp1(segs))
  {
    if segs != [] {
      assert AllWhole(segs[1..]);
      KeptAreWhole(segs[1..]);
      assert Whole(segs[0]);
    }
  }

  predicate NoApp1(segs: seq<Bytes>) {
    forall i :: 0 <= i < |segs| ==> !IsApp1(segs[i])
  }

  lemma {:induction false} FilterLaws(segs: seq<Bytes>)
    ensures NoApp1(WithoutApp1(segs))
    ensures NoApp1(segs) ==> WithoutApp1(segs) == segs
    ensures |Join(WithoutApp1(segs))| <= |Join(segs)|
    ensures |Join(WithoutApp1(segs))| == |Join(segs)| && AllWhole(segs) ==> NoApp1(segs)
  {
    if segs != [] {
      FilterLaws(segs[1..]);
      if NoApp1(segs) { assert NoApp1(segs[1..]); }
      if |Join(WithoutApp1(segs))| == |Join(segs)| && AllWhole(segs) {
        assert Whole(segs[0]);
        forall i | 0 <= i < |segs| ensures !IsApp1(segs[i]) {
          if i > 0 { assert segs[i] == segs[1..][i - 1]; }
        }
      }
    }
  }

  /** The filter keeps every other segment, in order, and adds nothing. */
  lemma {:induction false} FilterKeepsInOrder(segs: seq<Bytes>, i: nat) returns (k: nat)
    requires i < |segs| && !IsApp1(segs[i])
    ensures k < |WithoutApp1(segs)| && WithoutApp1(segs)[k] == segs[i]
    ensures WithoutApp1(segs)[..k] == WithoutApp1(segs[..i])
  {
    if i == 0 {
      k := 0;
      assert segs[..0] == [];
    } else {
      k := FilterKeepsInOrder(segs[1..], i - 1);
      assert segs[1..][..i - 1] == segs[..i][1..];
      if !IsApp1(segs[0]) {
        assert WithoutApp1(segs) == [segs[0]] + WithoutApp1(segs[1..]);
        k := k + 1;
        assert WithoutApp1(segs)[..k] == [segs[0]] + WithoutApp1(segs[1..])[..k - 1];
      }
    }
  }

  /** The rest the filter writes: all of it after a stop, none of a leftover of up to three bytes. */
  function Tail(s: Bytes): Bytes {
    if HeadOf(Rest(s)).Stop? then Rest(s) else []
  }

  /** Segment conservation: the filtered file is scanned into exactly the segments of the original
      that are not APP1, in order, followed by the original's rest unless that was a leftover of
      one to three bytes. */
  lemma SegmentsConserved(s: Bytes)
    ensures Segments(Filtered(s)) == WithoutApp1(Segments(s))
    ensures Rest(Filtered(s)) == Tail(s)
    ensures HeadOf(Rest(s)).Stop? || |Rest(s)| < 4
  {
    SegmentsAreWhole(s);
    KeptAreWhole(Segments(s));
    ScanLosesNothing(s);
    Rescan(WithoutApp1(Segments(s)), Tail(s));
  }

  /** Nothing is lost exactly when there was no APP1 segment and no leftover. */
  lemma SameLength(s: Bytes)
    ensures |Filtered(s)| <= |s|
    ensures |Filtered(s)| == |s| <==> NoApp1(Segments(s)) && Tail(s) == Rest(s)
    ensures |Filtered(s)| == |s| ==> Filtered(s) == s
  {
    SegmentsAreWhole(s);
    ScanLosesNothing(s);
    FilterLaws(Segments(s));
  }

  lemma {:induction false} NoApp1NoOrientation(segs: seq<Bytes>)
    requires NoApp1(segs)
    ensures Orientation(segs) == 0
  {
    if segs != [] {
      assert NoApp1(segs[1..]);
      NoApp1NoOrientation(segs[1..]);
    }
  }

  // ---------------------------------------------------------------- the result as a whole

  /** The segments of the stripped file: the kept ones, after a fresh orientation segment when the
      original's orientation asks for a rotation. */
  function StrippedSegments(segs: seq<Bytes>): seq<Bytes> {
    if 1 < Orientation(segs) < 0x1_0000 then [OrientationSegment(Orientation(segs))] + WithoutApp1(segs)
    else WithoutApp1(segs)
  }

  lemma StrippedSegmentsAreWhole(s: Bytes)
    ensures AllWhole(StrippedSegments(Segments(s)))
  {
    var segs := Segments(s);
    SegmentsAreWhole(s);
    KeptAreWhole(segs);
    if 1 < Orientation(segs) < 0x1_0000 { SegmentIsWhole(Orientation(segs)); }
  }

  /** What is written between the SOI marker and the filtered file. */
  function Mark(o: int): Bytes {
    if 1 < o < 0x1_0000 then OrientationSegment(o) else []
  }

  lemma InsertAfterMarker(soi: Bytes, mark: Bytes, body: Bytes)
    requires |soi| == 2
    ensures (soi + body)[..2] + mark + (soi + body)[2..] == soi + (mark + body)
    ensures (soi + body)[2..] == body && [] + body == body
  {
  }

  lemma JoinMark(mark: Bytes, kept: seq<Bytes>, tail: Bytes)
    ensures mark + (Join(kept) + tail) == Join([mark] + kept) + tail
  {
    assert ([mark] + kept)[1..] == kept;
  }

  lemma StrippedParts(d: Bytes)
    requires IsJpeg(d)
    ensures Stripped(d) == d[..2] + (Mark(OrientationOf(d)) + Filtered(d[2..]))
  {
    var s := d[2..];
    SameLength(s);
    assert d == d[..2] + s;
    InsertAfterMarker(d[..2], Mark(OrientationOf(d)), Filtered(s));
    if |Filtered(s)| == |s| { NoApp1NoOrientation(Segments(s)); }
  }

  lemma StrippedForm(d: Bytes)
    requires IsJpeg(d)
    ensures IsJpeg(Stripped(d))
    ensures Stripped(d)[2..] == Join(StrippedSegments(Segments(d[2..]))) + Tail(d[2..])
  {
    var segs := Segments(d[2..]);
    var o := OrientationOf(d);
    StrippedParts(d);
    InsertAfterMarker(d[..2], [], Mark(o) + Filtered(d[2..]));
    JoinMark(Mark(o), WithoutApp1(segs), Tail(d[2..]));
    assert StrippedSegments(segs) == (if Mark(o) == [] then [] else [Mark(o)]) + WithoutApp1(segs);
  }

  /** What the scanner finds in the stripped file. */
  lemma StrippedScan(d: Bytes)
    requires IsJpeg(d)
    ensures IsJpeg(Stripped(d))
    ensures Segments(Stripped(d)[2..]) == StrippedSegments(Segments(d[2..]))
    ensures Rest(Stripped(d)[2..]) == Tail(d[2..])
  {
    StrippedForm(d);
    StrippedSegmentsAreWhole(d[2..]);
    ScanLosesNothing(d[2..]);
    Rescan(StrippedSegments(Segments(d[2..])), Tail(d[2..]));
  }

  /** The orientation survives when it asks for a rotation, and reads 0 otherwise. */
  lemma OrientationKept(d: Bytes)
    requires IsJpeg(d)
    ensures OrientationOf(Stripped(d)) == if OrientationOf(d) > 1 then OrientationOf(d) else 0
  {
    var segs := Segments(d[2..]);
    StrippedScan(d);
    OrientationIsU16(segs);
    FilterLaws(segs);
    NoApp1NoOrientation(WithoutApp1(segs));
    if OrientationOf(d) > 1 {
      SegmentIsWhole(OrientationOf(d));
      OrientationReadsBack(OrientationOf(d));
    }
  }

  lemma BodyDetermines(a: Bytes, b: Bytes)
    requires IsJpeg(a) && IsJpeg(b)
    ensures a == b <==> a[2..] == b[2..]
  {
    assert a == a[..2] + a[2..] && b == b[..2] + b[2..];
    assert a[..2] == [0xFF, 0xD8] == b[..2];
  }

  /** A file is fixed by its SOI marker, segments and rest. */
  lemma ScanDetermines(a: Bytes, b: Bytes)
    requires IsJpeg(a) && IsJpeg(b)
    ensures a == b <==> Segments(a[2..]) == Segments(b[2..]) && Rest(a[2..]) == Rest(b[2..])
  {
    var s, t := a[2..], b[2..];
    BodyDetermines(a, b);
    ScanLosesNothing(s);
    ScanLosesNothing(t);
  }

  lemma WithoutFirst(segs: seq<Bytes>, o: int)
    requires 0 <= o < 0x1_0000
    ensures WithoutApp1([OrientationSegment(o)] + segs) == WithoutApp1(segs)
    ensures Orientation([OrientationSegment(o)] + segs) == o
  {
    SegmentIsWhole(o);
    OrientationReadsBack(o);
    assert ([OrientationSegment(o)] + segs)[1..] == segs;
  }

  /** Stripping once more changes nothing, for every byte sequence. */
  lemma StripIdempotent(d: Bytes)
    ensures Stripped(Stripped(d)) == Stripped(d)
  {
    if IsJpeg(d) {
      var d1 := Stripped(d);
      var segs := Segments(d[2..]);
      StrippedScan(d);
      StrippedScan(d1);
      FilterLaws(segs);
      FilterLaws(WithoutApp1(segs));
      NoApp1NoOrientation(WithoutApp1(segs));
      if 1 < Orientation(segs) < 0x1_0000 { WithoutFirst(WithoutApp1(segs), Orientation(segs)); }
      ScanLosesNothing(d[2..]);
      assert Tail(d1[2..]) == Rest(d1[2..]);
      ScanDetermines(Stripped(d1), d1);
    }
  }

  /** The file starts with the very segment the writer makes, for a rotation, and has no other. */
  ghost predicate AlreadyMinimal(segs: seq<Bytes>) {
    segs != [] && NoApp1(segs[1..]) && exists o :: 1 < o < 0x1_0000 && segs[0] == OrientationSegment(o)
  }

  /** A file comes back byte for byte exactly if it is no JPEG, or it has no leftover and either no
      APP1 segment or the minimal one only. So "no APP1 means unchanged" needs the side condition
      that the scan does not end with one to three bytes left. */
  lemma UnchangedExactly(d: Bytes)
    ensures Stripped(d) == d <==>
              !IsJpeg(d) ||
              (Tail(d[2..]) == Rest(d[2..]) && (NoApp1(Segments(d[2..])) || AlreadyMinimal(Segments(d[2..]))))
  {
    if IsJpeg(d) {
      var segs := Segments(d[2..]);
      StrippedScan(d);
      FilterLaws(segs);
      ScanDetermines(Stripped(d), d);
      if NoApp1(segs) { NoApp1NoOrientation(segs); }
      if AlreadyMinimal(segs) {
        var o :| 1 < o < 0x1_0000 && segs[0] == OrientationSegment(o);
        assert segs == [OrientationSegment(o)] + segs[1..];
        WithoutFirst(segs[1..], o);
        FilterLaws(segs[1..]);
      }
      if StrippedSegments(segs) == segs && 1 < Orientation(segs) < 0x1_0000 {
        assert segs[1..] == WithoutApp1(segs);
        assert AlreadyMinimal(segs);
      }
    }
  }

  /** A file without APP1 whose one leftover byte is dropped all the same. */
  lemma LeftoverIsDropped()
    ensures var d: Bytes := [0xFF, 0xD8, 0];
            NoApp1(Segments(d[2..])) && Stripped(d) == [0xFF, 0xD8] && Stripped(d) != d
  {
    var d: Bytes := [0xFF, 0xD8, 0];
    assert d[2..] == [0] && HeadOf(d[2..]) == Spent;
    assert Filtered(d[2..]) == [];
  }
}
