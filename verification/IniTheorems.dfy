/** What is saved reads back: exactly if every string survives trimming, line ends and the scanner. */
module IniTheorems {
  import opened Prelude
  import opened Ini

  // ---------------------------------------------------------------- trimming

  lemma {:induction false} TrimLeftLaws(s: string, ch: char)
    ensures var t := TrimLeft(s); (t == "" || !IsSpace(t[0])) && (Free(s, ch) ==> Free(t, ch))
  {
    if s != "" && IsSpace(s[0]) { TrimLeftLaws(s[1..], ch); }
  }

  lemma {:induction false} TrimRightLaws(s: string, ch: char)
    ensures var t := TrimRight(s);
            && t <= s && (t == "" || !IsSpace(t[|t| - 1]))
            && (s != "" && !IsSpace(s[0]) ==> t != "")
            && (Free(s, ch) ==> Free(t, ch))
  {
    if s != "" && IsSpace(s[|s| - 1]) { TrimRightLaws(s[..|s| - 1], ch); }
  }

  /** Trimming leaves no white space at the ends and brings in no new character. */
  lemma TrimLaws(s: string, ch: char)
    ensures Trimmed(Trim(s)) && (Free(s, ch) ==> Free(Trim(s), ch))
  {
    TrimLeftLaws(s, ch);
    TrimRightLaws(TrimLeft(s), ch);
  }

  /** A blank on either side of a trimmed text is trimmed off. */
  lemma TrimBlank(s: string)
    requires Trimmed(s)
    ensures Trim(s) == s && Trim(" " + s) == s && Trim(s + " ") == s
  {
    assert (" " + s)[1..] == s;
    assert (s + " ")[..|s|] == s;
    if s == "" {
      assert s + " " == " " + s;
    } else {
      assert (s + " ")[0] == s[0];
      assert TrimLeft(s + " ") == s + " ";
    }
  }

  // ---------------------------------------------------------------- lengths

  ghost predicate Blank(s: string) {
    forall i :: 0 <= i < |s| ==> IsSpace(s[i])
  }

  lemma {:induction false} TrimLeftCuts(s: string)
    ensures |TrimLeft(s)| <= |s|
    ensures var n := |s| - |TrimLeft(s)|; TrimLeft(s) == s[n..] && Blank(s[..n])
  {
    if s != "" && IsSpace(s[0]) { TrimLeftCuts(s[1..]); }
  }

  lemma {:induction false} TrimRightCuts(s: string)
    ensures |TrimRight(s)| <= |s|
    ensures var n := |TrimRight(s)|; TrimRight(s) == s[..n] && Blank(s[n..])
  {
    if s != "" && IsSpace(s[|s| - 1]) { TrimRightCuts(s[..|s| - 1]); }
  }

  /** Trimming takes away white space at both ends and nothing else. */
  lemma TrimCuts(s: string)
    ensures exists i, j :: 0 <= i <= j <= |s| && Trim(s) == s[i..j] && Blank(s[..i]) && Blank(s[j..])
    ensures Trimmed(Trim(s))
  {
    TrimLaws(s, ' ');
    TrimLeftCuts(s);
    TrimRightCuts(TrimLeft(s));
    var i := |s| - |TrimLeft(s)|;
    var j := i + |Trim(s)|;
    assert Trim(s) == s[i..j];
    forall k | 0 <= k < |s| - j ensures IsSpace(s[j..][k]) { assert s[j..][k] == TrimLeft(s)[|Trim(s)|..][k]; }
  }

  /** A number is digits behind at most one sign, and no more than 64 bits hold. */
  lemma AtoiReads(d: string, n: int)
    requires d != "" && AllDigits(d) && n == ValueOf(d)
    ensures Atoi(d) == Atoi("+" + d) == if n <= 0x7fff_ffff_ffff_ffff then Some(n) else None
    ensures Atoi("-" + d) == if n <= 0x8000_0000_0000_0000 then Some(-n) else None
  {
    assert ("+" + d)[1..] == d && ("-" + d)[1..] == d;
  }

  lemma AtoiRefuses(s: string)
    requires Atoi(s).Some?
    ensures exists d :: d != "" && AllDigits(d) && (s == d || s == "+" + d || s == "-" + d)
  {
    var d := if s[0] == '-' || s[0] == '+' then s[1..] else s;
    assert d != "" && AllDigits(d);
    assert s == [s[0]] + s[1..];
  }

  lemma {:induction false} ByteLengthOfSum(a: string, b: string)
    ensures ByteLength(a + b) == ByteLength(a) + ByteLength(b)
  {
    if a == "" {
      assert a + b == b;
    } else {
      assert (a + b)[1..] == a[1..] + b;
      ByteLengthOfSum(a[1..], b);
    }
  }

  function Pow10(k: nat): nat {
    if k == 0 then 1 else 10 * Pow10(k - 1)
  }

  // ---------------------------------------------------------------- numbers

  lemma Pow10Five(k: nat)
    ensures Pow10(k + 5) == 100_000 * Pow10(k)
  {
    assert Pow10(k + 5) == 10 * Pow10(k + 4) == 100 * Pow10(k + 3) == 1000 * Pow10(k + 2) == 10_000 * Pow10(k + 1);
  }

  /** Printed digits are digits, read back, and no more of them than there must be. */
  lemma {:induction false} DigitsLaws(n: nat, k: nat)
    requires k > 0 && n < Pow10(k)
    ensures AllDigits(Digits(n)) && ValueOf(Digits(n)) == n && 0 < |Digits(n)| <= k
  {
    if n < 10 {
      assert Digits(n)[..0] == "";
    } else {
      assert Pow10(1) == 10;
      DigitsLaws(n / 10, k - 1);
      var front := Digits(n / 10);
      assert Digits(n)[..|front|] == front;
    }
  }

  lemma DigitsOfWord(m: nat)
    requires m <= -INT_MIN
    ensures AllDigits(Digits(m)) && ValueOf(Digits(m)) == m && 0 < |Digits(m)| <= 19
  {
    assert Pow10(4) == 10_000;
    Pow10Five(4);
    Pow10Five(9);
    Pow10Five(14);
    DigitsLaws(m, 19);
  }

  /** A 64-bit number is read back from its decimal form. */
  lemma DecimalReadsBack(n: int)
    requires INT_MIN <= n <= INT_MAX
    ensures Atoi(Decimal(n)) == Some(n)
  {
    var m := if n < 0 then -n else n;
    DigitsOfWord(m);
    assert n < 0 ==> Decimal(n)[1..] == Digits(m);
  }

  /** The decimal form is short and plain. */
  lemma DecimalIsPlain(n: int)
    requires INT_MIN <= n <= INT_MAX
    ensures Trimmed(Decimal(n)) && Free(Decimal(n), '\n') && Decimal(n) != "" && ByteLength(Decimal(n)) <= 20
  {
    DigitsOfWord(if n < 0 then -n else n);
    ByteLengthOfAscii(Decimal(n));
  }

  // ---------------------------------------------------------------- reading in pieces

  lemma IndexInFront(a: string, x: string, ch: char)
    requires !Free(a, ch)
    ensures IndexOf(a + x, ch) == IndexOf(a, ch) < |a|
  {
    IndexIs(a + x, ch, IndexOf(a, ch));
  }

  predicate EndsLine(a: string) {
    a == "" || a[|a| - 1] == '\n'
  }

  /** Reading takes one line and goes on behind its end. */
  lemma ReadStep(fields: seq<Field>, text: string, line: string, next: string, vals: Values, n: nat)
    requires IndexOf(text, '\n') < |text| && line == text[..IndexOf(text, '\n')] && next == text[IndexOf(text, '\n') + 1..]
    ensures Read(fields, text, vals, n) ==
              if ByteLength(line) >= LINE_LIMIT then Stopped(vals, LineTooLong)
              else Onward(fields, ReadLine(fields, line, vals, n + 1), next)
  {
  }

  lemma SplitSum(a: string, x: string, end: nat)
    requires end < |a|
    ensures (a + x)[..end] == a[..end] && (a + x)[end + 1..] == a[end + 1..] + x
  {
  }

  /** What stands behind a complete line is read from where the lines before it have got to. */
  lemma {:induction false} ReadCompose(fields: seq<Field>, a: string, x: string, vals: Values, n: nat)
    requires EndsLine(a)
    ensures Read(fields, a + x, vals, n) == Onward(fields, Read(fields, a, vals, n), x)
    decreases |a|
  {
    if a == "" {
      assert a + x == x;
    } else {
      IndexInFront(a, x, '\n');
      var end := IndexOf(a, '\n');
      SplitSum(a, x, end);
      var line, next := a[..end], a[end + 1..];
      ReadStep(fields, a, line, next, vals, n);
      ReadStep(fields, a + x, line, next + x, vals, n);
      var step := ReadLine(fields, line, vals, n + 1);
      if step.Reached? { ReadCompose(fields, next, x, step.vals, step.lines); }
    }
  }

  lemma ReadSingle(fields: seq<Field>, raw: string, vals: Values, n: nat)
    requires Free(raw, '\n')
    ensures Read(fields, raw + "\n", vals, n) ==
              if ByteLength(raw) >= LINE_LIMIT then Stopped(vals, LineTooLong) else ReadLine(fields, raw, vals, n + 1)
  {
    var text := raw + "\n";
    IndexIs(text, '\n', |raw|);
    assert text[..|raw|] == raw && text[|raw| + 1..] == "";
  }

  // ---------------------------------------------------------------- one field

  predicate Survives(s: string) {
    Trimmed(s) && Free(s, '\n')
  }

  /** A value whose line can be read back. */
  predicate Savable(tag: string, v: Value) {
    v.Str? ==> Survives(v.s) && ByteLength(tag + " = " + v.s) < LINE_LIMIT
  }

  /** The lines of a file: tag, equals sign between blanks, and value; a zero value has none. */
  lemma ChunkText(tag: string, s: string, n: int)
    ensures s != "" ==> Chunk(tag, Str(s)) == tag + " = " + s + "\n"
    ensures n != 0 ==> Chunk(tag, Int(n)) == tag + " = " + Decimal(n) + "\n"
    ensures Chunk(tag, Bool(true)) == tag + " = " + "true" + "\n"
    ensures Chunk(tag, Str("")) == Chunk(tag, Int(0)) == Chunk(tag, Bool(false)) == ""
  {
  }

  /** A line is too long from 65536 bytes on. */
  lemma TooLongExactly(fields: seq<Field>, raw: string, vals: Values, n: nat)
    requires Free(raw, '\n')
    ensures Read(fields, raw + "\n", vals, n) == Stopped(vals, LineTooLong) <==> ByteLength(raw) >= 65536
  {
    ReadSingle(fields, raw, vals, n);
  }

  lemma {:induction false} KindFound(fields: seq<Field>, i: nat)
    requires i < |fields| && forall j, k :: 0 <= j < k < |fields| ==> fields[j].tag != fields[k].tag
    ensures KindOf(fields, fields[i].tag) == Some(fields[i].kind)
  {
    if i < |fields| - 1 { KindFound(fields[..|fields| - 1], i); }
  }

  lemma LineShape(tag: string, shown: string)
    requires Plain(tag) && Trimmed(shown) && shown != ""
    ensures var raw := tag + " = " + shown;
            && Trimmed(raw) && raw[0] != '#' && DropReturn(raw) == raw
            && IndexOf(raw, '=') == |tag| + 1
            && raw[..|tag| + 1] == tag + " " && raw[|tag| + 2..] == " " + shown
  {
    var raw := tag + " = " + shown;
    assert raw == (tag + " ") + ("=" + (" " + shown));
    assert raw[|raw| - 1] == shown[|shown| - 1] && raw[0] == tag[0];
    IndexIs(raw, '=', |tag| + 1);
  }

  /** How a line of a key, an equals sign and a value is taken apart. */
  lemma LineTaken(fields: seq<Field>, tag: string, shown: string, vals: Values, n: nat)
    requires Plain(tag) && Trimmed(shown) && shown != ""
    ensures ReadLine(fields, tag + " = " + shown, vals, n) ==
              match KindOf(fields, tag) { case None => Reached(vals, n) case Some(kind) => Assign(vals, kind, tag, shown, n) }
  {
    LineShape(tag, shown);
    TrimBlank(tag + " = " + shown);
    TrimBlank(tag);
    TrimBlank(shown);
  }

  lemma ShownSurvives(tag: string, v: Value, k: Kind)
    requires Plain(tag) && HasKind(v, k) && Savable(tag, v) && !IsZero(v)
    ensures Show(v) != "" && Survives(Show(v)) && ByteLength(tag + " = " + Show(v)) < LINE_LIMIT
  {
    ByteLengthOfSum(tag + " = ", Show(v));
    ByteLengthOfSum(tag, " = ");
    ByteLengthOfAscii(" = ");
    if v.Int? {
      DecimalIsPlain(v.n);
    } else if v.Bool? {
      ByteLengthOfAscii(Show(v));
    }
  }

  lemma RawIsFree(tag: string, shown: string)
    requires Plain(tag) && Free(shown, '\n')
    ensures Free(tag + " = " + shown, '\n')
  {
    var raw := tag + " = " + shown;
    forall j | 0 <= j < |raw| ensures raw[j] != '\n' {
      assert j < |tag| ==> raw[j] == tag[j] && !IsSpace(tag[j]);
      assert j >= |tag| + 3 ==> raw[j] == shown[j - |tag| - 3];
    }
  }

  /** The line of a field assigns the value it was printed from. */
  lemma ChunkReads(fields: seq<Field>, i: nat, v: Value, vals: Values, n: nat)
    requires IsTable(fields) && i < |fields| && HasKind(v, fields[i].kind) && Savable(fields[i].tag, v) && !IsZero(v)
    ensures Read(fields, Chunk(fields[i].tag, v), vals, n) == Reached(vals[fields[i].tag := v], n + 1)
  {
    var tag := fields[i].tag;
    var raw := tag + " = " + Show(v);
    ShownSurvives(tag, v, fields[i].kind);
    KindFound(fields, i);
    LineTaken(fields, tag, Show(v), vals, n + 1);
    RawIsFree(tag, Show(v));
    ReadSingle(fields, raw, vals, n);
    if v.Int? { DecimalReadsBack(v.n); }
  }

  // ---------------------------------------------------------------- all fields

  /** Values laid over others: zero values are not printed and leave what was there. */
  ghost function Laid(fields: seq<Field>, vals: Values, start: Values): Values
    requires Fits(fields, vals)
  {
    if fields == [] then start
    else
      var last := fields[|fields| - 1].tag;
      var o := Laid(fields[..|fields| - 1], vals, start);
      if IsZero(vals[last]) then o else o[last := vals[last]]
  }

  ghost function Overlay(vals: Values, start: Values): Values {
    map tag | tag in start :: if tag in vals && !IsZero(vals[tag]) then vals[tag] else start[tag]
  }

  /** A complete set of values for a table. */
  ghost predicate Complete(fields: seq<Field>, vals: Values) {
    Fits(fields, vals) && forall tag :: tag in vals ==> exists i :: 0 <= i < |fields| && fields[i].tag == tag
  }

  lemma {:induction false} LaidAt(fields: seq<Field>, vals: Values, start: Values, tag: string)
    requires Fits(fields, vals)
    ensures var o := Laid(fields, vals, start);
            if exists i :: 0 <= i < |fields| && fields[i].tag == tag && !IsZero(vals[tag])
            then tag in o && o[tag] == vals[tag]
            else (tag in o <==> tag in start) && (tag in o ==> o[tag] == start[tag])
  {
    if fields != [] {
      var front := fields[..|fields| - 1];
      LaidAt(front, vals, start, tag);
      if i :| 0 <= i < |fields| && fields[i].tag == tag && !IsZero(vals[tag]) {
        if i < |front| { assert front[i].tag == tag; }
      } else {
        forall i | 0 <= i < |front| && front[i].tag == tag ensures IsZero(vals[tag]) { assert fields[i].tag == tag; }
      }
    }
  }

  lemma LaidIsOverlay(fields: seq<Field>, vals: Values, start: Values)
    requires Complete(fields, vals) && Complete(fields, start)
    ensures Laid(fields, vals, start) == Overlay(vals, start)
  {
    var o := Laid(fields, vals, start);
    forall tag ensures (tag in o <==> tag in start) && (tag in o ==> o[tag] == Overlay(vals, start)[tag]) {
      LaidAt(fields, vals, start, tag);
      if tag in start {
        var i :| 0 <= i < |fields| && fields[i].tag == tag;
        assert fields[i].tag in vals;
      }
    }
  }

  lemma PrintedEndsLine(fields: seq<Field>, vals: Values)
    requires Fits(fields, vals)
    ensures EndsLine(Printed(fields, vals))
  {
    if fields != [] {
      var f := fields[|fields| - 1].tag;
      PrintedEndsLine(fields[..|fields| - 1], vals);
      if IsZero(vals[f]) {
        assert Printed(fields, vals) == Printed(fields[..|fields| - 1], vals);
      }
    }
  }

  ghost predicate AllSavable(fields: seq<Field>, vals: Values)
    requires Fits(fields, vals)
  {
    forall i :: 0 <= i < |fields| ==> Savable(fields[i].tag, vals[fields[i].tag])
  }

  /** How reading the first k fields ends. */
  ghost function PrefixRead(fields: seq<Field>, k: nat, vals: Values, start: Values): Progress
    requires Fits(fields, vals) && k <= |fields|
  {
    Read(fields, Printed(fields[..k], vals), start, 0)
  }

  /** One field more, as text and as values. */
  lemma PrintedStep(fields: seq<Field>, k: nat, vals: Values)
    requires Fits(fields, vals) && k < |fields|
    ensures Printed(fields[..k + 1], vals) == Printed(fields[..k], vals) + Chunk(fields[k].tag, vals[fields[k].tag])
    ensures EndsLine(Printed(fields[..k], vals))
  {
    assert fields[..k + 1][..k] == fields[..k];
    PrintedEndsLine(fields[..k], vals);
  }

  lemma LaidStep(fields: seq<Field>, k: nat, vals: Values, start: Values)
    requires Fits(fields, vals) && k < |fields|
    ensures Laid(fields[..k + 1], vals, start) == LaidOne(Laid(fields[..k], vals, start), fields[k].tag, vals[fields[k].tag])
  {
    assert fields[..k + 1][..k] == fields[..k];
  }

  function LaidOne(o: Values, tag: string, v: Value): Values {
    if IsZero(v) then o else o[tag := v]
  }

  lemma ChunkOrNothing(fields: seq<Field>, k: nat, v: Value, o: Values, lines: nat) returns (next: nat)
    requires IsTable(fields) && k < |fields| && HasKind(v, fields[k].kind) && Savable(fields[k].tag, v)
    ensures Read(fields, Chunk(fields[k].tag, v), o, lines) == Reached(LaidOne(o, fields[k].tag, v), next)
  {
    if IsZero(v) { return lines; }
    ChunkReads(fields, k, v, o, lines);
    next := lines + 1;
  }

  /** One field more, as read. */
  lemma PrintedNext(fields: seq<Field>, k: nat, vals: Values, start: Values, lines: nat) returns (next: nat)
    requires IsTable(fields) && Fits(fields, vals) && k < |fields| && AllSavable(fields, vals)
    requires PrefixRead(fields, k, vals, start) == Reached(Laid(fields[..k], vals, start), lines)
    ensures PrefixRead(fields, k + 1, vals, start) == Reached(Laid(fields[..k + 1], vals, start), next)
  {
    var tag := fields[k].tag;
    PrintedStep(fields, k, vals);
    LaidStep(fields, k, vals, start);
    ReadCompose(fields, Printed(fields[..k], vals), Chunk(tag, vals[tag]), start, 0);
    next := ChunkOrNothing(fields, k, vals[tag], Laid(fields[..k], vals, start), lines);
  }

  /** Reading the first k printed fields lays their values over what was there. */
  lemma {:induction false} PrintedReads(fields: seq<Field>, k: nat, vals: Values, start: Values) returns (lines: nat)
    requires IsTable(fields) && Fits(fields, vals) && k <= |fields| && AllSavable(fields, vals)
    ensures PrefixRead(fields, k, vals, start) == Reached(Laid(fields[..k], vals, start), lines)
  {
    if k == 0 { return 0; }
    lines := PrintedReads(fields, k - 1, vals, start);
    lines := PrintedNext(fields, k - 1, vals, start, lines);
  }

  /** Reading over any start gives each field its saved value or, where that was zero, what it had. */
  lemma SavedLaysOver(fields: seq<Field>, vals: Values, start: Values)
    requires IsTable(fields) && Complete(fields, vals) && Complete(fields, start) && AllSavable(fields, vals)
    ensures var p := Read(fields, Printed(fields, vals), start, 0);
            p.Reached? && p.vals == Overlay(vals, start)
  {
    assert fields[..|fields|] == fields;
    var lines := PrintedReads(fields, |fields|, vals, start);
    LaidIsOverlay(fields, vals, start);
  }

  // ---------------------------------------------------------------- the converse

  ghost predicate Clean(vals: Values) {
    forall tag :: tag in vals && vals[tag].Str? ==> Survives(vals[tag].s)
  }

  lemma ReadLineKeepsClean(fields: seq<Field>, raw: string, vals: Values, n: nat)
    requires Clean(vals) && Free(raw, '\n')
    ensures Clean(ReadLine(fields, raw, vals, n).vals)
  {
    var text := Trim(DropReturn(raw));
    TrimLaws(DropReturn(raw), '\n');
    var eq := IndexOf(text, '=');
    if eq < |text| {
      TrimLaws(text[eq + 1..], '\n');
    }
  }

  /** Reading never stores a string with white space at an end or a line end inside. */
  lemma {:induction false} ReadKeepsClean(fields: seq<Field>, text: string, vals: Values, n: nat)
    requires Clean(vals)
    ensures Clean(Read(fields, text, vals, n).vals)
    decreases |text|
  {
    if text != "" {
      var end := IndexOf(text, '\n');
      ReadLineKeepsClean(fields, text[..end], vals, n + 1);
      match ReadLine(fields, text[..end], vals, n + 1)
      case Stopped(v, e) =>
      case Reached(v, m) => ReadKeepsClean(fields, if end == |text| then "" else text[end + 1..], v, m);
    }
  }

  /** A line that is read fits. */
  lemma LineFits(fields: seq<Field>, tag: string, v: Value, vals: Values, n: nat)
    requires Plain(tag) && v.Str? && Free(v.s, '\n') && v.s != "" && Read(fields, Chunk(tag, v), vals, n).Reached?
    ensures ByteLength(tag + " = " + v.s) < LINE_LIMIT
  {
    RawIsFree(tag, v.s);
    ReadSingle(fields, tag + " = " + v.s, vals, n);
  }

  lemma FrontIsRead(fields: seq<Field>, k: nat, vals: Values, start: Values)
    requires Fits(fields, vals) && k < |fields| && PrefixRead(fields, k + 1, vals, start).Reached?
    ensures PrefixRead(fields, k, vals, start).Reached?
    ensures var p := PrefixRead(fields, k, vals, start);
            Read(fields, Chunk(fields[k].tag, vals[fields[k].tag]), p.vals, p.lines).Reached?
  {
    var tag := fields[k].tag;
    PrintedStep(fields, k, vals);
    ReadCompose(fields, Printed(fields[..k], vals), Chunk(tag, vals[tag]), start, 0);
  }

  /** If all of a printed table is read, then so is every part of it. */
  lemma {:induction false} PrefixesAreRead(fields: seq<Field>, i: nat, k: nat, vals: Values, start: Values)
    requires Fits(fields, vals) && i <= k <= |fields| && PrefixRead(fields, k, vals, start).Reached?
    ensures PrefixRead(fields, i, vals, start).Reached?
    decreases k - i
  {
    if i < k {
      PrefixesAreRead(fields, i + 1, k, vals, start);
      FrontIsRead(fields, i, vals, start);
    }
  }

  lemma EmptyLineFits(tag: string)
    requires Plain(tag)
    ensures ByteLength(tag + " = " + "") < LINE_LIMIT
  {
    ByteLengthOfSum(tag + " = ", "");
    ByteLengthOfSum(tag, " = ");
    ByteLengthOfAscii(" = ");
  }

  lemma EachLineFits(fields: seq<Field>, vals: Values, start: Values, i: nat)
    requires IsTable(fields) && Fits(fields, vals) && i < |fields| && PrefixRead(fields, |fields|, vals, start).Reached?
    requires vals[fields[i].tag].Str? && Free(vals[fields[i].tag].s, '\n')
    ensures ByteLength(fields[i].tag + " = " + vals[fields[i].tag].s) < LINE_LIMIT
  {
    var tag := fields[i].tag;
    if vals[tag].s != "" {
      PrefixesAreRead(fields, i + 1, |fields|, vals, start);
      FrontIsRead(fields, i, vals, start);
      var p := PrefixRead(fields, i, vals, start);
      LineFits(fields, tag, vals[tag], p.vals, p.lines);
    } else {
      EmptyLineFits(tag);
    }
  }

  /** A field that reads back as it was is savable. */
  lemma ReadBackMeansSavable(fields: seq<Field>, vals: Values, start: Values, i: nat)
    requires IsTable(fields) && Fits(fields, vals) && i < |fields| && Clean(vals) && PrefixRead(fields, |fields|, vals, start).Reached?
    ensures Savable(fields[i].tag, vals[fields[i].tag])
  {
    if vals[fields[i].tag].Str? { EachLineFits(fields, vals, start, i); }
  }

  lemma SameKeys(fields: seq<Field>, a: Values, b: Values)
    requires Complete(fields, a) && Fits(fields, b)
    ensures a.Keys <= b.Keys
  {
    forall tag | tag in a ensures tag in b {
      var i :| 0 <= i < |fields| && fields[i].tag == tag;
      assert fields[i].tag in b;
    }
  }

  lemma ReadsBackExactly(fields: seq<Field>, vals: Values, start: Values)
    requires IsTable(fields) && Complete(fields, vals) && Complete(fields, start) && Clean(start)
    ensures var p := Read(fields, Printed(fields, vals), start, 0);
            (p.Reached? && p.vals == vals) <==>
              AllSavable(fields, vals) && forall tag :: tag in vals && IsZero(vals[tag]) ==> start[tag] == vals[tag]
  {
    var p := Read(fields, Printed(fields, vals), start, 0);
    if p.Reached? && p.vals == vals {
      ReadKeepsClean(fields, Printed(fields, vals), start, 0);
      assert fields[..|fields|] == fields;
      forall i | 0 <= i < |fields| ensures Savable(fields[i].tag, vals[fields[i].tag]) {
        ReadBackMeansSavable(fields, vals, start, i);
      }
    }
    if AllSavable(fields, vals) { SavedLaysOver(fields, vals, start); }
    SameKeys(fields, vals, start);
    SameKeys(fields, start, vals);
    OverlayIsSame(vals, start);
  }

  lemma OverlayIsSame(vals: Values, start: Values)
    requires vals.Keys == start.Keys
    ensures Overlay(vals, start) == vals <==> forall tag :: tag in vals && IsZero(vals[tag]) ==> start[tag] == vals[tag]
  {
    if Overlay(vals, start) == vals {
      forall tag | tag in vals && IsZero(vals[tag]) ensures start[tag] == vals[tag] {
        assert Overlay(vals, start)[tag] == start[tag];
      }
    }
  }

  // ---------------------------------------------------------------- the table of murlog.ini

  lemma BlanksAreComplete(fields: seq<Field>)
    requires IsTable(fields)
    ensures Complete(fields, Blanks(fields)) && Clean(Blanks(fields))
  {
    forall i | 0 <= i < |fields| ensures fields[i].tag in Blanks(fields) && HasKind(Blanks(fields)[fields[i].tag], fields[i].kind) {
      BlanksAt(fields, i);
    }
    forall tag | tag in Blanks(fields)
      ensures (exists i :: 0 <= i < |fields| && fields[i].tag == tag) && IsZero(Blanks(fields)[tag])
    {
      BlanksHold(fields, tag);
    }
  }

  /** Whether a zero value is that of the start is a matter of the start only. */
  lemma ZerosAgree(fields: seq<Field>, vals: Values, start: Values, tag: string)
    requires Complete(fields, vals) && Complete(fields, start) && tag in vals && IsZero(vals[tag])
    ensures tag in start && (IsZero(start[tag]) <==> start[tag] == vals[tag])
  {
    var i :| 0 <= i < |fields| && fields[i].tag == tag;
    assert HasKind(vals[tag], fields[i].kind) && HasKind(start[tag], fields[i].kind);
  }

  /** Saving and reading over a clean start gives back what was saved exactly if every string is
      savable and no zero is saved where the start has something else. */
  lemma ReadsBackOver(fields: seq<Field>, vals: Values, start: Values)
    requires IsTable(fields) && Complete(fields, vals) && Complete(fields, start) && Clean(start)
    ensures var p := Read(fields, Printed(fields, vals), start, 0);
            (p.Reached? && p.vals == vals) <==>
              AllSavable(fields, vals) && forall tag :: tag in vals && IsZero(vals[tag]) ==> tag in start && IsZero(start[tag])
  {
    ReadsBackExactly(fields, vals, start);
    forall tag | tag in vals && IsZero(vals[tag])
      ensures tag in start && (IsZero(start[tag]) <==> start[tag] == vals[tag])
    {
      ZerosAgree(fields, vals, start, tag);
    }
  }

  lemma BlankOver(fields: seq<Field>, vals: Values)
    requires IsTable(fields) && Complete(fields, vals)
    ensures var p := Read(fields, Printed(fields, vals), Blanks(fields), 0);
            (p.Reached? && p.vals == vals) <==> AllSavable(fields, vals)
  {
    BlanksAreComplete(fields);
    ReadsBackOver(fields, vals, Blanks(fields));
    SameKeys(fields, vals, Blanks(fields));
    forall tag | tag in vals ensures IsZero(Blanks(fields)[tag]) { BlanksHold(fields, tag); }
  }

  /** Over a blank configuration, what is saved reads back exactly if every string is savable. */
  lemma BlankReadsBack(vals: Values)
    requires Complete(FIELDS, vals)
    ensures var p := Read(FIELDS, Printed(FIELDS, vals), BlankValues(), 0);
            (p.Reached? && p.vals == vals) <==> AllSavable(FIELDS, vals)
  {
    FieldsAreTable();
    BlankOver(FIELDS, vals);
  }

  lemma StringUpdate(fields: seq<Field>, vals: Values, i: nat, s: string)
    requires IsTable(fields) && Complete(fields, vals) && Clean(vals)
    requires i < |fields| && fields[i].kind == StringKind && Survives(s)
    ensures Complete(fields, vals[fields[i].tag := Str(s)]) && Clean(vals[fields[i].tag := Str(s)])
  {
  }

  lemma DefaultsSurvive(cgi: bool)
    ensures forall i :: 0 <= i < 6 ==> Survives(DefaultTexts(cgi)[i])
  {
    assert Survives("sqlite") && Survives("./data") && Survives("./media") && Survives("./web/dist");
    assert Survives("./dist") && Survives(":8080") && Survives("fs");
  }

  lemma SixStrings(fields: seq<Field>, v0: Values, s: seq<string>)
    requires IsTable(fields) && Complete(fields, v0) && Clean(v0)
    requires |s| == 6 <= |fields| && forall i :: 0 <= i < 6 ==> fields[i].kind == StringKind && Survives(s[i])
    ensures Complete(fields, SixUpdates(fields, v0, s)) && Clean(SixUpdates(fields, v0, s))
  {
    var v1 := v0[fields[0].tag := Str(s[0])];
    var v2 := v1[fields[1].tag := Str(s[1])];
    var v3 := v2[fields[2].tag := Str(s[2])];
    var v4 := v3[fields[3].tag := Str(s[3])];
    var v5 := v4[fields[4].tag := Str(s[4])];
    StringUpdate(fields, v0, 0, s[0]);
    StringUpdate(fields, v1, 1, s[1]);
    StringUpdate(fields, v2, 2, s[2]);
    StringUpdate(fields, v3, 3, s[3]);
    StringUpdate(fields, v4, 4, s[4]);
    StringUpdate(fields, v5, 5, s[5]);
  }

  lemma DefaultsAreComplete(cgi: bool)
    ensures Complete(FIELDS, DefaultValues(cgi)) && Clean(DefaultValues(cgi))
  {
    FieldsAreTable();
    BlanksAreComplete(FIELDS);
    DefaultsAreSix(cgi);
    DefaultsSurvive(cgi);
    SixStrings(FIELDS, BlankValues(), DefaultTexts(cgi));
  }

  /** Over the defaults, each field has its saved value or, if that was zero, its default; so the
      saved values come back exactly if they are savable and no default stands where a zero was saved. */
  lemma DefaultsReadBack(vals: Values, cgi: bool)
    requires Complete(FIELDS, vals)
    ensures var p := Read(FIELDS, Printed(FIELDS, vals), DefaultValues(cgi), 0);
            var start := DefaultValues(cgi);
            && (AllSavable(FIELDS, vals) ==> p.Reached? && p.vals == Overlay(vals, start))
            && ((p.Reached? && p.vals == vals) <==>
                  && AllSavable(FIELDS, vals)
                  && forall tag :: tag in vals && IsZero(vals[tag]) ==> tag in start && IsZero(start[tag]))
  {
    FieldsAreTable();
    DefaultsAreComplete(cgi);
    ReadBackBoth(FIELDS, vals, DefaultValues(cgi));
  }

  lemma ReadBackBoth(fields: seq<Field>, vals: Values, start: Values)
    requires IsTable(fields) && Complete(fields, vals) && Complete(fields, start) && Clean(start)
    ensures var p := Read(fields, Printed(fields, vals), start, 0);
            && (AllSavable(fields, vals) ==> p.Reached? && p.vals == Overlay(vals, start))
            && ((p.Reached? && p.vals == vals) <==>
                  && AllSavable(fields, vals)
                  && forall tag :: tag in vals && IsZero(vals[tag]) ==> tag in start && IsZero(start[tag]))
  {
    if AllSavable(fields, vals) { SavedLaysOver(fields, vals, start); }
    ReadsBackOver(fields, vals, start);
  }
}
