/** The form of an identifier, in bytes and in print. */
module UuidForm {
  import opened Prelude
  import opened Uuid

  const LOWER_DIGITS: string := "0123456789abcdef"
  const UPPER_DIGITS: string := "0123456789ABCDEF"

  // ---------------------------------------------------------------- bytes

  /** Version 7 and the variant of RFC 9562 take four and two bits; the other bits of the tail stay random. */
  lemma VersionAndVariant(ms: int, random: Bytes)
    requires |random| == 10
    ensures var id := Made(ms, random);
            && id[6] / 16 == 7 && id[6] % 16 == random[0] % 16
            && id[8] / 64 == 2 && id[8] % 64 == random[2] % 64
            && id[7] == random[1] && id[9..] == random[3..]
  {
    var id := Made(ms, random);
    assert id[6] == Tail(random)[0] && id[7] == Tail(random)[1] && id[8] == Tail(random)[2];
    assert id[9..] == Tail(random)[3..];
  }

  // ---------------------------------------------------------------- digits

  /** Printed digits are lower-case; those of both cases are read, each as its value, and nothing else is. */
  lemma DigitTable(n: int, c: char)
    requires 0 <= n < 16
    ensures HexDigit(n) == LOWER_DIGITS[n]
    ensures HexValue(LOWER_DIGITS[n]) == Some(n) == HexValue(UPPER_DIGITS[n])
    ensures HexValue(c).Some? ==> c == LOWER_DIGITS[HexValue(c).value] || c == UPPER_DIGITS[HexValue(c).value]
  {
  }

  lemma Shifted(h: string, a: char, b: char, t: string, j: nat)
    requires h == [a, b] + t && j + 1 < |t|
    ensures h[j + 2] == t[j] && h[j + 3] == t[j + 1]
  {
  }

  /** Byte i stands in two digits, the high half first. */
  lemma {:induction false} HexAt(s: Bytes, i: nat)
    requires i < |s| && |Hex(s)| == 2 * |s|
    ensures Hex(s)[2 * i] == HexDigit(s[i] / 16) && Hex(s)[2 * i + 1] == HexDigit(s[i] % 16)
  {
    if i > 0 {
      var rest := s[1..];
      CleanHex(rest);
      HexAt(rest, i - 1);
      Shifted(Hex(s), HexDigit(s[0] / 16), HexDigit(s[0] % 16), Hex(rest), 2 * i - 2);
      assert rest[i - 1] == s[i];
    }
  }

  /** The digits of a byte, in lower case. */
  lemma HexText(s: Bytes, i: nat)
    requires i < |s|
    ensures |Hex(s)| == 2 * |s|
    ensures Hex(s)[2 * i] == LOWER_DIGITS[s[i] / 16] && Hex(s)[2 * i + 1] == LOWER_DIGITS[s[i] % 16]
  {
    CleanHex(s);
    HexAt(s, i);
    DigitTable(s[i] / 16, '-');
    DigitTable(s[i] % 16, '-');
  }

  lemma {:induction false} UnhexAt(s: string, i: nat)
    requires Unhex(s).Some? && i < |Unhex(s).value|
    ensures |s| == 2 * |Unhex(s).value|
    ensures HexValue(s[2 * i]).Some? && HexValue(s[2 * i + 1]).Some?
    ensures Unhex(s).value[i] == 16 * HexValue(s[2 * i]).value + HexValue(s[2 * i + 1]).value
  {
    UnhexLength(s);
    if i > 0 { UnhexAt(s[2..], i - 1); }
  }

  /** What parses stands for its digits: byte i for the pair at 2i behind the hyphens taken out. */
  lemma ParsedBytes(s: string, i: nat)
    requires Parsed(s).Ok? && i < 16
    ensures |Parsed(s).value| == 16 && |Clean(s)| == 32
    ensures exists high, low :: 0 <= high < 16 && 0 <= low < 16 && Parsed(s).value[i] == 16 * high + low &&
              (Clean(s)[2 * i] == LOWER_DIGITS[high] || Clean(s)[2 * i] == UPPER_DIGITS[high]) &&
              (Clean(s)[2 * i + 1] == LOWER_DIGITS[low] || Clean(s)[2 * i + 1] == UPPER_DIGITS[low])
  {
    UnhexLength(Clean(s));
    UnhexAt(Clean(s), i);
    var high, low := HexValue(Clean(s)[2 * i]).value, HexValue(Clean(s)[2 * i + 1]).value;
    DigitTable(high, Clean(s)[2 * i]);
    DigitTable(low, Clean(s)[2 * i + 1]);
    assert Parsed(s).value[i] == 16 * high + low;
  }

  /** Only hyphens are taken out. */
  lemma {:induction false} CleanDropsHyphens(s: string)
    ensures forall i :: 0 <= i < |Clean(s)| ==> Clean(s)[i] != '-'
    ensures (forall i :: 0 <= i < |s| ==> s[i] != '-') ==> Clean(s) == s
    ensures Clean("-" + s) == Clean(s)
  {
    assert ("-" + s)[1..] == s;
    if s != "" {
      CleanDropsHyphens(s[1..]);
      assert s == [s[0]] + s[1..];
    }
  }

  // ---------------------------------------------------------------- the printed form

  lemma FiveGroups(a: Bytes, b: Bytes, c: Bytes, d: Bytes, e: Bytes)
    ensures Hyphenated([a, b, c, d, e]) == Hex(a) + "-" + (Hex(b) + "-" + (Hex(c) + "-" + (Hex(d) + "-" + Hex(e))))
  {
    var gs := [a, b, c, d, e];
    assert gs[1..] == [b, c, d, e] && gs[1..][1..] == [c, d, e];
    assert [b, c, d, e][1..] == [c, d, e] && [c, d, e][1..] == [d, e] && [d, e][1..] == [e];
    assert Hyphenated([d, e]) == Hex(d) + "-" + Hex(e);
    assert Hyphenated([c, d, e]) == Hex(c) + "-" + Hyphenated([d, e]);
    assert Hyphenated([b, c, d, e]) == Hex(b) + "-" + Hyphenated([c, d, e]);
  }

  lemma HyphenPlaces(a: string, b: string, c: string, d: string, e: string)
    requires |a| == 8 && |b| == |c| == |d| == 4 && |e| == 12
    ensures var s := a + "-" + (b + "-" + (c + "-" + (d + "-" + e)));
            && |s| == 36 && s[8] == s[13] == s[18] == s[23] == '-'
            && s[..8] == a && s[9..13] == b && s[14..18] == c && s[19..23] == d && s[24..] == e
  {
    var de := d + "-" + e;
    var ce := c + "-" + de;
    var be := b + "-" + ce;
    var s := a + "-" + be;
    assert s[9..] == be && be[5..] == ce && ce[5..] == de && de[5..] == e;
  }

  /** The standard form: 36 characters, hyphens behind 8, 4, 4 and 4 digits, and 12 digits at the end. */
  lemma PrintForm(id: ID)
    ensures var s := Print(id);
            && |s| == 36 && s[8] == s[13] == s[18] == s[23] == '-'
            && s[..8] == Hex(id[0..4]) && s[9..13] == Hex(id[4..6]) && s[14..18] == Hex(id[6..8])
            && s[19..23] == Hex(id[8..10]) && s[24..] == Hex(id[10..16])
  {
    FiveGroups(id[0..4], id[4..6], id[6..8], id[8..10], id[10..16]);
    CleanHex(id[0..4]);
    CleanHex(id[4..6]);
    CleanHex(id[6..8]);
    CleanHex(id[8..10]);
    CleanHex(id[10..16]);
    HyphenPlaces(Hex(id[0..4]), Hex(id[4..6]), Hex(id[6..8]), Hex(id[8..10]), Hex(id[10..16]));
  }
}
