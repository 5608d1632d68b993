/** UUIDv7 identifiers (section 5.7 of RFC 9562): making, printing, parsing and ordering them. */
module Uuid {
  import opened Prelude

  type Bytes = seq<byte>

  predicate IsId(s: Bytes) {
    |s| == 16
  }

  type ID = s: Bytes | IsId(s) witness [0, 0, 0, 0, 0, 0, 0, 0, 0, 0, 0, 0, 0, 0, 0, 0]

  const NIL: ID := [0, 0, 0, 0, 0, 0, 0, 0, 0, 0, 0, 0, 0, 0, 0, 0]

  const MS_LIMIT: int := 0x1_0000_0000_0000   // 2^48

  // ---------------------------------------------------------------- order

  /** Byte order, as the database compares identifiers. */
  predicate Less(a: Bytes, b: Bytes) {
    b != [] && (a == [] || a[0] < b[0] || (a[0] == b[0] && Less(a[1..], b[1..])))
  }

  /** Order of strings, as the program compares printed identifiers. */
  predicate LessText(a: string, b: string) {
    b != "" && (a == "" || a[0] < b[0] || (a[0] == b[0] && LessText(a[1..], b[1..])))
  }

  lemma {:induction false} LessIsTotal(a: Bytes, b: Bytes)
    ensures !(Less(a, b) && Less(b, a))
    ensures !Less(a, a)
    ensures Less(a, b) || Less(b, a) || a == b
  {
    if a != [] {
      LessIsTotal(a[1..], if b != [] then b[1..] else []);
      if b != [] {
        assert a == [a[0]] + a[1..] && b == [b[0]] + b[1..];
      }
    }
  }

  lemma {:induction false} LessIsTransitive(a: Bytes, b: Bytes, c: Bytes)
    requires Less(a, b) && Less(b, c)
    ensures Less(a, c)
  {
    if a != [] && a[0] == b[0] == c[0] { LessIsTransitive(a[1..], b[1..], c[1..]); }
  }

  /** An order decided in front is not changed by what follows. */
  lemma {:induction false} LessByPrefix(a: Bytes, b: Bytes, c: Bytes, d: Bytes)
    requires |a| == |b|
    ensures Less(a + c, b + d) <==> Less(a, b) || (a == b && Less(c, d))
  {
    if a == [] {
      assert a + c == c && b + d == d;
    } else {
      assert (a + c)[1..] == a[1..] + c && (b + d)[1..] == b[1..] + d;
      LessByPrefix(a[1..], b[1..], c, d);
      assert a == [a[0]] + a[1..] && b == [b[0]] + b[1..];
    }
  }

  lemma {:induction false} LessTextByPrefix(a: string, b: string, c: string, d: string)
    requires |a| == |b|
    ensures LessText(a + c, b + d) <==> LessText(a, b) || (a == b && LessText(c, d))
  {
    if a == "" {
      assert a + c == c && b + d == d;
    } else {
      assert (a + c)[1..] == a[1..] + c && (b + d)[1..] == b[1..] + d;
      LessTextByPrefix(a[1..], b[1..], c, d);
      assert a == [a[0]] + a[1..] && b == [b[0]] + b[1..];
    }
  }

  // ---------------------------------------------------------------- making one

  /** The number a big-endian byte string stands for. */
  function Value(s: Bytes): nat {
    if s == [] then 0 else Value(s[..|s| - 1]) * 256 + s[|s| - 1]
  }

  /** The low 8n bits of v, most significant byte first. */
  function BigEndian(v: int, n: nat): (r: Bytes)
    ensures |r| == n
    decreases n
  {
    if n == 0 then [] else BigEndian(v / 256, n - 1) + [v % 256]
  }

  function Pow256(n: nat): (p: int)
    ensures p > 0
  {
    if n == 0 then 1 else 256 * Pow256(n - 1)
  }

  /** Six bytes hold 48 bits, taken from a number of any size or sign as a conversion to an unsigned
      word takes them. */
  lemma {:induction false} ValueOfBigEndian(v: int, n: nat)
    ensures Value(BigEndian(v, n)) == v % Pow256(n)
    decreases n
  {
    if n > 0 {
      ValueOfBigEndian(v / 256, n - 1);
      var r := BigEndian(v, n);
      assert r[..n - 1] == BigEndian(v / 256, n - 1) && r[n - 1] == v % 256;
      NestedModulo(v, Pow256(n - 1));
    }
  }

  lemma NestedModulo(v: int, p: int)
    requires p > 0
    ensures ((v / 256) % p) * 256 + v % 256 == v % (256 * p)
  {
    var q, m := v / 256 / p, (v / 256) % p;
    assert v / 256 == p * q + m;
    assert v == 256 * (p * q + m) + v % 256;
    assert 256 * (p * q + m) == (256 * p) * q + 256 * m;
    var rest := 256 * m + v % 256;
    assert 0 <= rest < 256 * p;
    DivisionIsUnique(v, 256 * p, q, rest);
  }

  lemma DivisionIsUnique(v: int, d: int, q: int, r: int)
    requires d > 0 && 0 <= r < d && v == d * q + r
    ensures v % d == r && v / d == q
  {
    var k := v / d - q;
    assert v == d * (v / d) + v % d;
    assert d * (v / d) - d * q == d * k;
    assert r - v % d == d * k;
    MultiplesApart(d, k);
    assert k == 0;
  }

  lemma MultiplesApart(d: int, k: int)
    requires d > 0
    ensures k >= 1 ==> d * k >= d
    ensures k <= -1 ==> d * k <= -d
  {
    if k <= -1 { assert d * (-k) >= d; }
  }

  /** Byte order of equally long strings is the order of the numbers. */
  lemma {:induction false} OrderOfValues(a: Bytes, b: Bytes)
    requires |a| == |b|
    ensures Less(a, b) <==> Value(a) < Value(b)
    ensures a == b <==> Value(a) == Value(b)
  {
    if a != [] {
      var n := |a| - 1;
      OrderOfValues(a[..n], b[..n]);
      assert a == a[..n] + [a[n]] && b == b[..n] + [b[n]];
      LessByPrefix(a[..n], b[..n], [a[n]], [b[n]]);
      assert Less([a[n]], [b[n]]) <==> a[n] < b[n];
    }
  }

  /** Ten random bytes with the version and the variant written over. */
  function Tail(random: Bytes): Bytes
    requires |random| == 10
  {
    [random[0] % 16 + 0x70, random[1], random[2] % 64 + 0x80] + random[3..]
  }

  function Made(ms: int, random: Bytes): ID
    requires |random| == 10
  {
    BigEndian(ms, 6) + Tail(random)
  }

  method WriteStamp(a: array<byte>, ms: int)
    requires a.Length == 16
    modifies a
    ensures a[..6] == BigEndian(ms, 6)
  {
    a[0] := ms / 0x100_0000_0000 % 256;
    a[1] := ms / 0x1_0000_0000 % 256;
    a[2] := ms / 0x100_0000 % 256;
    a[3] := ms / 0x1_0000 % 256;
    a[4] := ms / 0x100 % 256;
    a[5] := ms % 256;
    SixBytes(ms);
  }

  /** Fills the array front to back, as the program does; random is what the generator gives. */
  method NewWithTime(ms: int, random: Bytes) returns (id: ID)
    requires |random| == 10
    ensures id == Made(ms, random)
  {
    var a := new byte[16];
    WriteStamp(a, ms);
    var i := 0;
    while i < 10
      invariant 0 <= i <= 10
      invariant a[..6] == BigEndian(ms, 6)
      invariant forall k :: 0 <= k < i ==> a[6 + k] == random[k]
    {
      a[6 + i] := random[i];
      i := i + 1;
    }
    a[6] := a[6] % 16 + 0x70;
    a[8] := a[8] % 64 + 0x80;
    assert a[..] == a[..6] + a[6..];
    assert a[6..] == Tail(random);
    id := a[..];
  }

  lemma {:induction false} BigEndianSplits(v: int, n: nat, k: nat)
    ensures BigEndian(v, n + k) == BigEndian(v / Pow256(k), n) + BigEndian(v, k)
    decreases k
  {
    if k > 0 {
      BigEndianSplits(v / 256, n, k - 1);
      DivisionNests(v, Pow256(k - 1));
    } else {
      assert BigEndian(v, n) + [] == BigEndian(v, n);
    }
  }

  lemma DivisionNests(v: int, p: int)
    requires p > 0
    ensures v / 256 / p == v / (256 * p)
  {
    var q, m := v / 256 / p, (v / 256) % p;
    assert v == 256 * (p * q + m) + v % 256;
    assert 256 * (p * q + m) == (256 * p) * q + 256 * m;
    DivisionIsUnique(v, 256 * p, q, 256 * m + v % 256);
  }

  lemma ThreeBytes(v: int)
    ensures BigEndian(v, 3) == [v / 0x1_0000 % 256, v / 0x100 % 256, v % 256]
  {
    assert BigEndian(v / 256 / 256, 1) == [v / 256 / 256 % 256];
    assert v / 256 / 256 == v / 0x1_0000;
  }

  lemma SixBytes(ms: int)
    ensures BigEndian(ms, 6) == [ms / 0x100_0000_0000 % 256, ms / 0x1_0000_0000 % 256, ms / 0x100_0000 % 256,
                                 ms / 0x1_0000 % 256, ms / 0x100 % 256, ms % 256]
  {
    assert Pow256(3) == 0x100_0000;
    BigEndianSplits(ms, 3, 3);
    var high := ms / 0x100_0000;
    ThreeBytes(ms);
    ThreeBytes(high);
    assert high / 0x1_0000 == ms / 0x100_0000_0000 && high / 0x100 == ms / 0x1_0000_0000;
  }

  /** The millisecond count an identifier carries. */
  function TimeOf(id: ID): int {
    Value(id[..6])
  }

  /** Time recovers the millisecond exactly when it fits 48 bits. */
  lemma TimeRecovered(ms: int, random: Bytes)
    requires |random| == 10
    ensures TimeOf(Made(ms, random)) == ms <==> 0 <= ms < MS_LIMIT
  {
    assert Made(ms, random)[..6] == BigEndian(ms, 6);
    ValueOfBigEndian(ms, 6);
    SixIsLimit();
  }

  lemma SixIsLimit()
    ensures Pow256(6) == MS_LIMIT
  {
    assert Pow256(3) == 0x100_0000;
  }

  lemma StampOrder(m: int, m': int, n: nat)
    requires 0 <= m < m' < Pow256(n)
    ensures Less(BigEndian(m, n), BigEndian(m', n))
  {
    ValueOfBigEndian(m, n);
    ValueOfBigEndian(m', n);
    OrderOfValues(BigEndian(m, n), BigEndian(m', n));
    assert m == Pow256(n) * 0 + m && m' == Pow256(n) * 0 + m';
    DivisionIsUnique(m, Pow256(n), 0, m);
    DivisionIsUnique(m', Pow256(n), 0, m');
  }

  /** An earlier millisecond gives a smaller identifier, whatever the random bytes. */
  lemma EarlierIsLess(ms: int, random: Bytes, ms': int, random': Bytes)
    requires |random| == 10 == |random'| && 0 <= ms < ms' < MS_LIMIT
    ensures Less(Made(ms, random), Made(ms', random'))
  {
    SixIsLimit();
    StampOrder(ms, ms', 6);
    LessByPrefix(BigEndian(ms, 6), BigEndian(ms', 6), Tail(random), Tail(random'));
  }

  // ---------------------------------------------------------------- printing

  function HexDigit(n: int): char
    requires 0 <= n < 16
  {
    if n < 10 then '0' + n as char else 'a' + (n - 10) as char
  }

  function Hex(s: Bytes): string {
    if s == [] then "" else [HexDigit(s[0] / 16), HexDigit(s[0] % 16)] + Hex(s[1..])
  }

  /** The five groups of the standard form, 8-4-4-4-12. */
  function Groups(id: ID): seq<Bytes> {
    [id[0..4], id[4..6], id[6..8], id[8..10], id[10..16]]
  }

  function Hyphenated(gs: seq<Bytes>): string {
    if gs == [] then ""
    else if |gs| == 1 then Hex(gs[0])
    else Hex(gs[0]) + "-" + Hyphenated(gs[1..])
  }

  function Flat(gs: seq<Bytes>): Bytes {
    if gs == [] then [] else gs[0] + Flat(gs[1..])
  }

  lemma GroupsAreId(id: ID)
    ensures Flat(Groups(id)) == id
  {
    var gs := Groups(id);
    assert Flat(gs[5..]) == [];
    assert Flat(gs[4..]) == id[10..];
    assert Flat(gs[3..]) == id[8..];
    assert Flat(gs[2..]) == id[6..];
    assert Flat(gs[1..]) == id[4..];
  }

  function Print(id: ID): string {
    Hyphenated(Groups(id))
  }

  // ---------------------------------------------------------------- parsing

  datatype ParseError = BadLength(n: nat) | BadHex

  function HexValue(c: char): (v: Option<byte>)
    ensures v.Some? ==> v.value < 16
  {
    if '0' <= c <= '9' then Some(c as int - '0' as int)
    else if 'a' <= c <= 'f' then Some(c as int - 'a' as int + 10)
    else if 'A' <= c <= 'F' then Some(c as int - 'A' as int + 10)
    else None
  }

  function Clean(s: string): string {
    if s == "" then "" else (if s[0] != '-' then [s[0]] else "") + Clean(s[1..])
  }

  function Unhex(s: string): Option<Bytes> {
    if s == "" then Some([])
    else if |s| == 1 then None
    else match (HexValue(s[0]), HexValue(s[1]), Unhex(s[2..]))
      case (Some(hi), Some(lo), Some(rest)) => Some([hi * 16 + lo] + rest)
      case _ => None
  }

  function Parsed(s: string): Result<Bytes, ParseError> {
    var clean := Clean(s);
    if |clean| != 32 then Err(BadLength(|clean|))
    else match Unhex(clean)
      case None => Err(BadHex)
      case Some(b) => Ok(b)
  }

  /** Drops the hyphens one character at a time, then decodes. */
  method Parse(s: string) returns (r: Result<Bytes, ParseError>)
    ensures r == Parsed(s)
    ensures r.Ok? ==> IsId(r.value)
  {
    var clean := "";
    var i := 0;
    while i < |s|
      invariant 0 <= i <= |s|
      invariant clean + Clean(s[i..]) == Clean(s)
    {
      assert s[i..][1..] == s[i + 1..];
      if s[i] != '-' {
        assert clean + ([s[i]] + Clean(s[i + 1..])) == (clean + [s[i]]) + Clean(s[i + 1..]);
        clean := clean + [s[i]];
      }
      i := i + 1;
    }
    assert Clean(s[i..]) == "" && clean == Clean(s);
    if |clean| != 32 { return Err(BadLength(|clean|)); }
    UnhexLength(clean);
    match Unhex(clean)
    case None => return Err(BadHex);
    case Some(b) => return Ok(b);
  }

  lemma {:induction false} UnhexLength(s: string)
    ensures Unhex(s).Some? ==> |s| == 2 * |Unhex(s).value|
  {
    if |s| >= 2 { UnhexLength(s[2..]); }
  }

  /** Decoding succeeds exactly on an even number of hexadecimal digits of either case. */
  lemma {:induction false} UnhexExact(s: string)
    ensures Unhex(s).Some? <==> |s| % 2 == 0 && forall i :: 0 <= i < |s| ==> HexValue(s[i]).Some?
  {
    if |s| >= 2 {
      UnhexExact(s[2..]);
      forall i | 2 <= i < |s| ensures s[i] == s[2..][i - 2] {}
    }
  }

  lemma {:induction false} CleanConcat(a: string, b: string)
    ensures Clean(a + b) == Clean(a) + Clean(b)
  {
    if a == "" {
      assert a + b == b;
    } else {
      assert (a + b)[1..] == a[1..] + b;
      CleanConcat(a[1..], b);
    }
  }

  lemma {:induction false} CleanHex(s: Bytes)
    ensures Clean(Hex(s)) == Hex(s) && |Hex(s)| == 2 * |s|
  {
    if s != [] {
      CleanHex(s[1..]);
      var d := [HexDigit(s[0] / 16), HexDigit(s[0] % 16)];
      assert d[1..] == [d[1]];
      assert Clean([d[1]]) == [d[1]];
      assert Clean(d) == d;
      CleanConcat(d, Hex(s[1..]));
    }
  }

  lemma {:induction false} UnhexHex(s: Bytes)
    ensures Unhex(Hex(s)) == Some(s)
  {
    if s != [] {
      UnhexHex(s[1..]);
      assert Hex(s)[2..] == Hex(s[1..]);
      assert HexValue(HexDigit(s[0] / 16)) == Some(s[0] / 16);
      assert HexValue(HexDigit(s[0] % 16)) == Some(s[0] % 16);
      assert [s[0]] + s[1..] == s;
    }
  }

  lemma {:induction false} HexConcat(a: Bytes, b: Bytes)
    ensures Hex(a + b) == Hex(a) + Hex(b)
  {
    if a == [] {
      assert a + b == b;
    } else {
      assert (a + b)[1..] == a[1..] + b;
      HexConcat(a[1..], b);
    }
  }

  lemma {:induction false} CleanHyphenated(gs: seq<Bytes>)
    ensures Clean(Hyphenated(gs)) == Hex(Flat(gs))
  {
    if gs != [] {
      CleanHyphenated(gs[1..]);
      CleanHex(gs[0]);
      HexConcat(gs[0], Flat(gs[1..]));
      if |gs| == 1 {
        assert gs[0] + Flat(gs[1..]) == gs[0];
      } else {
        CleanConcat(Hex(gs[0]) + "-", Hyphenated(gs[1..]));
        CleanConcat(Hex(gs[0]), "-");
        assert "-"[1..] == "" && Clean("-") == "";
      }
    }
  }

  /** Parse undoes String. */
  lemma ParseUndoesPrint(id: ID)
    ensures Parsed(Print(id)) == Ok(id)
  {
    CleanHyphenated(Groups(id));
    GroupsAreId(id);
    CleanHex(id);
    UnhexHex(id);
  }

  /** A string parses exactly if its characters other than hyphens are 32 hexadecimal digits. */
  lemma ParsesExactly(s: string)
    ensures Parsed(s).Ok? <==> |Clean(s)| == 32 && forall i :: 0 <= i < |Clean(s)| ==> HexValue(Clean(s)[i]).Some?
  {
    UnhexExact(Clean(s));
  }

  // ---------------------------------------------------------------- order of printed identifiers

  lemma HexDigitOrder(m: int, n: int)
    requires 0 <= m < 16 && 0 <= n < 16
    ensures HexDigit(m) < HexDigit(n) <==> m < n
    ensures HexDigit(m) == HexDigit(n) <==> m == n
  {
  }

  lemma {:induction false} HexOrder(a: Bytes, b: Bytes)
    requires |a| == |b|
    ensures LessText(Hex(a), Hex(b)) <==> Less(a, b)
    ensures Hex(a) == Hex(b) <==> a == b
  {
    if a != [] {
      HexOrder(a[1..], b[1..]);
      HexDigitOrder(a[0] / 16, b[0] / 16);
      HexDigitOrder(a[0] % 16, b[0] % 16);
      assert Hex(a)[1..][1..] == Hex(a[1..]) && Hex(b)[1..][1..] == Hex(b[1..]);
      assert Hex(a)[1..][0] == HexDigit(a[0] % 16) && Hex(b)[1..][0] == HexDigit(b[0] % 16);
      assert a == [a[0]] + a[1..] && b == [b[0]] + b[1..];
      if Hex(a) == Hex(b) {
        assert Hex(a)[0] == Hex(b)[0] && Hex(a)[1] == Hex(b)[1];
      }
    }
  }

  ghost predicate SameShape(gs: seq<Bytes>, hs: seq<Bytes>) {
    |gs| == |hs| && forall i :: 0 <= i < |gs| ==> |gs[i]| == |hs[i]|
  }

  /** A hyphen at the same place on both sides decides nothing. */
  lemma HyphenOrder(x: string, y: string, p: string, q: string)
    requires |x| == |y|
    ensures LessText(x + "-" + p, y + "-" + q) <==> LessText(x, y) || (x == y && LessText(p, q))
  {
    assert x + "-" + p == x + ("-" + p) && y + "-" + q == y + ("-" + q);
    LessTextByPrefix(x, y, "-" + p, "-" + q);
    assert ("-" + p)[1..] == p && ("-" + q)[1..] == q;
  }

  lemma {:induction false} HyphenatedOrder(gs: seq<Bytes>, hs: seq<Bytes>)
    requires SameShape(gs, hs)
    ensures LessText(Hyphenated(gs), Hyphenated(hs)) <==> Less(Flat(gs), Flat(hs))
  {
    if gs != [] {
      HyphenatedOrder(gs[1..], hs[1..]);
      HexOrder(gs[0], hs[0]);
      CleanHex(gs[0]);
      CleanHex(hs[0]);
      LessByPrefix(gs[0], hs[0], Flat(gs[1..]), Flat(hs[1..]));
      if |gs| > 1 {
        HyphenOrder(Hex(gs[0]), Hex(hs[0]), Hyphenated(gs[1..]), Hyphenated(hs[1..]));
      }
    }
  }

  /** String order is byte order. */
  lemma PrintOrder(i: ID, k: ID)
    ensures LessText(Print(i), Print(k)) <==> Less(i, k)
  {
    GroupsAreId(i);
    GroupsAreId(k);
    HyphenatedOrder(Groups(i), Groups(k));
  }
}
