/** HTTP Signatures (draft-cavage-http-signatures, section 2): signing a request and judging it on
    arrival, over an abstract signature scheme. */
module Signature {
  import opened Prelude

  type Bytes = seq<byte>

  // ---------------------------------------------------------------- what is left abstract

  /** RSA over SHA-256 for one key pair, SHA-256 itself, base64, and the HTTP date format. */
  datatype Crypto = Crypto(
    sign: string -> Bytes,
    verify: (string, Bytes) -> bool,
    sha: Bytes -> Bytes,
    encode: Bytes -> string,
    decode: string -> Option<Bytes>,
    printDate: int -> string,
    parseDate: string -> Option<int>)

  predicate QuoteFree(s: string) {
    forall i :: 0 <= i < |s| ==> s[i] != '"'
  }

  /** The laws the round trip rests on. A printed date keeps whole seconds. */
  ghost predicate Lawful(c: Crypto) {
    && (forall m :: c.verify(m, c.sign(m)))
    && (forall b :: c.decode(c.encode(b)) == Some(b) && QuoteFree(c.encode(b)))
    && (forall t :: c.parseDate(c.printDate(t)) == Some(Seconds(t)) && c.printDate(t) != "")
  }

  // ---------------------------------------------------------------- strings

  function LowerChar(ch: char): char {
    if 'A' <= ch <= 'Z' then (ch as int + 32) as char else ch
  }

  function Lower(s: string): string {
    seq(|s|, i requires 0 <= i < |s| => LowerChar(s[i]))
  }

  /** strings.Join. */
  function Join(parts: seq<string>, sep: char): string {
    if parts == [] then ""
    else if |parts| == 1 then parts[0]
    else parts[0] + [sep] + Join(parts[1..], sep)
  }

  /** strings.Split on a one-character separator. */
  function Split(s: string, sep: char): seq<string>
    decreases |s|
  {
    var i := IndexOf(s, sep);
    if i == |s| then [s] else [s[..i]] + Split(s[i + 1..], sep)
  }

  lemma {:induction false} SplitUndoesJoin(parts: seq<string>, sep: char)
    requires parts != [] && forall i :: 0 <= i < |parts| ==> Free(parts[i], sep)
    ensures Split(Join(parts, sep), sep) == parts
  {
    var s := Join(parts, sep);
    assert Free(parts[0], sep);
    if |parts| > 1 {
      assert s == parts[0] + ([sep] + Join(parts[1..], sep));
      var i := IndexOf(s, sep);
      assert s[|parts[0]|] == sep;
      assert i >= |parts[0]| by {
        forall k | 0 <= k < |parts[0]| ensures s[k] != sep { assert s[k] == parts[0][k]; }
      }
      assert i == |parts[0]|;
      assert s[..i] == parts[0] && s[i + 1..] == Join(parts[1..], sep);
      SplitUndoesJoin(parts[1..], sep);
      assert [parts[0]] + parts[1..] == parts;
    } else {
      assert parts == [parts[0]];
    }
  }

  // ---------------------------------------------------------------- requests

  /** What signing and judging read of a request: headers by canonical name. */
  datatype View = View(verb: string, uri: string, host: string, headers: map<string, string>)

  function UpperChar(ch: char): char {
    if 'a' <= ch <= 'z' then (ch as int - 32) as char else ch
  }

  predicate TokenChar(ch: char) {
    'a' <= ch <= 'z' || 'A' <= ch <= 'Z' || '0' <= ch <= '9' || ch in "!#$%&'*+-.^_`|~"
  }

  /** Capital first letters, as header names are stored; names that are no tokens stay as they are. */
  function Canonical(h: string): string {
    if exists i :: 0 <= i < |h| && !TokenChar(h[i]) then h
    else seq(|h|, i requires 0 <= i < |h| => if i == 0 || h[i - 1] == '-' then UpperChar(h[i]) else LowerChar(h[i]))
  }

  function Get(v: View, h: string): string {
    if Canonical(h) in v.headers then v.headers[Canonical(h)] else ""
  }

  /** The Host header or, on the server where it is moved away, the host of the request. */
  function HostOf(v: View): string {
    if Get(v, "Host") != "" then Get(v, "Host") else v.host
  }

  const TARGET: string := "(request-target)"

  function Line(v: View, h: string): string {
    if h == TARGET then TARGET + ": " + Lower(v.verb) + " " + v.uri
    else if h == "host" then "host: " + HostOf(v)
    else h + ": " + Get(v, h)
  }

  predicate Present(v: View, h: string) {
    h == TARGET || (if h == "host" then HostOf(v) != "" else Get(v, h) != "")
  }

  function Lines(v: View, hs: seq<string>): seq<string> {
    seq(|hs|, i requires 0 <= i < |hs| => Line(v, hs[i]))
  }

  /** The string to be signed: one line for each header, joined by newlines. */
  function SigningString(v: View, hs: seq<string>): string {
    Join(Lines(v, hs), '\n')
  }

  lemma LinesNext(v: View, hs: seq<string>, i: nat)
    requires i < |hs|
    ensures Lines(v, hs)[..i + 1] == Lines(v, hs)[..i] + [Line(v, hs[i])]
  {
  }

  method BuildSigningString(v: View, hs: seq<string>) returns (s: string)
    ensures s == SigningString(v, hs)
  {
    var lines: seq<string> := [];
    for i := 0 to |hs|
      invariant lines == Lines(v, hs)[..i]
    {
      LinesNext(v, hs, i);
      if hs[i] == TARGET {
        lines := lines + [TARGET + ": " + Lower(v.verb) + " " + v.uri];
      } else if hs[i] == "host" {
        var host := Get(v, "Host");
        if host == "" { host := v.host; }
        lines := lines + ["host: " + host];
      } else {
        lines := lines + [hs[i] + ": " + Get(v, hs[i])];
      }
    }
    assert lines == Lines(v, hs);
    s := Join(lines, '\n');
  }

  /** The strict builder succeeds exactly if every named header is there, and then agrees with the
      lax one. */
  method BuildSigningStringStrict(v: View, hs: seq<string>) returns (s: Option<string>)
    ensures s.Some? <==> forall i :: 0 <= i < |hs| ==> Present(v, hs[i])
    ensures s.Some? ==> s.value == SigningString(v, hs)
  {
    var lines: seq<string> := [];
    for i := 0 to |hs|
      invariant lines == Lines(v, hs)[..i]
      invariant forall k :: 0 <= k < i ==> Present(v, hs[k])
    {
      LinesNext(v, hs, i);
      if hs[i] == TARGET {
        lines := lines + [TARGET + ": " + Lower(v.verb) + " " + v.uri];
      } else if hs[i] == "host" {
        var host := Get(v, "Host");
        if host == "" { host := v.host; }
        if host == "" { assert !Present(v, hs[i]); return None; }
        lines := lines + ["host: " + host];
      } else {
        var val := Get(v, hs[i]);
        if val == "" { assert !Present(v, hs[i]); return None; }
        lines := lines + [hs[i] + ": " + val];
      }
    }
    assert lines == Lines(v, hs);
    s := Some(Join(lines, '\n'));
  }

  // ---------------------------------------------------------------- the Signature header

  predicate WordChar(ch: char) {
    'a' <= ch <= 'z' || 'A' <= ch <= 'Z' || '0' <= ch <= '9' || ch == '_'
  }

  predicate Word(s: string) {
    s != "" && forall i :: 0 <= i < |s| ==> WordChar(s[i])
  }

  function WordLength(s: string): (n: nat)
    ensures n <= |s|
  {
    if s == "" || !WordChar(s[0]) then 0 else 1 + WordLength(s[1..])
  }

  /** A match of key="value" at the front of s, with its length. A longest run of word characters
      must be followed by =" and, later, a closing quote. */
  function MatchAt(s: string): (m: Option<(string, string, nat)>)
    ensures m.Some? ==> 0 < m.value.2 <= |s|
  {
    var n := WordLength(s);
    if n == 0 || |s| < n + 2 || s[n] != '=' || s[n + 1] != '"' then None
    else
      var q := IndexOf(s[n + 2..], '"');
      if q == |s[n + 2..]| then None else Some((s[..n], s[n + 2..][..q], n + 2 + q + 1))
  }

  /** All matches from left to right, none overlapping. */
  function Scan(s: string): seq<(string, string)>
    decreases |s|
  {
    if s == "" then []
    else match MatchAt(s)
      case Some(m) => [(m.0, m.1)] + Scan(s[m.2..])
      case None => Scan(s[1..])
  }

  /** Pairs are entered one after the other; later ones overwrite. */
  function Params(pairs: seq<(string, string)>, params: map<string, string>): map<string, string> {
    if pairs == [] then params else Params(pairs[1..], params[pairs[0].0 := pairs[0].1])
  }

  function ParseHeader(header: string): Option<map<string, string>> {
    if header == "" || Scan(header) == [] then None else Some(Params(Scan(header), map[]))
  }

  lemma {:induction false} WordLengthOf(k: string, rest: string)
    requires (forall i :: 0 <= i < |k| ==> WordChar(k[i])) && (rest == "" || !WordChar(rest[0]))
    ensures WordLength(k + rest) == |k|
  {
    if k == "" {
      assert k + rest == rest;
    } else {
      assert (k + rest)[1..] == k[1..] + rest;
      WordLengthOf(k[1..], rest);
    }
  }

  lemma IndexOfQuote(v: string, rest: string)
    requires QuoteFree(v)
    ensures IndexOf(v + "\"" + rest, '"') == |v|
  {
    var s := v + "\"" + rest;
    var i := IndexOf(s, '"');
    assert s[|v|] == '"';
    forall k | 0 <= k < |v| ensures s[k] != '"' { assert s[k] == v[k]; }
  }

  function Pair(k: string, v: string): string {
    k + "=\"" + v + "\""
  }

  lemma PairShape(k: string, v: string, rest: string)
    ensures var s := Pair(k, v) + rest;
            && s == k + ("=\"" + (v + "\"" + rest))
            && s[..|k|] == k && s[|k|] == '=' && s[|k| + 1] == '"'
            && s[|k| + 2..] == v + "\"" + rest
  {
    var tail := v + "\"" + rest;
    assert Pair(k, v) + rest == k + ("=\"" + tail);
  }

  lemma MatchPair(k: string, v: string, rest: string)
    requires Word(k) && QuoteFree(v)
    ensures MatchAt(Pair(k, v) + rest) == Some((k, v, |Pair(k, v)|))
  {
    var tail := v + "\"" + rest;
    PairShape(k, v, rest);
    WordLengthOf(k, "=\"" + tail);
    IndexOfQuote(v, rest);
    assert tail[..|v|] == v;
  }

  /** A printed pair is read back, and the scan goes on right behind it. */
  lemma ScanPair(k: string, v: string, rest: string)
    requires Word(k) && QuoteFree(v)
    ensures Scan(Pair(k, v) + rest) == [(k, v)] + Scan(rest)
  {
    MatchPair(k, v, rest);
    assert (Pair(k, v) + rest)[|Pair(k, v)|..] == rest;
  }

  lemma ScanComma(rest: string)
    ensures Scan("," + rest) == Scan(rest)
  {
    assert ("," + rest)[1..] == rest;
    assert WordLength("," + rest) == 0;
  }

  /** Pairs separated by commas. */
  function Listing(pairs: seq<(string, string)>): string {
    if pairs == [] then ""
    else if |pairs| == 1 then Pair(pairs[0].0, pairs[0].1)
    else Pair(pairs[0].0, pairs[0].1) + ("," + Listing(pairs[1..]))
  }

  lemma {:induction false} ScanListing(pairs: seq<(string, string)>)
    requires forall i :: 0 <= i < |pairs| ==> Word(pairs[i].0) && QuoteFree(pairs[i].1)
    ensures Scan(Listing(pairs)) == pairs
  {
    if pairs != [] {
      var rest := pairs[1..];
      ScanListing(rest);
      assert pairs == [pairs[0]] + rest;
      if rest == [] {
        assert Listing(pairs) + "" == Listing(pairs);
        ScanPair(pairs[0].0, pairs[0].1, "");
      } else {
        ScanPair(pairs[0].0, pairs[0].1, "," + Listing(rest));
        ScanComma(Listing(rest));
      }
    }
  }

  /** What a scan returns never contains a quote. */
  lemma {:induction false} ScannedIsQuoteFree(s: string)
    ensures forall i :: 0 <= i < |Scan(s)| ==> QuoteFree(Scan(s)[i].1)
    decreases |s|
  {
    if s != "" {
      match MatchAt(s)
      case Some(m) => ScannedIsQuoteFree(s[m.2..]);
      case None => ScannedIsQuoteFree(s[1..]);
    }
  }

  lemma {:induction false} ParamsAreQuoteFree(pairs: seq<(string, string)>, params: map<string, string>)
    requires forall i :: 0 <= i < |pairs| ==> QuoteFree(pairs[i].1)
    requires forall k :: k in params ==> QuoteFree(params[k])
    ensures forall k :: k in Params(pairs, params) ==> QuoteFree(Params(pairs, params)[k])
  {
    if pairs != [] { ParamsAreQuoteFree(pairs[1..], params[pairs[0].0 := pairs[0].1]); }
  }

  function HeaderPairs(keyId: string, names: string, sig: string): seq<(string, string)> {
    [("keyId", keyId), ("algorithm", "rsa-sha256"), ("headers", names), ("signature", sig)]
  }

  /** The printed Signature header. */
  function HeaderText(keyId: string, names: string, sig: string): string {
    Listing(HeaderPairs(keyId, names, sig))
  }

  lemma FieldNamesAreWords()
    ensures Word("keyId") && Word("algorithm") && Word("headers") && Word("signature")
    ensures QuoteFree("rsa-sha256")
  {
  }

  /** The parser recovers the formatted parameters when none of them contains a quote. */
  lemma HeaderReadsBack(keyId: string, names: string, sig: string)
    requires QuoteFree(keyId) && QuoteFree(names) && QuoteFree(sig)
    ensures ParseHeader(HeaderText(keyId, names, sig)) ==
              Some(map["keyId" := keyId, "algorithm" := "rsa-sha256", "headers" := names, "signature" := sig])
  {
    FieldNamesAreWords();
    var pairs := HeaderPairs(keyId, names, sig);
    ScanListing(pairs);
    assert HeaderText(keyId, names, sig)[0] == 'k';
    FourParams(pairs);
  }

  lemma FourParams(p: seq<(string, string)>)
    requires |p| == 4
    ensures Params(p, map[]) == map[][p[0].0 := p[0].1][p[1].0 := p[1].1][p[2].0 := p[2].1][p[3].0 := p[3].1]
  {
    var m1 := map[][p[0].0 := p[0].1];
    var m2 := m1[p[1].0 := p[1].1];
    var m3 := m2[p[2].0 := p[2].1];
    assert p[1..][1..] == p[2..] && p[2..][1..] == p[3..] && p[3..][1..] == [];
    assert Params(p, map[]) == Params(p[1..], m1);
    assert Params(p[1..], m1) == Params(p[2..], m2);
    assert Params(p[2..], m2) == Params(p[3..], m3);
    assert Params(p[3..], m3) == Params([], m3[p[3].0 := p[3].1]);
  }

  /** And only then: a recovered key identifier has no quote in it. */
  lemma KeyIdReadsBackExactly(keyId: string, names: string, sig: string)
    requires QuoteFree(names) && QuoteFree(sig)
    ensures (ParseHeader(HeaderText(keyId, names, sig)).Some? &&
             "keyId" in ParseHeader(HeaderText(keyId, names, sig)).value &&
             ParseHeader(HeaderText(keyId, names, sig)).value["keyId"] == keyId) <==> QuoteFree(keyId)
  {
    if QuoteFree(keyId) {
      HeaderReadsBack(keyId, names, sig);
    } else {
      ScannedIsQuoteFree(HeaderText(keyId, names, sig));
      ParamsAreQuoteFree(Scan(HeaderText(keyId, names, sig)), map[]);
    }
  }
}
