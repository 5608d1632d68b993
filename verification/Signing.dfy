/** Signing a request and verifying what arrives; the second accepts what the first made. */
module Signing {
  import opened Prelude
  import opened Signature

  const MAX_AGE: int := 13 * 3600 * SECOND

  const DIGEST_PREFIX: string := "SHA-256="

  class Request {
    const verb: string
    const uri: string
    const urlHost: string
    const host: string
    var headers: map<string, string>

    constructor (verb: string, uri: string, urlHost: string, host: string, headers: map<string, string>)
      ensures this.verb == verb && this.uri == uri && this.urlHost == urlHost && this.host == host
      ensures this.headers == headers
    {
      this.verb, this.uri, this.urlHost, this.host, this.headers := verb, uri, urlHost, host, headers;
    }

    function AsView(): View
      reads this
    {
      View(verb, uri, host, headers)
    }

    /** Sets Date, Host, with a body Digest, and last the Signature over these and the target. */
    method SignRequest(c: Crypto, keyId: string, body: Option<Bytes>, now: int)
      modifies this
      ensures headers == SignedHeaders(c, old(AsView()), urlHost, keyId, body, now)
      ensures Prepares(c, old(headers), headers, urlHost, body, now)
    {
      SignedFields(c, AsView(), urlHost, keyId, body, now);
      headers := headers["Date" := c.printDate(now)];
      headers := headers["Host" := urlHost];
      if body.Some? {
        headers := headers["Digest" := DIGEST_PREFIX + c.encode(c.sha(body.value))];
      }
      var names := [TARGET, "host", "date"];
      if body.Some? { names := names + ["digest"]; }
      assert names == Names(body);
      var text := BuildSigningString(AsView(), names);
      headers := headers["Signature" := HeaderText(keyId, Join(names, ' '), c.encode(c.sign(text)))];
    }
  }

  function Names(body: Option<Bytes>): seq<string> {
    if body.Some? then [TARGET, "host", "date", "digest"] else [TARGET, "host", "date"]
  }

  function Prepared(c: Crypto, headers: map<string, string>, urlHost: string, body: Option<Bytes>, now: int): map<string, string> {
    var h := headers["Date" := c.printDate(now)]["Host" := urlHost];
    if body.Some? then h["Digest" := DIGEST_PREFIX + c.encode(c.sha(body.value))] else h
  }

  function SignedHeaders(c: Crypto, v: View, urlHost: string, keyId: string, body: Option<Bytes>, now: int): map<string, string> {
    var h := Prepared(c, v.headers, urlHost, body, now);
    var names := Names(body);
    h["Signature" := HeaderText(keyId, Join(names, ' '), c.encode(c.sign(SigningString(v.(headers := h), names))))]
  }

  /** The fields that are set; every other header stays. */
  ghost predicate Prepares(c: Crypto, before: map<string, string>, after: map<string, string>, urlHost: string, body: Option<Bytes>, now: int) {
    && "Date" in after && after["Date"] == c.printDate(now)
    && "Host" in after && after["Host"] == urlHost
    && "Signature" in after
    && (body.Some? ==> "Digest" in after && after["Digest"] == "SHA-256=" + c.encode(c.sha(body.value)))
    && forall k :: k != "Date" && k != "Host" && k != "Signature" && (k != "Digest" || body.None?) ==>
         (k in after <==> k in before) && (k in after ==> after[k] == before[k])
  }

  lemma FourKeys(h: map<string, string>, a: string, b: string, d: string, e: string, x: string, y: string, z: string, u: string)
    requires a != b && a != d && a != e && b != d && b != e && d != e
    ensures var m := h[a := x][b := y][d := z][e := u];
            && m[a] == x && m[b] == y && m[d] == z && m[e] == u
            && forall k :: k != a && k != b && k != d && k != e ==> (k in m <==> k in h) && (k in m ==> m[k] == h[k])
    ensures var m := h[a := x][b := y][e := u];
            && m[a] == x && m[b] == y && m[e] == u
            && forall k :: k != a && k != b && k != e ==> (k in m <==> k in h) && (k in m ==> m[k] == h[k])
  {
  }

  lemma SignedFields(c: Crypto, v: View, urlHost: string, keyId: string, body: Option<Bytes>, now: int)
    ensures Prepares(c, v.headers, SignedHeaders(c, v, urlHost, keyId, body, now), urlHost, body, now)
  {
    NamesDiffer();
    var signed := SignedHeaders(c, v, urlHost, keyId, body, now);
    var digest := if body.Some? then DIGEST_PREFIX + c.encode(c.sha(body.value)) else "";
    FourKeys(v.headers, "Date", "Host", "Digest", "Signature", c.printDate(now), urlHost, digest, signed["Signature"]);
  }

  // ---------------------------------------------------------------- judging

  datatype Verdict =
    | Accepted
    | NoSignature | UnknownAlgorithm | DateNotSigned | BadDate | BadDigest | HeaderMissing | NotBase64 | Refused

  predicate DateInWindow(c: Crypto, v: View, now: int) {
    Get(v, "Date") != "" &&
    match c.parseDate(Get(v, "Date"))
    case None => false
    case Some(sec) => -MAX_AGE <= now - sec * SECOND <= MAX_AGE
  }

  /** A Digest header, when there is one, is that of the body. */
  predicate DigestMatches(c: Crypto, v: View, body: Bytes) {
    Get(v, "Digest") == "" || Get(v, "Digest") == DIGEST_PREFIX + c.encode(c.sha(body))
  }

  predicate AllPresent(v: View, hs: seq<string>) {
    forall i :: 0 <= i < |hs| ==> Present(v, hs[i])
  }

  predicate Contains(hs: seq<string>, name: string) {
    exists i :: 0 <= i < |hs| && Lower(hs[i]) == Lower(name)
  }

  function Param(params: map<string, string>, k: string): string {
    if k in params then params[k] else ""
  }

  function Judge(c: Crypto, v: View, body: Bytes, now: int): Verdict {
    match ParseHeader(Get(v, "Signature"))
    case None => NoSignature
    case Some(params) =>
      if "algorithm" in params && params["algorithm"] !in {"rsa-sha256", "hs2019", "ed25519"} then UnknownAlgorithm
      else
        var hs := Split(Param(params, "headers"), ' ');
        if !Contains(hs, "date") then DateNotSigned
        else if !DateInWindow(c, v, now) then BadDate
        else if !DigestMatches(c, v, body) then BadDigest
        else if !AllPresent(v, hs) then HeaderMissing
        else match c.decode(Param(params, "signature"))
          case None => NotBase64
          case Some(sig) => if c.verify(SigningString(v, hs), sig) then Accepted else Refused
  }

  /** The parameters of the Signature header, and the header names listed in one of them. */
  function Given(v: View): map<string, string> {
    var parsed := ParseHeader(Get(v, "Signature"));
    if parsed.Some? then parsed.value else map[]
  }

  function SignedNames(v: View): seq<string> {
    Split(Param(Given(v), "headers"), ' ')
  }

  // What each check asks.

  predicate AlgorithmKnown(v: View) {
    "algorithm" in Given(v) ==>
      var alg := Given(v)["algorithm"];
      alg == "rsa-sha256" || alg == "hs2019" || alg == "ed25519"
  }

  /** The name of the date stands in the list, in upper or lower case. */
  predicate DateSigned(v: View) {
    exists i :: 0 <= i < |SignedNames(v)| && Lower(SignedNames(v)[i]) == "date"
  }

  /** At most 13 hours before or after now. */
  predicate DateRecent(c: Crypto, v: View, now: int) {
    && Get(v, "Date") != "" && c.parseDate(Get(v, "Date")).Some?
    && var sec := c.parseDate(Get(v, "Date")).value;
       now - 46_800_000_000_000 <= sec * 1_000_000_000 <= now + 46_800_000_000_000
  }

  predicate DigestRight(c: Crypto, v: View, body: Bytes) {
    Get(v, "Digest") == "" || Get(v, "Digest") == "SHA-256=" + c.encode(c.sha(body))
  }

  /** Every listed header has a value; the target always has. */
  predicate NamedAreThere(v: View) {
    forall i :: 0 <= i < |SignedNames(v)| ==>
      var h := SignedNames(v)[i];
      h == "(request-target)" || (h == "host" && HostOf(v) != "") || (h != "host" && Get(v, h) != "")
  }

  predicate SignatureFits(c: Crypto, v: View) {
    var sig := c.decode(Param(Given(v), "signature"));
    sig.Some? && c.verify(SigningString(v, SignedNames(v)), sig.value)
  }

  /** Each verdict is given exactly if its own check is the first to fail. */
  predicate FirstFailing(c: Crypto, v: View, body: Bytes, now: int, x: Verdict) {
    var parsed := ParseHeader(Get(v, "Signature")).Some?;
    var known := parsed && AlgorithmKnown(v);
    var dated := known && DateSigned(v);
    var recent := dated && DateRecent(c, v, now);
    var whole := recent && DigestRight(c, v, body);
    var present := whole && NamedAreThere(v);
    var decoded := present && c.decode(Param(Given(v), "signature")).Some?;
    && (x == NoSignature <==> !parsed)
    && (x == UnknownAlgorithm <==> parsed && !AlgorithmKnown(v))
    && (x == DateNotSigned <==> known && !DateSigned(v))
    && (x == BadDate <==> dated && !DateRecent(c, v, now))
    && (x == BadDigest <==> recent && !DigestRight(c, v, body))
    && (x == HeaderMissing <==> whole && !NamedAreThere(v))
    && (x == NotBase64 <==> present && !c.decode(Param(Given(v), "signature")).Some?)
    && (x == Refused <==> decoded && !SignatureFits(c, v))
    && (x == Accepted <==> decoded && SignatureFits(c, v))
  }

  lemma ChecksAgree(c: Crypto, v: View, body: Bytes, now: int)
    ensures Contains(SignedNames(v), "date") <==> DateSigned(v)
    ensures DateInWindow(c, v, now) <==> DateRecent(c, v, now)
    ensures DigestMatches(c, v, body) <==> DigestRight(c, v, body)
    ensures AllPresent(v, SignedNames(v)) <==> NamedAreThere(v)
  {
    assert Lower("date") == "date";
    forall i | 0 <= i < |SignedNames(v)|
      ensures var h := SignedNames(v)[i];
              Present(v, h) <==>
                h == "(request-target)" || (h == "host" && HostOf(v) != "") || (h != "host" && Get(v, h) != "")
    {
      NamesDiffer();
    }
  }

  /** The checks in their order. */
  lemma JudgeByChecks(c: Crypto, v: View, body: Bytes, now: int)
    ensures Judge(c, v, body, now) ==
              if ParseHeader(Get(v, "Signature")).None? then NoSignature
              else if !AlgorithmKnown(v) then UnknownAlgorithm
              else if !Contains(SignedNames(v), "date") then DateNotSigned
              else if !DateInWindow(c, v, now) then BadDate
              else if !DigestMatches(c, v, body) then BadDigest
              else if !AllPresent(v, SignedNames(v)) then HeaderMissing
              else if c.decode(Param(Given(v), "signature")).None? then NotBase64
              else if SignatureFits(c, v) then Accepted else Refused
  {
  }

  lemma VerdictIsRight(c: Crypto, v: View, body: Bytes, now: int)
    ensures FirstFailing(c, v, body, now, Judge(c, v, body, now))
  {
    ChecksAgree(c, v, body, now);
    JudgeByChecks(c, v, body, now);
  }

  method VerifyDigest(c: Crypto, v: View, body: Bytes) returns (ok: bool)
    ensures ok <==> DigestMatches(c, v, body)
  {
    var given := Get(v, "Digest");
    if given == "" { return true; }
    var right := c.encode(c.sha(body));
    assert (DIGEST_PREFIX + right)[|DIGEST_PREFIX|..] == right;
    if !(DIGEST_PREFIX <= given) { return false; }
    var expected := given[|DIGEST_PREFIX|..];
    assert given == DIGEST_PREFIX + expected;
    return expected == right;
  }

  method VerifyRequest(c: Crypto, v: View, body: Bytes, now: int) returns (verdict: Verdict)
    ensures verdict == Judge(c, v, body, now)
    ensures FirstFailing(c, v, body, now, verdict)
  {
    VerdictIsRight(c, v, body, now);
    var parsed := ParseHeader(Get(v, "Signature"));
    if parsed.None? { return NoSignature; }
    var params := parsed.value;
    if "algorithm" in params && params["algorithm"] !in {"rsa-sha256", "hs2019", "ed25519"} {
      return UnknownAlgorithm;
    }
    var hs := Split(Param(params, "headers"), ' ');
    if !Contains(hs, "date") { return DateNotSigned; }
    if !DateInWindow(c, v, now) { return BadDate; }
    var digestOk := VerifyDigest(c, v, body);
    if !digestOk { return BadDigest; }
    var text := BuildSigningStringStrict(v, hs);
    if text.None? { return HeaderMissing; }
    var sig := c.decode(Param(params, "signature"));
    if sig.None? { return NotBase64; }
    if !c.verify(text.value, sig.value) { return Refused; }
    return Accepted;
  }

  // ---------------------------------------------------------------- round trip

  /** What the server sees: the Host header has become the host of the request, which the client
      takes from the request or, failing that, from its URL. */
  function Arrived(v: View, urlHost: string): View {
    v.(host := if v.host != "" then v.host else urlHost, headers := v.headers - {"Host"})
  }

  predicate Letters(h: string) {
    forall i :: 0 <= i < |h| ==> 'a' <= LowerChar(h[i]) <= 'z'
  }

  lemma Capitalised(h: string, k: string)
    requires h != "" && |k| == |h| && Letters(h)
    requires k[0] == UpperChar(h[0]) && forall i :: 1 <= i < |h| ==> k[i] == LowerChar(h[i])
    ensures Canonical(h) == k
  {
    forall i | 0 <= i < |h| ensures TokenChar(h[i]) && h[i] != '-' {
      assert 'a' <= LowerChar(h[i]) <= 'z';
    }
  }

  lemma DateNames()
    ensures Canonical("Date") == "Date" == Canonical("date")
  {
    Capitalised("Date", "Date");
    Capitalised("date", "Date");
  }

  lemma DigestNames()
    ensures Canonical("Digest") == "Digest" == Canonical("digest")
  {
    Capitalised("Digest", "Digest");
    Capitalised("digest", "Digest");
  }

  lemma OtherNames()
    ensures Canonical("Host") == "Host" && Canonical("Signature") == "Signature"
  {
    Capitalised("Host", "Host");
    Capitalised("Signature", "Signature");
  }

  lemma NamesDiffer()
    ensures "Date" != "Host" && "Digest" != "Host" && "Signature" != "Host"
    ensures "Date" != "Digest" && "Signature" != "Date" && "Signature" != "Digest"
    ensures "date" != TARGET && "digest" != TARGET && "host" != TARGET
    ensures "date" != "host" && "digest" != "host"
  {
  }

  lemma JoinFree(parts: seq<string>, sep: char, ch: char)
    requires ch != sep && forall i :: 0 <= i < |parts| ==> Free(parts[i], ch)
    ensures Free(Join(parts, sep), ch)
  {
  }

  lemma PlainNames()
    ensures Free(TARGET, ' ') && Free("host", ' ') && Free("date", ' ') && Free("digest", ' ')
    ensures Free(TARGET, '"') && Free("host", '"') && Free("date", '"') && Free("digest", '"')
  {
  }

  /** The list of signed names comes back from its header parameter, and it names the date. */
  lemma NamesSurvive(body: Option<Bytes>)
    ensures Split(Join(Names(body), ' '), ' ') == Names(body)
    ensures QuoteFree(Join(Names(body), ' '))
    ensures Contains(Names(body), "date")
  {
    var names := Names(body);
    PlainNames();
    forall i | 0 <= i < |names| ensures Free(names[i], ' ') && Free(names[i], '"') {
      assert names[i] == TARGET || names[i] == "host" || names[i] == "date" || names[i] == "digest";
    }
    SplitUndoesJoin(names, ' ');
    JoinFree(names, ' ', '"');
    assert Lower(names[2]) == Lower("date");
  }

  /** How a request is judged that carries a header made by the signer: only its date, its digest,
      the presence of the signed headers and the signature itself are left to decide. */
  lemma JudgeSigned(c: Crypto, w: View, keyId: string, names: Option<Bytes>, sig: Bytes, body: Bytes, now: int)
    requires Lawful(c) && QuoteFree(keyId)
    requires Get(w, "Signature") == HeaderText(keyId, Join(Names(names), ' '), c.encode(sig))
    ensures Judge(c, w, body, now) ==
              if !DateInWindow(c, w, now) then BadDate
              else if !DigestMatches(c, w, body) then BadDigest
              else if !AllPresent(w, Names(names)) then HeaderMissing
              else if c.verify(SigningString(w, Names(names)), sig) then Accepted else Refused
  {
    NamesSurvive(names);
    HeaderReadsBack(keyId, Join(Names(names), ' '), c.encode(sig));
    assert c.decode(c.encode(sig)) == Some(sig);
  }

  function TargetLine(v: View): string {
    TARGET + ": " + Lower(v.verb) + " " + v.uri
  }

  /** The lines behind the host. */
  function Tail(date: string, digest: Option<string>): seq<string> {
    if digest.Some? then ["date: " + date, "digest: " + digest.value] else ["date: " + date]
  }

  function DigestOf(v: View, body: Option<Bytes>): Option<string> {
    if body.Some? then Some(Get(v, "Digest")) else None
  }

  lemma OtherLine(v: View, h: string)
    requires h != TARGET && h != "host"
    ensures Line(v, h) == h + ": " + Get(v, h)
  {
  }

  lemma HeaderLines(v: View)
    ensures Line(v, "date") == "date: " + Get(v, "Date")
    ensures Line(v, "digest") == "digest: " + Get(v, "Digest")
  {
    DateNames();
    DigestNames();
    NamesDiffer();
    OtherLine(v, "date");
    OtherLine(v, "digest");
    assert "date" + ": " == "date: " && "digest" + ": " == "digest: ";
  }

  lemma LineEach(v: View)
    ensures Line(v, TARGET) == TargetLine(v)
    ensures Line(v, "host") == "host: " + HostOf(v)
    ensures Line(v, "date") == "date: " + Get(v, "Date")
    ensures Line(v, "digest") == "digest: " + Get(v, "Digest")
  {
    NamesDiffer();
    HeaderLines(v);
  }

  lemma LinesOfAll(v: View, a: string, b: string, c: string, d: string)
    ensures Lines(v, [a, b, c]) == [Line(v, a), Line(v, b)] + [Line(v, c)]
    ensures Lines(v, [a, b, c, d]) == [Line(v, a), Line(v, b)] + [Line(v, c), Line(v, d)]
  {
  }

  lemma LinesOf(v: View, body: Option<Bytes>)
    ensures Lines(v, Names(body)) == [TargetLine(v), "host: " + HostOf(v)] + Tail(Get(v, "Date"), DigestOf(v, body))
  {
    LineEach(v);
    LinesOfAll(v, TARGET, "host", "date", "digest");
  }

  lemma PresentEach(v: View)
    ensures Present(v, TARGET) && (Present(v, "host") <==> HostOf(v) != "")
    ensures Present(v, "date") <==> Get(v, "Date") != ""
    ensures Present(v, "digest") <==> Get(v, "Digest") != ""
  {
    DateNames();
    DigestNames();
    NamesDiffer();
  }

  lemma PresentOf(v: View, body: Option<Bytes>)
    ensures AllPresent(v, Names(body)) <==>
              HostOf(v) != "" && Get(v, "Date") != "" && (body.Some? ==> Get(v, "Digest") != "")
  {
    PresentEach(v);
    AllOf(v, TARGET, "host", "date", "digest");
  }

  lemma AllOf(v: View, a: string, b: string, c: string, d: string)
    ensures AllPresent(v, [a, b, c]) <==> Present(v, a) && Present(v, b) && Present(v, c)
    ensures AllPresent(v, [a, b, c, d]) <==> Present(v, a) && Present(v, b) && Present(v, c) && Present(v, d)
  {
    var three, four := [a, b, c], [a, b, c, d];
    assert three[0] == four[0] == a && three[1] == four[1] == b && three[2] == four[2] == c && four[3] == d;
  }

  /** Changing one of the joined parts changes the whole. */
  lemma JoinTellsSecond(a: string, b: string, b': string, rest: seq<string>, sep: char)
    requires rest != []
    ensures Join([a, b] + rest, sep) == Join([a, b'] + rest, sep) <==> b == b'
  {
    var tail := [sep] + Join(rest, sep);
    assert ([a, b] + rest)[1..] == [b] + rest && ([b] + rest)[1..] == rest;
    assert ([a, b'] + rest)[1..] == [b'] + rest && ([b'] + rest)[1..] == rest;
    assert Join([a, b] + rest, sep) == a + [sep] + (b + tail) by {
      assert b + [sep] + Join(rest, sep) == b + tail;
    }
    assert Join([a, b'] + rest, sep) == a + [sep] + (b' + tail) by {
      assert b' + [sep] + Join(rest, sep) == b' + tail;
    }
    SameMiddle(a + [sep], b, b', tail);
  }

  lemma SameMiddle(front: string, b: string, b': string, tail: string)
    ensures front + (b + tail) == front + (b' + tail) <==> b == b'
  {
    if front + (b + tail) == front + (b' + tail) {
      var s := front + (b + tail);
      assert s[|front|..] == b + tail;
      assert s[|front|..] == b' + tail;
      assert (b + tail)[..|b|] == b;
      assert (b' + tail)[..|b'|] == b';
    }
  }

  /** The signing strings of two requests that differ at most in their host. */
  lemma TextTellsHost(v: View, w: View, body: Option<Bytes>)
    requires v.verb == w.verb && v.uri == w.uri && Get(v, "Date") == Get(w, "Date") && DigestOf(v, body) == DigestOf(w, body)
    ensures SigningString(v, Names(body)) == SigningString(w, Names(body)) <==> HostOf(v) == HostOf(w)
  {
    LinesOf(v, body);
    LinesOf(w, body);
    JoinTellsSecond(TargetLine(v), "host: " + HostOf(v), "host: " + HostOf(w), Tail(Get(v, "Date"), DigestOf(v, body)), '\n');
    SameMiddle("host: ", HostOf(v), HostOf(w), "");
    assert HostOf(v) + "" == HostOf(v) && HostOf(w) + "" == HostOf(w);
  }

  function Digested(c: Crypto, v: View, body: Option<Bytes>): string {
    if body.Some? then DIGEST_PREFIX + c.encode(c.sha(body.value)) else Get(v, "Digest")
  }

  /** What the signer covers. */
  lemma Covered(c: Crypto, v: View, urlHost: string, body: Option<Bytes>, now: int)
    ensures var u := v.(headers := Prepared(c, v.headers, urlHost, body, now));
            && Get(u, "Date") == c.printDate(now)
            && Get(u, "Digest") == Digested(c, v, body)
            && HostOf(u) == (if urlHost != "" then urlHost else v.host)
  {
    DateNames();
    DigestNames();
    OtherNames();
    NamesDiffer();
  }

  /** A header that is neither the signature nor the host arrives as it was. */
  lemma Travels(v: View, prepared: map<string, string>, text: string, urlHost: string, k: string)
    requires Canonical(k) == k && k != "Signature" && k != "Host"
    ensures Get(Arrived(v.(headers := prepared["Signature" := text]), urlHost), k) == Get(v.(headers := prepared), k)
  {
  }

  /** The signature arrives, the Host header does not. */
  lemma HeaderArrives(v: View, prepared: map<string, string>, text: string, urlHost: string)
    ensures var w := Arrived(v.(headers := prepared["Signature" := text]), urlHost);
            Get(w, "Signature") == text && HostOf(w) == (if v.host != "" then v.host else urlHost)
  {
    OtherNames();
    NamesDiffer();
  }

  /** What the server looks up: all but the host of what was covered, and the signature over it. */
  lemma LookedUp(v: View, prepared: map<string, string>, text: string, urlHost: string)
    ensures var u := v.(headers := prepared);
            var w := Arrived(v.(headers := prepared["Signature" := text]), urlHost);
            && Get(w, "Date") == Get(u, "Date")
            && Get(w, "Digest") == Get(u, "Digest")
            && Get(w, "Signature") == text
            && HostOf(w) == (if v.host != "" then v.host else urlHost)
  {
    DateNames();
    DigestNames();
    HeaderArrives(v, prepared, text, urlHost);
    NamesDiffer();
    Travels(v, prepared, text, urlHost, "Date");
    Travels(v, prepared, text, urlHost, "Digest");
  }

  /** No signature fits a second text. */
  ghost predicate Binding(c: Crypto) {
    forall m, n :: c.verify(m, c.sign(n)) ==> m == n
  }

  /** The host the signature covers is the one the server will see, and there is one. */
  predicate HostsAgree(v: View, urlHost: string) {
    (v.host != "" || urlHost != "") && (v.host == "" || urlHost == "" || v.host == urlHost)
  }

  /** The round trip: a request signed with a quote-free key identifier is accepted by the server,
      for every body, if and only if it arrives within the window, the request and its URL do not
      name different hosts or none at all, and a Digest preset on a request without a body is that of
      the empty one. */
  lemma SignedIsAccepted(c: Crypto, v: View, urlHost: string, keyId: string, body: Option<Bytes>, now: int, later: int)
    requires Lawful(c) && Binding(c) && QuoteFree(keyId)
    ensures var w := Arrived(v.(headers := SignedHeaders(c, v, urlHost, keyId, body, now)), urlHost);
            var sent := if body.Some? then body.value else [];
            Judge(c, w, sent, later) == Accepted <==>
              && -MAX_AGE <= later - Seconds(now) * SECOND <= MAX_AGE
              && HostsAgree(v, urlHost)
              && (body.Some? || DigestMatches(c, v, []))
  {
    var u := v.(headers := Prepared(c, v.headers, urlHost, body, now));
    var w := Arrived(v.(headers := SignedHeaders(c, v, urlHost, keyId, body, now)), urlHost);
    var sent := if body.Some? then body.value else [];
    var sig := c.sign(SigningString(u, Names(body)));
    Covered(c, v, urlHost, body, now);
    LookedUp(v, u.headers, HeaderText(keyId, Join(Names(body), ' '), c.encode(sig)), urlHost);
    JudgeSigned(c, w, keyId, body, sig, sent, later);
    PresentOf(w, body);
    TextTellsHost(u, w, body);
    assert c.parseDate(c.printDate(now)) == Some(Seconds(now)) && c.printDate(now) != "";
    assert body.Some? ==> Get(w, "Digest") != "";
  }

  // ---------------------------------------------------------------- what a signature protects

  /** Nothing in the signed lines breaks a line, as HTTP has it. */
  ghost predicate OnOneLine(v: View) {
    Free(v.verb, ' ') && Free(TargetLine(v), '\n') && Free(HostOf(v), '\n') && Free(Get(v, "Date"), '\n') && Free(Get(v, "Digest"), '\n')
  }

  lemma LinesAreFree(v: View, body: Option<Bytes>)
    requires OnOneLine(v)
    ensures forall i :: 0 <= i < |Lines(v, Names(body))| ==> Free(Lines(v, Names(body))[i], '\n')
  {
    LinesOf(v, body);
    Prefixed("host: ", HostOf(v));
    Prefixed("date: ", Get(v, "Date"));
    Prefixed("digest: ", Get(v, "Digest"));
  }

  lemma Prefixed(front: string, s: string)
    requires Free(front, '\n') && Free(s, '\n')
    ensures Free(front + s, '\n')
  {
  }

  lemma SameBehind(front: string, a: string, b: string)
    requires front + a == front + b
    ensures a == b
  {
    assert (front + a)[|front|..] == a;
    assert (front + b)[|front|..] == b;
  }

  /** Method and target can be told apart in their line. */
  lemma TargetTells(v: View, w: View)
    requires Free(v.verb, ' ') && Free(w.verb, ' ') && TargetLine(v) == TargetLine(w)
    ensures Lower(v.verb) == Lower(w.verb) && v.uri == w.uri
  {
    var a, b := Lower(v.verb), Lower(w.verb);
    var s, t := a + (" " + v.uri), b + (" " + w.uri);
    assert TargetLine(v) == (TARGET + ": ") + s && TargetLine(w) == (TARGET + ": ") + t;
    SameBehind(TARGET + ": ", s, t);
    forall i | 0 <= i < |a| ensures a[i] != ' ' { assert v.verb[i] != ' '; }
    forall i | 0 <= i < |b| ensures b[i] != ' ' { assert w.verb[i] != ' '; }
    IndexIs(s, ' ', |a|);
    IndexIs(t, ' ', |b|);
    assert a == s[..|a|] && b == t[..|b|];
    assert " " + v.uri == s[|a|..] && " " + w.uri == t[|b|..];
    SameBehind(" ", v.uri, w.uri);
  }

  /** Equal signing strings of one-line requests agree in everything that is signed. */
  lemma TextTellsAll(v: View, w: View, body: Option<Bytes>)
    requires OnOneLine(v) && OnOneLine(w) && SigningString(v, Names(body)) == SigningString(w, Names(body))
    ensures Lower(v.verb) == Lower(w.verb) && v.uri == w.uri && HostOf(v) == HostOf(w) && Get(v, "Date") == Get(w, "Date")
    ensures body.Some? ==> Get(v, "Digest") == Get(w, "Digest")
  {
    LinesAreFree(v, body);
    LinesAreFree(w, body);
    var a, b := Lines(v, Names(body)), Lines(w, Names(body));
    SplitUndoesJoin(a, '\n');
    SplitUndoesJoin(b, '\n');
    LinesOf(v, body);
    LinesOf(w, body);
    assert a[0] == b[0] && a[1] == b[1] && a[2] == b[2];
    TargetTells(v, w);
    SameBehind("host: ", HostOf(v), HostOf(w));
    SameBehind("date: ", Get(v, "Date"), Get(w, "Date"));
    if body.Some? {
      assert a[3] == b[3];
      SameBehind("digest: ", Get(v, "Digest"), Get(w, "Digest"));
    }
  }

  /** Whatever arrives under a signature made by the signer and is accepted has the method, target,
      host and date that were signed and, if there was a body, one with the same hash. */
  lemma AcceptedAsSigned(c: Crypto, v: View, urlHost: string, keyId: string, body: Option<Bytes>, now: int,
                         w: View, received: Bytes, later: int)
    requires Lawful(c) && Binding(c) && QuoteFree(keyId)
    requires var u := v.(headers := Prepared(c, v.headers, urlHost, body, now));
             && OnOneLine(u) && OnOneLine(w)
             && Get(w, "Signature") == HeaderText(keyId, Join(Names(body), ' '), c.encode(c.sign(SigningString(u, Names(body)))))
    requires Judge(c, w, received, later) == Accepted
    ensures Lower(w.verb) == Lower(v.verb) && w.uri == v.uri
    ensures HostOf(w) == (if urlHost != "" then urlHost else v.host)
    ensures Get(w, "Date") == c.printDate(now) && -MAX_AGE <= later - Seconds(now) * SECOND <= MAX_AGE
    ensures body.Some? ==> c.sha(received) == c.sha(body.value)
  {
    var u := v.(headers := Prepared(c, v.headers, urlHost, body, now));
    var sig := c.sign(SigningString(u, Names(body)));
    JudgeSigned(c, w, keyId, body, sig, received, later);
    Covered(c, v, urlHost, body, now);
    TextTellsAll(u, w, body);
    assert c.parseDate(c.printDate(now)) == Some(Seconds(now));
    if body.Some? {
      PresentOf(w, body);
      SameBehind(DIGEST_PREFIX, c.encode(c.sha(received)), c.encode(c.sha(body.value)));
      assert c.decode(c.encode(c.sha(received))) == Some(c.sha(received));
      assert c.decode(c.encode(c.sha(body.value))) == Some(c.sha(body.value));
    }
  }
}
