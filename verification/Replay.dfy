/** What an accepted signature says about the request it came with, whoever made the Signature header. */
module Replay {
  import opened Prelude
  import opened Signature
  import opened Signing

  // ---------------------------------------------------------------- the texts, written out

  lemma LowerIs(s: string, i: nat)
    requires i < |s|
    ensures |Lower(s)| == |s|
    ensures 'A' <= s[i] <= 'Z' ==> Lower(s)[i] as int == s[i] as int + 32
    ensures !('A' <= s[i] <= 'Z') ==> Lower(s)[i] == s[i]
  {
  }

  lemma JoinThree(a: string, b: string, c: string)
    ensures Join([a, b, c], '\n') == a + ("\n" + (b + ("\n" + c)))
  {
    var s := [a, b, c];
    assert s[1..] == [b, c] && [b, c][1..] == [c];
    assert "\n" == ['\n'];
    assert Join([b, c], '\n') == b + ("\n" + c);
  }

  lemma JoinFour(a: string, b: string, c: string, d: string)
    ensures Join([a, b, c, d], '\n') == a + ("\n" + (b + ("\n" + (c + ("\n" + d)))))
  {
    var s := [a, b, c, d];
    assert s[1..] == [b, c, d];
    assert "\n" == ['\n'];
    JoinThree(b, c, d);
  }

  /** The text under a signature of the signer, without and with a body. */
  lemma SignedText(v: View, b: Bytes)
    ensures var target, host, date := "(request-target): " + Lower(v.verb) + " " + v.uri, "host: " + HostOf(v), "date: " + Get(v, "Date");
            && SigningString(v, Names(None)) == target + ("\n" + (host + ("\n" + date)))
            && SigningString(v, Names(Some(b))) == target + ("\n" + (host + ("\n" + (date + ("\n" + ("digest: " + Get(v, "Digest")))))))
  {
    var target, host, date, digest := TargetLine(v), "host: " + HostOf(v), "date: " + Get(v, "Date"), "digest: " + Get(v, "Digest");
    LinesOf(v, None);
    LinesOf(v, Some(b));
    assert Lines(v, Names(None)) == [target, host, date];
    assert Lines(v, Names(Some(b))) == [target, host, date, digest];
    JoinThree(target, host, date);
    JoinFour(target, host, date, digest);
    assert TARGET + ": " == "(request-target): ";
  }

  lemma ListingFour(p: seq<(string, string)>)
    requires |p| == 4
    ensures Listing(p) == Pair(p[0].0, p[0].1) + ("," + (Pair(p[1].0, p[1].1) + ("," + (Pair(p[2].0, p[2].1) + ("," + Pair(p[3].0, p[3].1))))))
  {
    var q := p[1..];
    var r := q[1..];
    var s := r[1..];
    assert q[0] == p[1] && r[0] == p[2] && s[0] == p[3] && |s| == 1;
    assert Listing(s) == Pair(p[3].0, p[3].1);
    assert Listing(r) == Pair(p[2].0, p[2].1) + ("," + Listing(s));
    assert Listing(q) == Pair(p[1].0, p[1].1) + ("," + Listing(r));
  }

  /** The list of signed names in it. */
  lemma NamesWritten(b: Bytes)
    ensures Join(Names(None), ' ') == "(request-target) host date"
    ensures Join(Names(Some(b)), ' ') == "(request-target) host date digest"
  {
    var h, t, three, four := ["host", "date"], ["host", "date", "digest"], Names(None), Names(Some(b));
    assert h[1..] == ["date"] && t[1..] == ["date", "digest"] && t[1..][1..] == ["digest"];
    assert three[1..] == h && four[1..] == t;
    assert Join(h, ' ') == "host date";
    assert Join(t[1..], ' ') == "date digest";
    assert Join(t, ' ') == "host date digest";
  }

  /** The Signature header of the signer. */
  lemma HeaderWritten(keyId: string, names: string, sig: string)
    ensures HeaderText(keyId, names, sig) ==
              ("keyId=\"" + keyId + "\"") + ("," + (("algorithm=\"" + "rsa-sha256" + "\"") + ("," +
              (("headers=\"" + names + "\"") + ("," + ("signature=\"" + sig + "\""))))))
  {
    ListingFour(HeaderPairs(keyId, names, sig));
    PairWritten("keyId", "keyId=\"", keyId);
    PairWritten("algorithm", "algorithm=\"", "rsa-sha256");
    PairWritten("headers", "headers=\"", names);
    PairWritten("signature", "signature=\"", sig);
  }

  lemma PairWritten(k: string, front: string, v: string)
    requires front == k + "=\""
    ensures Pair(k, v) == front + v + "\""
  {
  }

  // ---------------------------------------------------------------- the date is signed

  /** Only its own spellings name the date. */
  lemma NamesTheDate(h: string)
    requires Lower(h) == "date"
    ensures Canonical(h) == "Date" == Canonical("Date") && h != TARGET && h != "host"
  {
    assert |h| == |Lower(h)| == 4;
    var d := "date";
    forall i | 0 <= i < |h| ensures LowerChar(h[i]) == d[i] && 'a' <= LowerChar(h[i]) <= 'z' {
      assert Lower(h)[i] == LowerChar(h[i]);
    }
    DateNames();
    Capitalised(h, "Date");
    assert Lower("host")[0] == 'h' && Lower(TARGET)[0] == '(' && Lower(h)[0] == 'd';
  }

  /** Where the date stands in the list, its line carries the Date of the request. */
  lemma DateLine(v: View, i: nat)
    requires i < |SignedNames(v)| && Lower(SignedNames(v)[i]) == "date"
    ensures Lines(v, SignedNames(v))[i] == SignedNames(v)[i] + ": " + Get(v, "Date")
  {
    NamesTheDate(SignedNames(v)[i]);
  }

  /** Acceptance, for every request and every Signature header: the date is named and its line is part of
      the text that was verified, the algorithm is absent or known, and all the rest holds. */
  lemma AcceptedMeans(c: Crypto, v: View, body: Bytes, now: int)
    requires Judge(c, v, body, now) == Accepted
    ensures AlgorithmKnown(v) && DateRecent(c, v, now) && DigestRight(c, v, body) && NamedAreThere(v)
    ensures SignatureFits(c, v)
    ensures SigningString(v, SignedNames(v)) == Join(Lines(v, SignedNames(v)), '\n')
    ensures exists i :: 0 <= i < |SignedNames(v)| && Lower(SignedNames(v)[i]) == "date" &&
                        Lines(v, SignedNames(v))[i] == SignedNames(v)[i] + ": " + Get(v, "Date")
  {
    VerdictIsRight(c, v, body, now);
    var i :| 0 <= i < |SignedNames(v)| && Lower(SignedNames(v)[i]) == "date";
    DateLine(v, i);
  }

  // ---------------------------------------------------------------- one signature, one request

  /** A signature fits one text only. */
  ghost predicate OneTextEach(c: Crypto) {
    forall m, n, sig :: c.verify(m, sig) && c.verify(n, sig) ==> m == n
  }

  /** No line of the verified text is broken, as HTTP has it. */
  ghost predicate LinesUnbroken(v: View) {
    forall i :: 0 <= i < |SignedNames(v)| ==> Free(Lines(v, SignedNames(v))[i], '\n')
  }

  /** A Signature header accepted with two requests covers the same lines in both. */
  lemma SameLines(c: Crypto, v: View, body: Bytes, now: int, w: View, received: Bytes, later: int)
    requires OneTextEach(c) && LinesUnbroken(v) && LinesUnbroken(w) && Get(v, "Signature") == Get(w, "Signature")
    requires Judge(c, v, body, now) == Accepted && Judge(c, w, received, later) == Accepted
    ensures Lines(v, SignedNames(v)) == Lines(w, SignedNames(w))
  {
    var hs := SignedNames(v);
    AcceptedMeans(c, v, body, now);
    AcceptedMeans(c, w, received, later);
    assert SignedNames(w) == hs && Given(w) == Given(v);
    assert SigningString(v, hs) == SigningString(w, hs);
    SplitUndoesJoin(Lines(v, hs), '\n');
    SplitUndoesJoin(Lines(w, hs), '\n');
  }

  /** Two requests accepted under one Signature header agree in every header it lists, and in the date
      even if nobody but the sender chose the list. So no signature is accepted a second time under a
      fresh date, and none is accepted at two times more than 26 hours apart. */
  lemma OneSignatureOneDate(c: Crypto, v: View, body: Bytes, now: int, w: View, received: Bytes, later: int)
    requires OneTextEach(c) && LinesUnbroken(v) && LinesUnbroken(w) && Get(v, "Signature") == Get(w, "Signature")
    requires Judge(c, v, body, now) == Accepted && Judge(c, w, received, later) == Accepted
    ensures Get(v, "Date") == Get(w, "Date")
    ensures now - 93_600_000_000_000 <= later <= now + 93_600_000_000_000
    ensures forall i :: 0 <= i < |SignedNames(v)| ==> Line(v, SignedNames(v)[i]) == Line(w, SignedNames(v)[i])
  {
    var hs := SignedNames(v);
    assert SignedNames(w) == hs;
    SameLines(c, v, body, now, w, received, later);
    AcceptedMeans(c, v, body, now);
    AcceptedMeans(c, w, received, later);
    forall i | 0 <= i < |hs| ensures Line(v, hs[i]) == Line(w, hs[i]) {
      assert Lines(v, hs)[i] == Lines(w, hs)[i];
    }
    var i :| 0 <= i < |hs| && Lower(hs[i]) == "date" && Lines(v, hs)[i] == hs[i] + ": " + Get(v, "Date");
    DateLine(w, i);
    SameBehind(hs[i] + ": ", Get(v, "Date"), Get(w, "Date"));
  }
}
