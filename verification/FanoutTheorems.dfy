/** What the fan-out guarantees: who is passed to makeJob, how often, and who gets a delivery. */
module FanoutTheorems {
  import opened Prelude
  import opened Fanout

  // ---------------------------------------------------------------- paging

  ghost predicate IdsAscend(es: seq<Entry>) {
    forall i, k :: 0 <= i < k < |es| ==> es[i].id < es[k].id
  }

  lemma PrefixPages(w: World, persona: Id, pages: seq<seq<Id>>, n: nat)
    requires Paging(w, persona, pages) && n <= |pages|
    ensures Paging(w, persona, pages[..n])
    ensures CursorAt(pages[..n], n) == CursorAt(pages, n)
    ensures forall k: nat :: k < n && k + 1 < |pages| ==> |pages[k]| == PAGE
  {
    forall k: nat | k < n ensures PageOk(w, persona, pages[..n], k) {
      assert PageOk(w, persona, pages, k);
      assert CursorAt(pages[..n], k) == CursorAt(pages, k);
    }
    forall k: nat | k < n && k + 1 < |pages| ensures |pages[k]| == PAGE {
      assert PageOk(w, persona, pages, k);
    }
  }

  ghost predicate UpTo(es: seq<Entry>, bound: Id) {
    forall i :: 0 <= i < |es| ==> es[i].id <= bound
  }

  lemma JoinAscends(a: seq<Entry>, b: seq<Entry>, bound: Id)
    requires IdsAscend(a) && IdsAscend(b)
    requires a == [] || (UpTo(a, bound) && forall i :: 0 <= i < |b| ==> bound < b[i].id)
    ensures IdsAscend(a + b)
  {
  }

  /** One page: its rows ascend, lie beyond the cursor, and end at its last id. */
  lemma PageEntries(t: Table, persona: Id, cursor: Id, page: seq<Id>)
    requires page == Page(t, persona, cursor, PAGE)
    ensures IdsAscend(EntriesOf(t, page))
    ensures forall i :: 0 <= i < |page| ==> Beyond(EntriesOf(t, page)[i].id, cursor)
    ensures |page| == PAGE ==> UpTo(EntriesOf(t, page), page[PAGE - 1]) && page[0] < page[PAGE - 1]
  {
    PageIsExact(t, persona, cursor, PAGE);
    if |page| == PAGE {
      forall i | 0 <= i < PAGE ensures page[i] <= page[PAGE - 1] {
        assert i == PAGE - 1 || page[i] < page[PAGE - 1];
      }
    }
  }

  /** Ids come in ascending order over all pages, so none comes twice. */
  lemma {:induction false} SeenAscends(w: World, persona: Id, pages: seq<seq<Id>>)
    requires Paging(w, persona, pages)
    ensures IdsAscend(Seen(w, pages))
    ensures pages != [] && |pages[|pages| - 1]| == PAGE ==>
              CursorAt(pages, |pages|) != NIL && UpTo(Seen(w, pages), CursorAt(pages, |pages|))
    decreases |pages|
  {
    if pages != [] {
      var n := |pages| - 1;
      PrefixPages(w, persona, pages, n);
      SeenAscends(w, persona, pages[..n]);
      assert PageOk(w, persona, pages, n);
      var cursor, page := CursorAt(pages, n), pages[n];
      PageEntries(w.tables(n), persona, cursor, page);
      var before, rows := Seen(w, pages[..n]), EntriesOf(w.tables(n), page);
      if n > 0 {
        assert pages[..n][n - 1] == pages[n - 1];
        JoinAscends(before, rows, cursor);
        if |page| == PAGE {
          assert Beyond(rows[0].id, cursor);
        }
      }
    }
  }

  /** At one of the first n queries e was the row of an approved follower. */
  ghost predicate WasListed(w: World, persona: Id, n: nat, e: Entry) {
    exists k: nat :: k < n && Listed(w.tables(k), persona, e.id) && w.tables(k)[e.id].actor == e.actor
  }

  /** id was an approved follower at each of the first n queries. */
  ghost predicate Steady(w: World, persona: Id, n: nat, id: Id) {
    forall k: nat :: k < n ==> Listed(w.tables(k), persona, id)
  }

  /** Every follower met was an approved follower of the persona in the table of its query. */
  lemma {:induction false} SeenWasListed(w: World, persona: Id, pages: seq<seq<Id>>, e: Entry)
    requires Paging(w, persona, pages) && e in Seen(w, pages)
    ensures WasListed(w, persona, |pages|, e)
    decreases |pages|
  {
    var n := |pages| - 1;
    PrefixPages(w, persona, pages, n);
    var last := EntriesOf(w.tables(n), pages[n]);
    if e in Seen(w, pages[..n]) {
      SeenWasListed(w, persona, pages[..n], e);
    } else {
      var i :| 0 <= i < |last| && last[i] == e;
      assert PageOk(w, persona, pages, n);
      PageIsExact(w.tables(n), persona, CursorAt(pages, n), PAGE);
      assert Listed(w.tables(n), persona, pages[n][i]);
    }
  }

  /** A follower listed at each query so far was on a page already or is still ahead. */
  lemma {:induction false} MetOrAhead(w: World, persona: Id, pages: seq<seq<Id>>, id: Id, n: nat)
    requires Paging(w, persona, pages) && n <= |pages|
    requires Steady(w, persona, |pages|, id)
    ensures (exists k: nat :: k < n && id in pages[k]) ||
            (Beyond(id, CursorAt(pages, n)) && (n > 0 ==> |pages[n - 1]| == PAGE))
  {
    if n > 0 {
      MetOrAhead(w, persona, pages, id, n - 1);
      assert PageOk(w, persona, pages, n - 1);
      PageIsExact(w.tables(n - 1), persona, CursorAt(pages, n - 1), PAGE);
      assert Listed(w.tables(n - 1), persona, id);
      if id !in pages[n - 1] && Beyond(id, CursorAt(pages, n - 1)) {
        assert pages[n - 1][PAGE - 1] < id;
      }
    }
  }

  lemma {:induction false} OnPageMeansSeen(w: World, pages: seq<seq<Id>>, k: nat, id: Id)
    requires k < |pages| && id in pages[k]
    ensures exists i :: 0 <= i < |Seen(w, pages)| && Seen(w, pages)[i].id == id
    decreases |pages|
  {
    var n := |pages| - 1;
    var before, last := Seen(w, pages[..n]), EntriesOf(w.tables(n), pages[n]);
    assert Seen(w, pages) == before + last;
    if k == n {
      var i :| 0 <= i < |last| && pages[n][i] == id;
      assert Seen(w, pages)[|before| + i].id == id;
    } else {
      assert pages[..n][k] == pages[k];
      OnPageMeansSeen(w, pages[..n], k, id);
      var i :| 0 <= i < |before| && before[i].id == id;
      assert Seen(w, pages)[i].id == id;
    }
  }

  /** Coverage: whoever was an approved follower at every query of a finished run was met. */
  lemma SteadyFollowersAreMet(w: World, persona: Id, pages: seq<seq<Id>>, id: Id)
    requires Paging(w, persona, pages) && pages != [] && |pages[|pages| - 1]| < PAGE
    requires Steady(w, persona, |pages|, id)
    ensures exists i :: 0 <= i < |Seen(w, pages)| && Seen(w, pages)[i].id == id
  {
    MetOrAhead(w, persona, pages, id, |pages|);
    var k: nat :| k < |pages| && id in pages[k];
    OnPageMeansSeen(w, pages, k, id);
  }

  // ---------------------------------------------------------------- the circuit breaker

  /** The decision for one follower, read off the cache the run ends with. */
  predicate Live(w: World, cache: map<string, bool>, e: Entry) {
    var h := w.host(e.actor);
    h == "" || (h in cache && !cache[h])
  }

  /** The cached answer is the one given when the host was first met. */
  ghost predicate FirstAnswer(w: World, es: seq<Entry>, h: string, answer: bool) {
    exists i :: 0 <= i < |es| && w.host(es[i].actor) == h && answer == w.dead(i, h) &&
                forall k :: 0 <= k < i ==> w.host(es[k].actor) != h
  }

  lemma {:induction false} CacheIsFirstAnswers(w: World, es: seq<Entry>)
    ensures forall i :: 0 <= i < |es| && w.host(es[i].actor) != "" ==> w.host(es[i].actor) in Screen(w, es).1
    ensures forall h :: h in Screen(w, es).1 ==> h != "" && FirstAnswer(w, es, h, Screen(w, es).1[h])
    decreases |es|
  {
    if es != [] {
      var n := |es| - 1;
      var init := es[..n];
      CacheIsFirstAnswers(w, init);
      var c0, c := Screen(w, init).1, Screen(w, es).1;
      var hn := w.host(es[n].actor);
      forall i | 0 <= i < |es| && w.host(es[i].actor) != "" ensures w.host(es[i].actor) in c {
        if i < n { assert init[i] == es[i]; }
      }
      forall h | h in c ensures h != "" && FirstAnswer(w, es, h, c[h]) {
        if h in c0 {
          var i :| 0 <= i < |init| && w.host(init[i].actor) == h && c0[h] == w.dead(i, h) &&
                   forall k :: 0 <= k < i ==> w.host(init[k].actor) != h;
          assert es[i] == init[i] && forall k :: 0 <= k < i ==> es[k] == init[k];
        } else {
          forall k | 0 <= k < n ensures w.host(es[k].actor) != h { assert init[k] == es[k]; }
          assert h == hn && c[h] == w.dead(n, h);
        }
      }
    }
  }

  /** The cache only grows, so an earlier decision stands. */
  lemma DecisionStands(w: World, init: seq<Entry>, e: Entry, x: Entry)
    requires x in init
    ensures Live(w, Screen(w, init + [e]).1, x) == Live(w, Screen(w, init).1, x)
  {
    CacheIsFirstAnswers(w, init);
    ScreenNext(w, init, e);
    var i :| 0 <= i < |init| && init[i] == x;
  }

  /** One decision per domain: a follower met is passed on exactly if the final cache calls its
      host live, or it has no host. */
  lemma {:induction false} OneDecisionPerDomain(w: World, es: seq<Entry>)
    ensures forall e :: e in Screen(w, es).0 <==> e in es && Live(w, Screen(w, es).1, e)
    decreases |es|
  {
    if es != [] {
      var init, last := es[..|es| - 1], es[|es| - 1];
      assert es == init + [last];
      OneDecisionPerDomain(w, init);
      ScreenNext(w, init, last);
      var passed, cache := Screen(w, es).0, Screen(w, es).1;
      forall x ensures x in passed <==> x in es && Live(w, cache, x) {
        if x in init { DecisionStands(w, init, last, x); }
      }
    }
  }

  /** Passing on keeps the order. */
  lemma {:induction false} PassedAscends(w: World, es: seq<Entry>)
    requires IdsAscend(es)
    ensures IdsAscend(Screen(w, es).0)
    decreases |es|
  {
    if es != [] {
      var init, last := es[..|es| - 1], es[|es| - 1];
      assert es == init + [last];
      PassedAscends(w, init);
      OneDecisionPerDomain(w, init);
      ScreenNext(w, init, last);
      forall i | 0 <= i < |Screen(w, init).0| ensures Screen(w, init).0[i].id < last.id {
        var x := Screen(w, init).0[i];
        assert x in init;
        var k :| 0 <= k < |init| && init[k] == x;
        assert es[k] == x;
      }
    }
  }

  /** The paging theorem. In a finished run over a table that changes freely between pages: no id
      is passed to makeJob twice; a follower approved at every query is passed exactly if its
      host is cached as live; and whoever is passed was an approved follower at some query. */
  lemma FollowersPassedOnce(w: World, persona: Id, served: set<Uri>, track: bool, r: Report)
    requires Ran(w, persona, served, track, r)
    ensures IdsAscend(r.passed)
    ensures r.ok ==> forall id :: Steady(w, persona, |r.pages|, id) ==>
              exists e :: e in r.seen && e.id == id && (e in r.passed <==> Live(w, r.cache, e))
    ensures forall e :: e in r.passed ==> Live(w, r.cache, e) && WasListed(w, persona, |r.pages|, e)
  {
    SeenAscends(w, persona, r.pages);
    PassedAscends(w, r.seen);
    OneDecisionPerDomain(w, r.seen);
    if r.ok {
      forall id | Steady(w, persona, |r.pages|, id)
        ensures exists e :: e in r.seen && e.id == id && (e in r.passed <==> Live(w, r.cache, e))
      {
        SteadyFollowersAreMet(w, persona, r.pages, id);
        var i :| 0 <= i < |r.seen| && r.seen[i].id == id;
        assert r.seen[i] in r.seen;
      }
    }
    forall e | e in r.passed ensures WasListed(w, persona, |r.pages|, e) {
      SeenWasListed(w, persona, r.pages, e);
    }
  }

  // ---------------------------------------------------------------- deliveries

  /** Under how many ids an actor was passed. */
  ghost function Times(passed: seq<Entry>, a: Uri): nat
    decreases |passed|
  {
    if passed == [] then 0
    else Times(passed[..|passed| - 1], a) + (if passed[|passed| - 1].actor == a then 1 else 0)
  }

  lemma {:induction false} TimesPositive(passed: seq<Entry>, a: Uri)
    ensures Times(passed, a) > 0 <==> exists i :: 0 <= i < |passed| && passed[i].actor == a
    decreases |passed|
  {
    if passed != [] {
      var n := |passed| - 1;
      var p := passed[..n];
      TimesPositive(p, a);
      if i :| 0 <= i < |p| && p[i].actor == a { assert passed[i].actor == a; }
      if i :| 0 <= i < |passed| && passed[i].actor == a { assert i == n || p[i].actor == a; }
    }
  }

  lemma {:induction false} TimesTwice(passed: seq<Entry>, a: Uri)
    ensures Times(passed, a) > 1 <==> exists i, k :: 0 <= i < k < |passed| && passed[i].actor == a && passed[k].actor == a
    decreases |passed|
  {
    if passed != [] {
      var n := |passed| - 1;
      var p := passed[..n];
      TimesTwice(p, a);
      TimesPositive(p, a);
      if i, k :| 0 <= i < k < |p| && p[i].actor == a && p[k].actor == a {
        assert passed[i].actor == a && passed[k].actor == a;
      }
      if i :| 0 <= i < |p| && p[i].actor == a && passed[n].actor == a {
        assert passed[i].actor == a;
      }
      if i, k :| 0 <= i < k < |passed| && passed[i].actor == a && passed[k].actor == a {
        assert p[i].actor == a && (k == n || p[k].actor == a);
      }
    }
  }

  /** The announce handlers remember whom they served: one delivery per actor, however many ids
      the actor had while the run went on, and none for an actor served before. */
  lemma {:induction false} TrackedDeliveries(passed: seq<Entry>, served: set<Uri>)
    ensures var (out, now) := Deliveries(passed, served, true);
            && (forall a :: multiset(out)[a] <= 1)
            && (forall a :: a in out <==> a !in served && exists e :: e in passed && e.actor == a)
            && now == served + set a | a in out
    decreases |passed|
  {
    if passed != [] {
      var init, last := passed[..|passed| - 1], passed[|passed| - 1];
      assert passed == init + [last];
      TrackedDeliveries(init, served);
      DeliverNext(init, last, served, true);
      var out0 := Deliveries(init, served, true).0;
      var out := Deliveries(passed, served, true).0;
      forall a ensures a in out <==> a !in served && exists e :: e in passed && e.actor == a {
        if e :| e in init && e.actor == a { assert e in passed; }
        if e :| e in passed && e.actor == a { assert e in init || e == last; }
      }
      if out != out0 {
        assert multiset(out) == multiset(out0) + multiset{last.actor};
      }
    }
  }

  /** The other handlers only skip the actors served before the fan-out: an actor gets one
      delivery for every id it was passed under. */
  lemma {:induction false} UntrackedDeliveries(passed: seq<Entry>, served: set<Uri>)
    ensures var (out, now) := Deliveries(passed, served, false);
            now == served && forall a :: multiset(out)[a] == if a in served then 0 else Times(passed, a)
    decreases |passed|
  {
    if passed != [] {
      var n := |passed| - 1;
      UntrackedDeliveries(passed[..n], served);
      var (out0, now0) := Deliveries(passed[..n], served, false);
      var (out, now) := Deliveries(passed, served, false);
      if out != out0 {
        assert out == out0 + [passed[n].actor];
        assert multiset(out) == multiset(out0) + multiset{passed[n].actor};
      }
    }
  }

  // ---------------------------------------------------------------- batches

  lemma {:induction false} ScreenGrows(w: World, es: seq<Entry>, more: seq<Entry>)
    ensures Screen(w, es).0 <= Screen(w, es + more).0
    decreases |more|
  {
    if more == [] {
      assert es + more == es;
    } else {
      var n := |more| - 1;
      ScreenGrows(w, es, more[..n]);
      assert es + more == es + more[..n] + [more[n]];
      ScreenNext(w, es + more[..n], more[n]);
    }
  }

  lemma {:induction false} DeliveriesGrow(passed: seq<Entry>, more: seq<Entry>, served: set<Uri>, track: bool)
    ensures Deliveries(passed, served, track).0 <= Deliveries(passed + more, served, track).0
    decreases |more|
  {
    if more == [] {
      assert passed + more == passed;
    } else {
      var n := |more| - 1;
      DeliveriesGrow(passed, more[..n], served, track);
      assert passed + more == passed + more[..n] + [more[n]];
      DeliverNext(passed + more[..n], more[n], served, track);
    }
  }

  /** A further page only adds deliveries. */
  lemma GivenGrows(w: World, served: set<Uri>, track: bool, pages: seq<seq<Id>>, k: nat)
    requires k < |pages|
    ensures Given(w, served, track, pages[..k]) <= Given(w, served, track, pages[..k + 1])
  {
    var before, rows := Seen(w, pages[..k]), EntriesOf(w.tables(k), pages[k]);
    assert pages[..k + 1] == pages[..k] + [pages[k]];
    SeenGrows(w, pages[..k], pages[k]);
    ScreenGrows(w, before, rows);
    var p, q := Screen(w, before).0, Screen(w, before + rows).0;
    DeliveriesGrow(p, q[|p|..], served, track);
    assert q == p + q[|p|..];
  }

  /** Delivery number i of the run, which goes to a, belongs to the batch of page k. */
  ghost predicate InBatch(w: World, served: set<Uri>, track: bool, pages: seq<seq<Id>>, k: nat, i: nat, a: Uri)
    requires k < |pages|
  {
    var before, after := Given(w, served, track, pages[..k]), Given(w, served, track, pages[..k + 1]);
    |before| <= i < |after| && after[i] == a
  }

  /** Some page has a batch that holds delivery number i, and that batch went in. */
  ghost predicate Stands(w: World, served: set<Uri>, track: bool, pages: seq<seq<Id>>, i: nat, a: Uri) {
    exists k: nat :: k < |pages| && InBatch(w, served, track, pages, k, i, a) && !w.batchFails(k)
  }

  lemma {:induction false} BatchOf(w: World, served: set<Uri>, track: bool, pages: seq<seq<Id>>, n: nat, i: nat) returns (k: nat)
    requires n <= |pages| && i < |Given(w, served, track, pages[..n])|
    ensures k < n && InBatch(w, served, track, pages, k, i, Given(w, served, track, pages[..n])[i])
  {
    assert n > 0;
    GivenGrows(w, served, track, pages, n - 1);
    if i < |Given(w, served, track, pages[..n - 1])| {
      k := BatchOf(w, served, track, pages, n - 1, i);
    } else {
      k := n - 1;
    }
  }

  /** Every delivery a run reports, also when it breaks off, stands in the batch of a page that went in. */
  lemma SentStandsInBatch(w: World, persona: Id, served: set<Uri>, track: bool, r: Report)
    requires Ran(w, persona, served, track, r)
    ensures forall i: nat :: i < |r.sent| ==> Stands(w, served, track, r.pages, i, r.sent[i])
  {
    forall i: nat | i < |r.sent| ensures Stands(w, served, track, r.pages, i, r.sent[i]) {
      var k := BatchOf(w, served, track, r.pages, r.stored, i);
      assert Adds(w, served, track, r.pages, k);
    }
  }

  /** A run succeeds exactly if its last page was not full and no batch with a delivery in it was
      refused; a listing that failed was never reached. */
  lemma SucceedsExactly(w: World, persona: Id, served: set<Uri>, track: bool, r: Report)
    requires Ran(w, persona, served, track, r)
    ensures r.ok <==> r.pages != [] && |r.pages[|r.pages| - 1]| < 100 &&
                      forall k: nat :: k < |r.pages| && Adds(w, served, track, r.pages, k) ==> !w.batchFails(k)
    ensures forall k: nat :: k < |r.pages| ==> !w.listFails(k)
    ensures r.ok ==> r.sent == Given(w, served, track, r.pages)
  {
    if r.ok { assert r.pages[..r.stored] == r.pages; }
  }

  /** A refused batch that has a delivery in it is the last thing a run does, and nothing of it or of a
      later page is reported as sent. */
  lemma RefusedBatchEndsRun(w: World, persona: Id, served: set<Uri>, track: bool, r: Report, k: nat)
    requires Ran(w, persona, served, track, r)
    requires k < |r.pages| && Adds(w, served, track, r.pages, k) && w.batchFails(k)
    ensures !r.ok && |r.pages| == k + 1 && r.sent == Given(w, served, track, r.pages[..k])
  {
  }
}
