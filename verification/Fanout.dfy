/** Fan-out of one job to the followers of a persona: keyset paging over a table that may change
    between pages, a per-run cache of dead domains, and the set of actors already served. */
module Fanout {
  import opened Prelude

  type Id = nat
  type Uri = string

  datatype Follower = Follower(persona: Id, actor: Uri, approved: bool)

  type Table = map<Id, Follower>

  const NIL: Id := 0
  const PAGE: nat := 100

  // ---------------------------------------------------------------- one page

  predicate Listed(t: Table, persona: Id, id: Id) {
    id in t && t[id].persona == persona && t[id].approved
  }

  /** The nil cursor asks for the first page. */
  predicate Beyond(id: Id, cursor: Id) {
    cursor == NIL || id > cursor
  }

  ghost predicate Ascends(s: seq<Id>) {
    forall i, k :: 0 <= i < k < |s| ==> s[i] < s[k]
  }

  lemma {:induction false} LeastExists(s: set<Id>) returns (m: Id)
    requires s != {}
    ensures m in s && forall k :: k in s ==> m <= k
    decreases s
  {
    m :| m in s;
    var rest := s - {m};
    if rest != {} {
      var least := LeastExists(rest);
      assert forall k :: k in s ==> k == m || k in rest;
      if least < m { m := least; }
    } else {
      assert s == {m};
    }
  }

  lemma HasLeast(s: set<Id>)
    requires s != {}
    ensures exists m :: m in s && forall k :: k in s ==> m <= k
  {
    var m := LeastExists(s);
  }

  /** ORDER BY id ASC. */
  function Ascending(s: set<Id>): seq<Id> {
    if s == {} then [] else
      HasLeast(s);
      var m :| m in s && forall k :: k in s ==> m <= k;
      [m] + Ascending(s - {m})
  }

  lemma AscendsAfter(m: Id, rest: seq<Id>)
    requires Ascends(rest) && forall x :: x in rest ==> m < x
    ensures Ascends([m] + rest)
  {
    var r := [m] + rest;
    forall i, k | 0 <= i < k < |r| ensures r[i] < r[k] {
      assert r[k] == rest[k - 1] && rest[k - 1] in rest;
    }
  }

  lemma {:induction false} AscendingIsSorted(s: set<Id>)
    ensures Ascends(Ascending(s))
    ensures forall id :: id in Ascending(s) <==> id in s
    decreases s
  {
    if s != {} {
      HasLeast(s);
      var r := Ascending(s);
      var m :| m in s && (forall k :: k in s ==> m <= k) && r == [m] + Ascending(s - {m});
      AscendingIsSorted(s - {m});
      AscendsAfter(m, Ascending(s - {m}));
    }
  }

  function Page(t: Table, persona: Id, cursor: Id, limit: nat): seq<Id> {
    var all := Ascending(set id | id in t && Listed(t, persona, id) && Beyond(id, cursor));
    if |all| <= limit then all else all[..limit]
  }

  /** A page is ascending, holds only approved followers beyond the cursor, and leaves one out
      only when it is full and that one comes later. */
  lemma PageIsExact(t: Table, persona: Id, cursor: Id, limit: nat)
    ensures var p := Page(t, persona, cursor, limit);
            && |p| <= limit && Ascends(p)
            && (forall i :: 0 <= i < |p| ==> Listed(t, persona, p[i]) && Beyond(p[i], cursor))
            && (forall id :: Listed(t, persona, id) && Beyond(id, cursor) && id !in p ==>
                  |p| == limit && forall i :: 0 <= i < |p| ==> p[i] < id)
    ensures forall id: Id :: Listed(t, persona, id) && Beyond(id, cursor) <==>
              id in t && t[id].persona == persona && t[id].approved && (cursor == 0 || id > cursor)
  {
    var wanted := set id | id in t && Listed(t, persona, id) && Beyond(id, cursor);
    var all := Ascending(wanted);
    AscendingIsSorted(wanted);
    var p := Page(t, persona, cursor, limit);
    forall i | 0 <= i < |p| ensures Listed(t, persona, p[i]) && Beyond(p[i], cursor) {
      assert p[i] in all;
    }
    forall id | Listed(t, persona, id) && Beyond(id, cursor) && id !in p
      ensures |p| == limit && forall i :: 0 <= i < |p| ==> p[i] < id
    {
      assert id in all;
      var k :| 0 <= k < |all| && all[k] == id;
      forall x | 0 <= x < limit ensures all[x] in p { assert p[x] == all[x]; }
    }
  }

  // ---------------------------------------------------------------- the world around one run

  /** What one run meets: the follower table at its k-th query, the answer of the dead-domain
      query asked for its n-th follower, the host of a URI, and which queries and batch inserts
      fail. */
  datatype World = World(
    tables: nat -> Table,
    dead: (nat, string) -> bool,
    host: Uri -> string,
    listFails: nat -> bool,
    batchFails: nat -> bool)

  datatype Entry = Entry(id: Id, actor: Uri)

  /** What one run did. */
  datatype Report = Report(
    ok: bool,
    pages: seq<seq<Id>>,
    stored: nat,                 // pages whose deliveries are in the queue
    seen: seq<Entry>,
    passed: seq<Entry>,          // given to makeJob
    cache: map<string, bool>,
    sent: seq<Uri>)              // actors for whom a delivery was enqueued

  // ---------------------------------------------------------------- specification

  ghost function CursorAt(pages: seq<seq<Id>>, k: nat): Id
    requires k <= |pages|
  {
    if k == 0 || pages[k - 1] == [] then NIL else pages[k - 1][|pages[k - 1]| - 1]
  }

  /** Index k of a paging: the right page, and full when another follows. */
  ghost predicate PageOk(w: World, persona: Id, pages: seq<seq<Id>>, k: nat)
    requires k < |pages|
  {
    pages[k] == Page(w.tables(k), persona, CursorAt(pages, k), PAGE) && (k + 1 < |pages| ==> |pages[k]| == PAGE)
  }

  /** Each page continues after the last id of the one before, in the table of its own time, and
      only a full page is followed by another. */
  ghost predicate Paging(w: World, persona: Id, pages: seq<seq<Id>>) {
    forall k: nat :: k < |pages| ==> PageOk(w, persona, pages, k)
  }

  /** The rows of one page, as scanned. */
  function EntriesOf(t: Table, page: seq<Id>): seq<Entry> {
    seq(|page|, i requires 0 <= i < |page| => Entry(page[i], if page[i] in t then t[page[i]].actor else ""))
  }

  ghost function Seen(w: World, pages: seq<seq<Id>>): seq<Entry>
    decreases |pages|
  {
    if pages == [] then [] else
      Seen(w, pages[..|pages| - 1]) + EntriesOf(w.tables(|pages| - 1), pages[|pages| - 1])
  }

  /** The circuit breaker: each host is asked about once, when first met. */
  function Screen(w: World, es: seq<Entry>): (seq<Entry>, map<string, bool>)
    decreases |es|
  {
    if es == [] then ([], map[]) else
      var n := |es| - 1;
      var (passed, cache) := Screen(w, es[..n]);
      var h := w.host(es[n].actor);
      if h == "" then (passed + [es[n]], cache)
      else if h in cache then (if cache[h] then passed else passed + [es[n]], cache)
      else (if w.dead(n, h) then passed else passed + [es[n]], cache[h := w.dead(n, h)])
  }

  /** makeJob of the handlers: it skips actors already served, and the announce handlers also add
      the actor to that set. Returns the actors that get a job, and the set afterwards. */
  function Deliveries(passed: seq<Entry>, served: set<Uri>, track: bool): (seq<Uri>, set<Uri>)
    decreases |passed|
  {
    if passed == [] then ([], served) else
      var n := |passed| - 1;
      var (out, now) := Deliveries(passed[..n], served, track);
      var a := passed[n].actor;
      if a in now then (out, now)
      else (out + [a], if track then now + {a} else now)
  }

  /** The deliveries made from a number of pages. */
  ghost function Given(w: World, served: set<Uri>, track: bool, pages: seq<seq<Id>>): seq<Uri> {
    Deliveries(Screen(w, Seen(w, pages)).0, served, track).0
  }

  /** Page k makes deliveries, so there is a batch to insert for it. */
  ghost predicate Adds(w: World, served: set<Uri>, track: bool, pages: seq<seq<Id>>, k: nat)
    requires k < |pages|
  {
    |Given(w, served, track, pages[..k + 1])| > |Given(w, served, track, pages[..k])|
  }

  /** The batches of the first n pages went in. */
  ghost predicate WentIn(w: World, served: set<Uri>, track: bool, pages: seq<seq<Id>>, n: nat)
    requires n <= |pages|
  {
    forall k: nat :: k < n && Adds(w, served, track, pages, k) ==> !w.batchFails(k)
  }

  /** The contract of one run. A listing or a batch that fails ends it. */
  ghost predicate Ran(w: World, persona: Id, served: set<Uri>, track: bool, r: Report) {
    && Paging(w, persona, r.pages)
    && (forall k :: 0 <= k < |r.pages| ==> !w.listFails(k))
    && r.seen == Seen(w, r.pages)
    && Screen(w, r.seen) == (r.passed, r.cache)
    && r.stored <= |r.pages|
    && r.sent == Given(w, served, track, r.pages[..r.stored])
    && WentIn(w, served, track, r.pages, r.stored)
    && (r.ok ==> r.stored == |r.pages| && r.pages != [] && |r.pages[|r.pages| - 1]| < PAGE)
    && (!r.ok ==>
          || (w.listFails(|r.pages|) && r.stored == |r.pages| && (r.pages == [] || |r.pages[|r.pages| - 1]| == PAGE))
          || (r.stored + 1 == |r.pages| && w.batchFails(r.stored) && Adds(w, served, track, r.pages, r.stored)))
  }

  // ---------------------------------------------------------------- the loop

  /** Every id that ever occurs lies in universe: only finitely many inserts happen. */
  ghost predicate Finite(w: World, universe: set<Id>) {
    forall k: nat :: w.tables(k).Keys <= universe
  }

  /** What the run has in hand: the followers met, those passed on, the answers cached, the actors
      given a delivery and the set the handler tests. */
  datatype Progress = Progress(
    seen: seq<Entry>, passed: seq<Entry>, cache: map<string, bool>, given: seq<Uri>, now: set<Uri>)

  ghost predicate Accounts(w: World, served: set<Uri>, track: bool, p: Progress) {
    Screen(w, p.seen) == (p.passed, p.cache) && Deliveries(p.passed, served, track) == (p.given, p.now)
  }

  /** Screening and serving go through the followers one at a time. */
  lemma ScreenNext(w: World, es: seq<Entry>, e: Entry)
    ensures var (passed, cache) := Screen(w, es);
            var h := w.host(e.actor);
            Screen(w, es + [e]) ==
              if h == "" then (passed + [e], cache)
              else if h in cache then (if cache[h] then passed else passed + [e], cache)
              else (if w.dead(|es|, h) then passed else passed + [e], cache[h := w.dead(|es|, h)])
  {
    assert (es + [e])[..|es|] == es;
  }

  lemma DeliverNext(passed: seq<Entry>, e: Entry, served: set<Uri>, track: bool)
    ensures var (out, now) := Deliveries(passed, served, track);
            Deliveries(passed + [e], served, track) ==
              if e.actor in now then (out, now) else (out + [e.actor], if track then now + {e.actor} else now)
  {
    assert (passed + [e])[..|passed|] == passed;
  }

  method Visit(w: World, ghost served: set<Uri>, track: bool, p: Progress, e: Entry) returns (p': Progress)
    requires Accounts(w, served, track, p)
    ensures Accounts(w, served, track, p') && p'.seen == p.seen + [e]
  {
    ScreenNext(w, p.seen, e);
    p' := p.(seen := p.seen + [e]);
    var h := w.host(e.actor);
    if h != "" {
      if h !in p.cache { p' := p'.(cache := p.cache[h := w.dead(|p.seen|, h)]); }
      if p'.cache[h] { return; }
    }
    DeliverNext(p.passed, e, served, track);
    p' := p'.(passed := p.passed + [e]);
    if e.actor !in p.now {
      p' := p'.(given := p.given + [e.actor], now := if track then p.now + {e.actor} else p.now);
    }
  }

  lemma OneMore(es: seq<Entry>, i: nat)
    requires i < |es|
    ensures es[..i + 1] == es[..i] + [es[i]]
  {
  }

  method VisitAll(w: World, ghost served: set<Uri>, track: bool, es: seq<Entry>, p: Progress) returns (p': Progress)
    requires Accounts(w, served, track, p)
    ensures Accounts(w, served, track, p') && p'.seen == p.seen + es
  {
    p' := p;
    ghost var before := p.seen;
    var i := 0;
    while i < |es|
      invariant 0 <= i <= |es| && p'.seen == before + es[..i]
      invariant Accounts(w, served, track, p')
    {
      OneMore(es, i);
      ghost var sofar := es[..i];
      var e := es[i];
      p' := Visit(w, served, track, p', e);
      assert p'.seen == before + (sofar + [e]);
      i := i + 1;
    }
    assert es[..i] == es;
  }

  lemma CursorOfPrefix(pages: seq<seq<Id>>, page: seq<Id>, k: nat)
    requires k <= |pages|
    ensures CursorAt(pages + [page], k) == CursorAt(pages, k)
  {
  }

  lemma PagingGrows(w: World, persona: Id, pages: seq<seq<Id>>, page: seq<Id>)
    requires Paging(w, persona, pages)
    requires forall k :: 0 <= k < |pages| ==> |pages[k]| == PAGE
    requires page == Page(w.tables(|pages|), persona, CursorAt(pages, |pages|), PAGE)
    ensures Paging(w, persona, pages + [page])
  {
    forall k: nat | k < |pages + [page]| ensures PageOk(w, persona, pages + [page], k) {
      CursorOfPrefix(pages, page, k);
      if k < |pages| { assert PageOk(w, persona, pages, k); }
    }
  }

  lemma SeenGrows(w: World, pages: seq<seq<Id>>, page: seq<Id>)
    ensures Seen(w, pages + [page]) == Seen(w, pages) + EntriesOf(w.tables(|pages|), page)
  {
    assert (pages + [page])[..|pages|] == pages;
  }

  /** The state between two pages: every page so far was full. */
  ghost predicate Between(w: World, persona: Id, served: set<Uri>, track: bool, pages: seq<seq<Id>>, p: Progress) {
    && Paging(w, persona, pages)
    && (forall k :: 0 <= k < |pages| ==> |pages[k]| == PAGE && !w.listFails(k))
    && p.seen == Seen(w, pages)
    && Accounts(w, served, track, p)
    && WentIn(w, served, track, pages, |pages|)
  }

  lemma WentInGrows(w: World, served: set<Uri>, track: bool, pages: seq<seq<Id>>, page: seq<Id>)
    requires WentIn(w, served, track, pages, |pages|)
    ensures WentIn(w, served, track, pages + [page], |pages|)
  {
    forall k: nat | k < |pages| && Adds(w, served, track, pages + [page], k) ensures !w.batchFails(k) {
      assert (pages + [page])[..k] == pages[..k] && (pages + [page])[..k + 1] == pages[..k + 1];
      assert Adds(w, served, track, pages, k);
    }
  }

  /** The last page makes deliveries exactly if more have been given than before it. */
  lemma AddsIsGrowth(w: World, served: set<Uri>, track: bool, pages: seq<seq<Id>>, p: Progress, page: seq<Id>, p': Progress)
    requires Accounts(w, served, track, p) && p.seen == Seen(w, pages)
    requires Accounts(w, served, track, p') && p'.seen == Seen(w, pages + [page])
    ensures Adds(w, served, track, pages + [page], |pages|) <==> |p'.given| > |p.given|
  {
    assert (pages + [page])[..|pages|] == pages && (pages + [page])[..|pages| + 1] == pages + [page];
  }

  function ReportOf(ok: bool, pages: seq<seq<Id>>, stored: nat, p: Progress, sent: seq<Uri>): Report {
    Report(ok, pages, stored, p.seen, p.passed, p.cache, sent)
  }

  lemma PageAdded(w: World, persona: Id, served: set<Uri>, track: bool, pages: seq<seq<Id>>, p: Progress,
                  page: seq<Id>, p': Progress)
    requires Between(w, persona, served, track, pages, p) && Accounts(w, served, track, p')
    requires page == Page(w.tables(|pages|), persona, CursorAt(pages, |pages|), PAGE)
    requires p'.seen == p.seen + EntriesOf(w.tables(|pages|), page)
    requires !w.listFails(|pages|)
    ensures Paging(w, persona, pages + [page]) && p'.seen == Seen(w, pages + [page])
    ensures forall k :: 0 <= k < |pages + [page]| ==> !w.listFails(k)
    ensures WentIn(w, served, track, pages + [page], |pages|)
    ensures Adds(w, served, track, pages + [page], |pages|) <==> |p'.given| > |p.given|
  {
    PagingGrows(w, persona, pages, page);
    SeenGrows(w, pages, page);
    WentInGrows(w, served, track, pages, page);
    AddsIsGrowth(w, served, track, pages, p, page, p');
  }

  /** The ways a page can end: its batch is refused, or it goes in, and then the page was the last or
      was full. */
  lemma PageEnds(w: World, persona: Id, served: set<Uri>, track: bool, pages: seq<seq<Id>>, p: Progress,
                 page: seq<Id>, p': Progress)
    requires Between(w, persona, served, track, pages, p) && Accounts(w, served, track, p')
    requires Paging(w, persona, pages + [page]) && p'.seen == Seen(w, pages + [page])
    requires forall k :: 0 <= k < |pages + [page]| ==> !w.listFails(k)
    requires WentIn(w, served, track, pages + [page], |pages|)
    requires Adds(w, served, track, pages + [page], |pages|) <==> |p'.given| > |p.given|
    ensures |p'.given| > |p.given| && w.batchFails(|pages|) ==>
              Ran(w, persona, served, track, ReportOf(false, pages + [page], |pages|, p', p.given))
    ensures !(|p'.given| > |p.given| && w.batchFails(|pages|)) && |page| < PAGE ==>
              Ran(w, persona, served, track, ReportOf(true, pages + [page], |pages| + 1, p', p'.given))
    ensures !(|p'.given| > |p.given| && w.batchFails(|pages|)) && |page| == PAGE ==>
              Between(w, persona, served, track, pages + [page], p')
  {
    assert (pages + [page])[..|pages|] == pages;
    assert (pages + [page])[..|pages| + 1] == pages + [page];
  }

  lemma NothingYet(w: World, persona: Id, served: set<Uri>, track: bool)
    ensures Between(w, persona, served, track, [], Progress([], [], map[], [], served))
  {
  }

  lemma ListingFailed(w: World, persona: Id, served: set<Uri>, track: bool, pages: seq<seq<Id>>, p: Progress)
    requires Between(w, persona, served, track, pages, p) && w.listFails(|pages|)
    ensures Ran(w, persona, served, track, ReportOf(false, pages, |pages|, p, p.given))
  {
    assert pages[..|pages|] == pages;
  }

  /** left holds every id still beyond the cursor. */
  ghost predicate Covers(universe: set<Id>, cursor: Id, left: set<Id>) {
    forall id :: id in universe && Beyond(id, cursor) ==> id in left
  }

  /** A full page moves the cursor up, and never back to nil. */
  lemma CursorAdvances(t: Table, persona: Id, cursor: Id, universe: set<Id>, left: set<Id>) returns (rest: set<Id>)
    requires t.Keys <= universe && Covers(universe, cursor, left)
    requires |Page(t, persona, cursor, PAGE)| == PAGE
    ensures rest < left && Covers(universe, Page(t, persona, cursor, PAGE)[PAGE - 1], rest)
  {
    PageIsExact(t, persona, cursor, PAGE);
    var page := Page(t, persona, cursor, PAGE);
    var last := page[PAGE - 1];
    assert page[0] < last;
    assert last in left;
    rest := set id | id in left && id > last;
  }

  method FanoutToFollowers(w: World, persona: Id, served: set<Uri>, track: bool, ghost universe: set<Id>)
    returns (r: Report)
    requires Finite(w, universe)
    ensures Ran(w, persona, served, track, r)
  {
    var cursor: Id := NIL;
    var pages: seq<seq<Id>> := [];
    var p := Progress([], [], map[], [], served);
    NothingYet(w, persona, served, track);
    ghost var left := universe;
    while true
      invariant Between(w, persona, served, track, pages, p)
      invariant cursor == CursorAt(pages, |pages|)
      invariant Covers(universe, cursor, left)
      decreases left
    {
      var q := |pages|;
      if w.listFails(q) {
        ListingFailed(w, persona, served, track, pages, p);
        return ReportOf(false, pages, q, p, p.given);
      }
      var page := Page(w.tables(q), persona, cursor, PAGE);
      var p' := VisitAll(w, served, track, EntriesOf(w.tables(q), page), p);
      PageAdded(w, persona, served, track, pages, p, page, p');
      PageEnds(w, persona, served, track, pages, p, page, p');
      if |p'.given| > |p.given| && w.batchFails(q) {
        return ReportOf(false, pages + [page], q, p', p.given);
      }
      if |page| < PAGE {
        return ReportOf(true, pages + [page], q + 1, p', p'.given);
      }
      PageIsExact(w.tables(q), persona, cursor, PAGE);
      left := CursorAdvances(w.tables(q), persona, cursor, universe, left);
      cursor, pages, p := page[PAGE - 1], pages + [page], p';
    }
  }
}
