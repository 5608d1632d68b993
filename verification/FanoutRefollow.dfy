/** A follower who unfollows and follows again while a fan-out runs is served under both ids. */
module FanoutRefollow {
  import opened Prelude
  import opened Fanout
  import opened FanoutTheorems
  import opened FanoutHandlers

  const HOST: string := "social.example"

  /** One actor for each number, all on one host. */
  function Name(id: nat): Uri {
    "https://" + HOST + "/users/" + seq(id, _ => 'a')
  }

  /** A hundred followers fill the first page. */
  function Before(): Table {
    map id: nat | 1 <= id <= 100 :: Follower(1, Name(id), true)
  }

  /** Before the second query the first of them has left and come back under the id 101. */
  function After(): Table {
    map id: nat | 2 <= id <= 101 :: Follower(1, if id == 101 then Name(1) else Name(id), true)
  }

  /** The host is live and nothing fails. */
  function Refollow(): World {
    World(k => if k == 0 then Before() else After(), (_, _) => false, _ => HOST, _ => false, _ => false)
  }

  lemma TablesAreUnique()
    ensures forall k: nat :: UniqueIndex(Refollow().tables(k))
  {
    NamesDiffer();
    forall k: nat ensures UniqueIndex(Refollow().tables(k)) {
      assert Refollow().tables(k) == if k == 0 then Before() else After();
    }
  }

  lemma NamesDiffer()
    ensures forall i: nat, k: nat :: Name(i) == Name(k) ==> i == k
  {
    forall i: nat, k: nat ensures Name(i) == Name(k) ==> i == k {
      assert |Name(i)| - i == |Name(k)| - k;
    }
  }

  lemma {:induction false} LongEnough(s: seq<Id>, n: nat)
    requires Ascends(s) && forall x: nat :: 1 <= x <= n ==> x in s
    ensures |s| >= n
  {
    if n > 0 {
      assert n in s;
      var i :| 0 <= i < |s| && s[i] == n;
      forall x: nat | 1 <= x <= n - 1 ensures x in s[..i] {
        assert x in s;
        var k :| 0 <= k < |s| && s[k] == x;
        assert k < i;
        assert s[..i][k] == x;
      }
      LongEnough(s[..i], n - 1);
    }
  }

  lemma {:induction false} AtLeastPlace(s: seq<Id>, i: nat)
    requires Ascends(s) && i < |s| && s[0] >= 1
    ensures s[i] >= i + 1
  {
    if i > 0 { AtLeastPlace(s, i - 1); }
  }

  /** The first page is full, starts with id 1 and ends at 100. */
  lemma FirstPage()
    ensures var p := Page(Before(), 1, NIL, PAGE); |p| == PAGE && 1 in p && p[PAGE - 1] == 100
  {
    var p := Page(Before(), 1, NIL, PAGE);
    PageIsExact(Before(), 1, NIL, PAGE);
    forall x: nat | 1 <= x <= 100 ensures x in p || |p| == PAGE {
      assert Listed(Before(), 1, x) && Beyond(x, NIL);
    }
    if |p| < PAGE { LongEnough(p, 100); }
    assert forall i :: 0 <= i < |p| ==> Listed(Before(), 1, p[i]) && 1 <= p[i] <= 100;
    AtLeastPlace(p, PAGE - 1);
    assert Listed(Before(), 1, 1) && Beyond(1, NIL);
  }

  lemma SecondPage()
    ensures 101 in Page(After(), 1, 100, PAGE)
  {
    var p := Page(After(), 1, 100, PAGE);
    PageIsExact(After(), 1, 100, PAGE);
    assert Listed(After(), 1, 101) && Beyond(101, 100);
    assert forall i :: 0 <= i < |p| ==> Listed(After(), 1, p[i]) && Beyond(p[i], 100);
    assert |p| > 0 ==> p[0] >= 101;
  }

  lemma TwoPages(r: Report)
    requires Ran(Refollow(), 1, {}, false, r) && r.ok
    ensures |r.pages| >= 2 && 1 in r.pages[0] && 101 in r.pages[1]
  {
    FirstPage();
    SecondPage();
    assert PageOk(Refollow(), 1, r.pages, 0);
    assert |r.pages| >= 2;
    assert PageOk(Refollow(), 1, r.pages, 1);
  }

  lemma AllLive(es: seq<Entry>, j: nat)
    requires j < |es|
    ensures Live(Refollow(), Screen(Refollow(), es).1, es[j])
  {
    var w := Refollow();
    CacheIsFirstAnswers(w, es);
    assert HOST != "" && w.host(es[j].actor) == HOST;
    assert FirstAnswer(w, es, HOST, Screen(w, es).1[HOST]);
  }

  lemma RowOf(q: nat, id: Id)
    requires (id == 1 || id == 101) && Listed(Refollow().tables(q), 1, id)
    ensures Refollow().tables(q)[id].actor == Name(1)
  {
    assert Refollow().tables(q) == if q == 0 then Before() else After();
  }

  /** Whoever stands on a page is passed on under that id, with the name he had at that query. */
  lemma MetAs(r: Report, k: nat, id: Id) returns (i: nat)
    requires Ran(Refollow(), 1, {}, false, r) && k < |r.pages| && id in r.pages[k] && (id == 1 || id == 101)
    ensures i < |r.passed| && r.passed[i] == Entry(id, Name(1))
  {
    var w := Refollow();
    OnPageMeansSeen(w, r.pages, k, id);
    var j :| 0 <= j < |r.seen| && r.seen[j].id == id;
    SeenWasListed(w, 1, r.pages, r.seen[j]);
    var q: nat :| q < |r.pages| && Listed(w.tables(q), 1, id) && w.tables(q)[id].actor == r.seen[j].actor;
    RowOf(q, id);
    assert r.seen[j] == Entry(id, Name(1));
    AllLive(r.seen, j);
    OneDecisionPerDomain(w, r.seen);
    assert r.seen[j] in r.passed;
    i :| 0 <= i < |r.passed| && r.passed[i] == r.seen[j];
  }

  /** Although the unique index holds at both queries, the actor gets two deliveries. */
  lemma RefollowServesTwice(r: Report)
    requires Ran(Refollow(), 1, {}, false, r)
    ensures forall k: nat :: UniqueIndex(Refollow().tables(k))
    ensures r.ok && multiset(r.sent)[Name(1)] >= 2
  {
    TablesAreUnique();
    TwoPages(r);
    var i := MetAs(r, 0, 1);
    var k := MetAs(r, 1, 101);
    assert i != k;
    TimesTwice(r.passed, Name(1));
    UntrackedDelivers(Refollow(), 1, {}, r, Name(1));
  }
}
