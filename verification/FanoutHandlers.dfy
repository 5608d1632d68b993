/** The fan-out job handlers: whom a successful run of each leaves with how many deliveries. */
module FanoutHandlers {
  import opened Prelude
  import opened Fanout
  import opened FanoutTheorems

  // ---------------------------------------------------------------- announce and undo announce

  function Target(target: Uri): set<Uri> {
    if target == "" then {} else {target}
  }

  ghost predicate PassedActor(r: Report, a: Uri) {
    exists e :: e in r.passed && e.actor == a
  }

  /** Nobody twice; and after success the author exactly if its insert went in, and otherwise
      exactly the actors passed on. */
  ghost predicate Announced(target: Uri, targetStored: bool, r: Report, enqueued: seq<Uri>) {
    && (forall a :: multiset(enqueued)[a] <= 1)
    && (r.ok ==> forall a :: a in enqueued <==> if a in Target(target) then targetStored else PassedActor(r, a))
  }

  lemma AnnounceAdds(w: World, persona: Id, target: Uri, targetStored: bool, r: Report, enqueued: seq<Uri>)
    requires Ran(w, persona, Target(target), true, r)
    requires enqueued == (if target != "" && targetStored then [target] else []) + r.sent
    ensures Announced(target, targetStored, r, enqueued)
  {
    TrackedDeliveries(Screen(w, Seen(w, r.pages[..r.stored])).0, Target(target));
    if r.ok { assert r.pages[..r.stored] == r.pages; }
    var direct := if target != "" && targetStored then [target] else [];
    assert multiset(enqueued) == multiset(direct) + multiset(r.sent);
  }

  /** The author of the post first, then the followers. The result of the first insert is ignored
      by the handler; targetStored is what it was. */
  method HandleAnnounce(w: World, persona: Id, target: Uri, targetStored: bool, ghost universe: set<Id>)
    returns (r: Report, enqueued: seq<Uri>)
    requires Finite(w, universe)
    ensures Ran(w, persona, Target(target), true, r)
    ensures Announced(target, targetStored, r, enqueued)
    ensures enqueued == (if target != "" && targetStored then [target] else []) + r.sent
  {
    var delivered: set<Uri> := {};
    enqueued := [];
    if target != "" {
      delivered := delivered + {target};
      if targetStored { enqueued := [target]; }
    }
    assert delivered == Target(target);
    var direct := enqueued;
    r := FanoutToFollowers(w, persona, delivered, true, universe);
    enqueued := direct + r.sent;
    AnnounceAdds(w, persona, target, targetStored, r, enqueued);
  }

  /** At each of the first n queries id was the row of approved follower a. */
  ghost predicate SteadyAs(w: World, persona: Id, n: nat, id: Id, a: Uri) {
    forall k: nat :: k < n ==> Listed(w.tables(k), persona, id) && w.tables(k)[id].actor == a
  }

  /** a had one row that was approved at every query, on a host the run found live. */
  ghost predicate SteadyLive(w: World, persona: Id, r: Report, a: Uri) {
    exists id :: SteadyAs(w, persona, |r.pages|, id, a) && Live(w, r.cache, Entry(id, a))
  }

  /** a was an approved follower at some query, on a host the run found live. */
  ghost predicate ListedLive(w: World, persona: Id, r: Report, a: Uri) {
    exists id :: WasListed(w, persona, |r.pages|, Entry(id, a)) && Live(w, r.cache, Entry(id, a))
  }

  /** However the table changes between queries: steady followers on live hosts are passed on, and
      whoever is passed on was listed on a live host. */
  lemma PassedBounds(w: World, persona: Id, served: set<Uri>, track: bool, r: Report, a: Uri)
    requires Ran(w, persona, served, track, r) && r.ok
    ensures SteadyLive(w, persona, r, a) ==> PassedActor(r, a)
    ensures PassedActor(r, a) ==> ListedLive(w, persona, r, a)
  {
    FollowersPassedOnce(w, persona, served, track, r);
    if id :| SteadyAs(w, persona, |r.pages|, id, a) && Live(w, r.cache, Entry(id, a)) {
      assert Steady(w, persona, |r.pages|, id);
      var e :| e in r.seen && e.id == id && (e in r.passed <==> Live(w, r.cache, e));
      SeenWasListed(w, persona, r.pages, e);
      assert e == Entry(id, a);
    }
    if e :| e in r.passed && e.actor == a {
      assert e == Entry(e.id, a) && WasListed(w, persona, |r.pages|, e) && Live(w, r.cache, e);
    }
  }

  /** Also when a run breaks off, nobody gets a delivery who was not an approved follower at some query. */
  lemma SentWereListed(w: World, persona: Id, served: set<Uri>, track: bool, r: Report, a: Uri)
    requires Ran(w, persona, served, track, r) && a in r.sent
    ensures a !in served && exists id :: WasListed(w, persona, |r.pages|, Entry(id, a))
  {
    var pages := r.pages[..r.stored];
    var passed := Screen(w, Seen(w, pages)).0;
    var e := SentWasPassed(passed, served, track, a);
    PrefixPages(w, persona, r.pages, r.stored);
    OneDecisionPerDomain(w, Seen(w, pages));
    SeenWasListed(w, persona, pages, e);
    assert e == Entry(e.id, a);
    var k: nat :| k < |pages| && Listed(w.tables(k), persona, e.id) && w.tables(k)[e.id].actor == e.actor;
    assert WasListed(w, persona, |r.pages|, e);
  }

  lemma {:induction false} SentWasPassed(passed: seq<Entry>, served: set<Uri>, track: bool, a: Uri) returns (e: Entry)
    requires a in Deliveries(passed, served, track).0
    ensures e in passed && e.actor == a && a !in served && served <= Deliveries(passed, served, track).1
    decreases |passed|
  {
    var init, last := passed[..|passed| - 1], passed[|passed| - 1];
    assert passed == init + [last];
    ServedStay(init, served, track);
    DeliverNext(init, last, served, track);
    if a in Deliveries(init, served, track).0 {
      e := SentWasPassed(init, served, track, a);
    } else {
      e := last;
    }
  }

  lemma {:induction false} ServedStay(passed: seq<Entry>, served: set<Uri>, track: bool)
    ensures served <= Deliveries(passed, served, track).1
    decreases |passed|
  {
    if passed != [] { ServedStay(passed[..|passed| - 1], served, track); }
  }

  /** However the table changes while an announce goes out, also if it breaks off: nobody gets two
      deliveries, and nobody gets one who is neither the author nor was an approved follower at some
      query. If it succeeds, the author has one exactly if his insert went in, every other steady
      follower on a live host has one, and every other actor with one was listed on a live host. */
  lemma AnnounceDelivers(w: World, persona: Id, target: Uri, targetStored: bool, r: Report, enqueued: seq<Uri>, a: Uri)
    requires Ran(w, persona, Target(target), true, r) && Announced(target, targetStored, r, enqueued)
    requires enqueued == (if target != "" && targetStored then [target] else []) + r.sent
    ensures multiset(enqueued)[a] <= 1
    ensures a in enqueued ==> a in Target(target) || exists id :: WasListed(w, persona, |r.pages|, Entry(id, a))
    ensures r.ok && a in Target(target) ==> multiset(enqueued)[a] == if targetStored then 1 else 0
    ensures r.ok && a !in Target(target) && SteadyLive(w, persona, r, a) ==> multiset(enqueued)[a] == 1
    ensures r.ok && a !in Target(target) && !ListedLive(w, persona, r, a) ==> multiset(enqueued)[a] == 0
  {
    if a in r.sent { SentWereListed(w, persona, Target(target), true, r, a); }
    assert a in enqueued <==> multiset(enqueued)[a] > 0;
    if r.ok { PassedBounds(w, persona, Target(target), true, r, a); }
  }

  /** Some delivery to a stands in a batch of the run that went in. */
  ghost predicate StoredFor(w: World, served: set<Uri>, track: bool, pages: seq<seq<Id>>, a: Uri) {
    exists i: nat :: Stands(w, served, track, pages, i, a)
  }

  lemma SentIsStored(w: World, persona: Id, served: set<Uri>, track: bool, r: Report, a: Uri)
    requires Ran(w, persona, served, track, r) && a in r.sent
    ensures StoredFor(w, served, track, r.pages, a)
  {
    SentStandsInBatch(w, persona, served, track, r);
    var i :| 0 <= i < |r.sent| && r.sent[i] == a;
    assert Stands(w, served, track, r.pages, i, a);
  }

  /** Nothing counts as enqueued by an announce, finished or broken off, that was not stored. */
  lemma AnnouncedIsStored(w: World, persona: Id, target: Uri, targetStored: bool, r: Report, enqueued: seq<Uri>, a: Uri)
    requires Ran(w, persona, Target(target), true, r)
    requires enqueued == (if target != "" && targetStored then [target] else []) + r.sent
    requires a in enqueued
    ensures (a == target && target != "" && targetStored) || StoredFor(w, Target(target), true, r.pages, a)
  {
    if a in r.sent { SentIsStored(w, persona, Target(target), true, r, a); }
  }

  /** a is owed a delivery: it is the author, or an approved follower on a live host. */
  ghost predicate Owed(w: World, t: Table, persona: Id, target: Uri, cache: map<string, bool>, a: Uri) {
    a in Target(target) || exists id :: Listed(t, persona, id) && t[id].actor == a && Live(w, cache, Entry(id, a))
  }

  lemma PassedMeansListed(w: World, t: Table, persona: Id, served: set<Uri>, track: bool, r: Report, a: Uri)
    requires Ran(w, persona, served, track, r) && r.ok
    requires forall k: nat :: w.tables(k) == t
    ensures PassedActor(r, a) <==> exists id :: Listed(t, persona, id) && t[id].actor == a && Live(w, r.cache, Entry(id, a))
  {
    FollowersPassedOnce(w, persona, served, track, r);
    if e :| e in r.passed && e.actor == a {
      assert WasListed(w, persona, |r.pages|, e);
      assert Listed(t, persona, e.id) && t[e.id].actor == a && e == Entry(e.id, a);
    }
    if id :| Listed(t, persona, id) && t[id].actor == a && Live(w, r.cache, Entry(id, a)) {
      assert Steady(w, persona, |r.pages|, id);
      var e :| e in r.seen && e.id == id && (e in r.passed <==> Live(w, r.cache, e));
      SeenWasListed(w, persona, r.pages, e);
      assert e == Entry(id, a);
    }
  }

  /** Over a table that does not change, a successful announce leaves exactly one delivery for
      each actor it owes one and none for others, if and only if there is no author to deliver
      to or the insert for the author went in. */
  lemma AnnounceReachesAllOwed(w: World, t: Table, persona: Id, target: Uri, targetStored: bool, r: Report, enqueued: seq<Uri>)
    requires Ran(w, persona, Target(target), true, r) && r.ok
    requires forall k: nat :: w.tables(k) == t
    requires Announced(target, targetStored, r, enqueued)
    ensures (forall a :: multiset(enqueued)[a] == if Owed(w, t, persona, target, r.cache, a) then 1 else 0)
            <==> (target == "" || targetStored)
  {
    forall a ensures multiset(enqueued)[a] ==
                       if a in Target(target) && !targetStored then 0
                       else if Owed(w, t, persona, target, r.cache, a) then 1 else 0
    {
      PassedMeansListed(w, t, persona, Target(target), true, r, a);
      assert a in enqueued <==> multiset(enqueued)[a] == 1;
    }
    if target != "" && !targetStored {
      assert Owed(w, t, persona, target, r.cache, target) && multiset(enqueued)[target] == 0;
    }
  }

  // ---------------------------------------------------------------- new post and post update

  /** How many of the mention inserts for actor a went in. */
  ghost function MentionsStored(mentions: seq<Uri>, stored: nat -> bool, a: Uri): nat
    decreases |mentions|
  {
    if mentions == [] then 0 else
      var n := |mentions| - 1;
      MentionsStored(mentions[..n], stored, a) + (if mentions[n] == a && stored(n) then 1 else 0)
  }

  function Served(mentions: seq<Uri>, reply: Option<Uri>): set<Uri> {
    (set m | m in mentions) + (if reply.Some? then {reply.value} else {})
  }

  /** Deliveries enqueued before the fan-out: one for each mention, and one for the author of the
      remote post replied to unless mentioned. */
  ghost function Direct(mentions: seq<Uri>, stored: nat -> bool, reply: Option<Uri>, a: Uri): nat {
    MentionsStored(mentions, stored, a) +
      (if reply == Some(a) && a !in mentions && stored(|mentions|) then 1 else 0)
  }

  /** Every actor has the direct deliveries that were stored, and what the fan-out sent him. */
  ghost predicate Posted(mentions: seq<Uri>, stored: nat -> bool, reply: Option<Uri>, r: Report, enqueued: seq<Uri>) {
    forall a :: multiset(enqueued)[a] == Direct(mentions, stored, reply, a) + multiset(r.sent)[a]
  }

  ghost function PostCount(mentions: seq<Uri>, stored: nat -> bool, reply: Option<Uri>, r: Report, a: Uri): nat {
    Direct(mentions, stored, reply, a) + if a in Served(mentions, reply) then 0 else Times(r.passed, a)
  }

  /** After success that is one delivery for each id under which an actor not yet served was passed. */
  lemma PostedCount(w: World, persona: Id, mentions: seq<Uri>, stored: nat -> bool, reply: Option<Uri>, r: Report, enqueued: seq<Uri>, a: Uri)
    requires Ran(w, persona, Served(mentions, reply), false, r) && r.ok && Posted(mentions, stored, reply, r, enqueued)
    ensures multiset(enqueued)[a] == PostCount(mentions, stored, reply, r, a)
  {
    assert r.pages[..r.stored] == r.pages;
    UntrackedDeliveries(r.passed, Served(mentions, reply));
  }

  method MentionDeliveries(mentions: seq<Uri>, stored: nat -> bool, reply: Option<Uri>)
    returns (enqueued: seq<Uri>, delivered: set<Uri>)
    ensures delivered == Served(mentions, reply)
    ensures forall a :: multiset(enqueued)[a] == Direct(mentions, stored, reply, a)
  {
    delivered := {};
    enqueued := [];
    var i := 0;
    while i < |mentions|
      invariant 0 <= i <= |mentions|
      invariant delivered == set m | m in mentions[..i]
      invariant forall a :: multiset(enqueued)[a] == MentionsStored(mentions[..i], stored, a)
    {
      assert mentions[..i + 1] == mentions[..i] + [mentions[i]];
      assert mentions[..i + 1][..i] == mentions[..i];
      delivered := delivered + {mentions[i]};
      if stored(i) { enqueued := enqueued + [mentions[i]]; }
      i := i + 1;
    }
    assert mentions[..|mentions|] == mentions;
    if reply.Some? && reply.value !in delivered {
      delivered := delivered + {reply.value};
      if stored(|mentions|) { enqueued := enqueued + [reply.value]; }
    }
  }

  /** Mentions (in whatever order the handler meets them), then the reply target, then followers.
      stored(i) is whether the i-th of the first inserts went in; the handler does not look. */
  method HandlePost(w: World, persona: Id, mentions: seq<Uri>, stored: nat -> bool, reply: Option<Uri>, ghost universe: set<Id>)
    returns (r: Report, enqueued: seq<Uri>)
    requires Finite(w, universe)
    ensures Ran(w, persona, Served(mentions, reply), false, r)
    ensures Posted(mentions, stored, reply, r, enqueued)
  {
    var direct, delivered := MentionDeliveries(mentions, stored, reply);
    r := FanoutToFollowers(w, persona, delivered, false, universe);
    enqueued := direct + r.sent;
    assert multiset(enqueued) == multiset(direct) + multiset(r.sent);
  }

  lemma {:induction false} MentionWasStored(mentions: seq<Uri>, stored: nat -> bool, a: Uri) returns (i: nat)
    requires MentionsStored(mentions, stored, a) > 0
    ensures i < |mentions| && mentions[i] == a && stored(i)
    decreases |mentions|
  {
    i := |mentions| - 1;
    if !(mentions[i] == a && stored(i)) { i := MentionWasStored(mentions[..i], stored, a); }
  }

  /** Nothing counts as enqueued for a post, finished or broken off, that was not stored: by the insert for
      a mention, by that for the author replied to, or in a batch of the fan-out. */
  lemma PostedIsStored(w: World, persona: Id, mentions: seq<Uri>, stored: nat -> bool, reply: Option<Uri>, r: Report,
                       enqueued: seq<Uri>, a: Uri)
    requires Ran(w, persona, Served(mentions, reply), false, r) && Posted(mentions, stored, reply, r, enqueued)
    requires a in enqueued
    ensures || (exists i: nat :: i < |mentions| && mentions[i] == a && stored(i))
            || (reply == Some(a) && stored(|mentions|))
            || StoredFor(w, Served(mentions, reply), false, r.pages, a)
  {
    assert multiset(enqueued)[a] > 0;
    if a in r.sent {
      SentIsStored(w, persona, Served(mentions, reply), false, r, a);
    } else if MentionsStored(mentions, stored, a) > 0 {
      var i := MentionWasStored(mentions, stored, a);
    }
  }

  ghost predicate Distinct(mentions: seq<Uri>) {
    forall i, k :: 0 <= i < k < |mentions| ==> mentions[i] != mentions[k]
  }

  /** No actor outside served was passed under two ids. */
  ghost predicate OneIdEach(passed: seq<Entry>, served: set<Uri>) {
    forall i, k :: 0 <= i < k < |passed| && passed[i].actor == passed[k].actor ==> passed[i].actor in served
  }

  lemma {:induction false} MentionsOnce(mentions: seq<Uri>, a: Uri)
    ensures MentionsStored(mentions, _ => true, a) > 0 <==> a in mentions
    ensures Distinct(mentions) ==> MentionsStored(mentions, _ => true, a) <= 1
    ensures MentionsStored(mentions, _ => true, a) <= 1 ==>
              forall i, k :: 0 <= i < k < |mentions| && mentions[i] == a ==> mentions[k] != a
    decreases |mentions|
  {
    if mentions != [] {
      var n := |mentions| - 1;
      var m := mentions[..n];
      MentionsOnce(m, a);
      assert mentions == m + [mentions[n]];
      assert Distinct(mentions) ==> Distinct(m) && mentions[n] !in m;
      if MentionsStored(mentions, _ => true, a) <= 1 {
        forall i, k | 0 <= i < k < |mentions| && mentions[i] == a ensures mentions[k] != a {
          assert m[i] == a;
          if k < n { assert m[k] == mentions[k]; }
        }
      }
    }
  }

  /** Whatever inserts went in, only mentions count, and distinct ones once. */
  lemma {:induction false} MentionsBounds(mentions: seq<Uri>, stored: nat -> bool, a: Uri)
    ensures MentionsStored(mentions, stored, a) <= MentionsStored(mentions, _ => true, a)
    decreases |mentions|
  {
    if mentions != [] { MentionsBounds(mentions[..|mentions| - 1], stored, a); }
  }

  lemma DirectBounds(mentions: seq<Uri>, stored: nat -> bool, reply: Option<Uri>, a: Uri)
    ensures a !in Served(mentions, reply) ==> Direct(mentions, stored, reply, a) == 0
    ensures a !in mentions ==> MentionsStored(mentions, stored, a) == 0
    ensures Direct(mentions, stored, reply, a) <= 1 <==> MentionsStored(mentions, stored, a) <= 1
    ensures Distinct(mentions) ==> Direct(mentions, stored, reply, a) <= 1
  {
    MentionsBounds(mentions, stored, a);
    MentionsOnce(mentions, a);
  }

  ghost predicate AtMostOneEach(mentions: seq<Uri>, stored: nat -> bool) {
    forall a :: MentionsStored(mentions, stored, a) <= 1
  }

  lemma PostServesActor(w: World, persona: Id, mentions: seq<Uri>, stored: nat -> bool, reply: Option<Uri>, r: Report, enqueued: seq<Uri>, a: Uri)
    requires Ran(w, persona, Served(mentions, reply), false, r) && r.ok && Posted(mentions, stored, reply, r, enqueued)
    ensures multiset(enqueued)[a] <= 1 <==>
              MentionsStored(mentions, stored, a) <= 1 && (a in Served(mentions, reply) || Times(r.passed, a) <= 1)
    ensures a in enqueued <==>
              Direct(mentions, stored, reply, a) > 0 || (a !in Served(mentions, reply) && PassedActor(r, a))
  {
    PostedCount(w, persona, mentions, stored, reply, r, enqueued, a);
    DirectBounds(mentions, stored, reply, a);
    PassedIsMet(r, a);
    assert a in enqueued <==> multiset(enqueued)[a] > 0;
  }

  /** Whichever direct inserts went in, a successful post fan-out serves every actor at most once if and
      only if no actor has two of them and no follower was met under two ids (unfollowed and followed
      again while the run went on). */
  lemma PostServesOnce(w: World, persona: Id, mentions: seq<Uri>, stored: nat -> bool, reply: Option<Uri>, r: Report, enqueued: seq<Uri>)
    requires Ran(w, persona, Served(mentions, reply), false, r) && r.ok && Posted(mentions, stored, reply, r, enqueued)
    ensures (forall a :: multiset(enqueued)[a] <= 1) <==>
              AtMostOneEach(mentions, stored) && OneIdEach(r.passed, Served(mentions, reply))
    ensures forall a :: a in enqueued <==>
              Direct(mentions, stored, reply, a) > 0 || (a !in Served(mentions, reply) && PassedActor(r, a))
  {
    forall a
      ensures multiset(enqueued)[a] <= 1 <==>
                MentionsStored(mentions, stored, a) <= 1 && (a in Served(mentions, reply) || Times(r.passed, a) <= 1)
      ensures a in enqueued <==>
                Direct(mentions, stored, reply, a) > 0 || (a !in Served(mentions, reply) && PassedActor(r, a))
    {
      PostServesActor(w, persona, mentions, stored, reply, r, enqueued, a);
    }
    OneIdMeansOnce(r.passed, Served(mentions, reply));
  }

  lemma OneIdMeansOnce(passed: seq<Entry>, served: set<Uri>)
    ensures OneIdEach(passed, served) <==> forall a :: a in served || Times(passed, a) <= 1
  {
    if OneIdEach(passed, served) {
      forall a ensures a in served || Times(passed, a) <= 1 { TimesTwice(passed, a); }
    }
    if forall a :: a in served || Times(passed, a) <= 1 {
      forall i, k | 0 <= i < k < |passed| && passed[i].actor == passed[k].actor ensures passed[i].actor in served {
        TimesTwice(passed, passed[i].actor);
      }
    }
  }

  /** When all of them went in, no actor has two direct deliveries exactly if the mentions are distinct. */
  lemma AllStoredOnce(mentions: seq<Uri>)
    ensures AtMostOneEach(mentions, _ => true) <==> Distinct(mentions)
  {
    var all: nat -> bool := _ => true;
    forall a ensures Distinct(mentions) ==> MentionsStored(mentions, all, a) <= 1 { MentionsOnce(mentions, a); }
    if AtMostOneEach(mentions, all) {
      forall i, k | 0 <= i < k < |mentions| ensures mentions[i] != mentions[k] {
        assert MentionsStored(mentions, all, mentions[i]) <= 1;
        MentionsOnce(mentions, mentions[i]);
      }
    }
  }

  /** UNIQUE(persona_id, actor_uri). */
  ghost predicate UniqueIndex(t: Table) {
    forall i, k :: i in t && k in t && t[i].persona == t[k].persona && t[i].actor == t[k].actor ==> i == k
  }

  /** Over all queries of the run, an actor is listed under one id only. */
  ghost predicate OneIdPerActor(w: World, persona: Id, n: nat) {
    forall e, f :: WasListed(w, persona, n, e) && WasListed(w, persona, n, f) && e.actor == f.actor ==> e.id == f.id
  }

  /** Then nobody is met under two ids, and distinct mentions are all that is needed. */
  lemma OneIdPerActorSuffices(w: World, persona: Id, served: set<Uri>, r: Report)
    requires Ran(w, persona, served, false, r)
    requires OneIdPerActor(w, persona, |r.pages|)
    ensures OneIdEach(r.passed, served)
  {
    FollowersPassedOnce(w, persona, served, false, r);
    forall i | 0 <= i < |r.passed| ensures WasListed(w, persona, |r.pages|, r.passed[i]) {
      assert r.passed[i] in r.passed;
    }
  }

  /** A table that stays the same meets that condition by its index alone. */
  lemma SteadyTableSuffices(w: World, t: Table, persona: Id, served: set<Uri>, r: Report)
    requires Ran(w, persona, served, false, r) && UniqueIndex(t)
    requires forall k: nat :: w.tables(k) == t
    ensures OneIdEach(r.passed, served)
  {
    forall e, f | WasListed(w, persona, |r.pages|, e) && WasListed(w, persona, |r.pages|, f) && e.actor == f.actor
      ensures e.id == f.id
    {
      assert Listed(t, persona, e.id) && Listed(t, persona, f.id);
    }
    OneIdPerActorSuffices(w, persona, served, r);
  }

  /** What the fan-out adds to the deliveries of a post, an actor update or a deletion: without a set
      that is kept up to date, a follower not served before gets one for each id he was met under. */
  lemma UntrackedDelivers(w: World, persona: Id, served: set<Uri>, r: Report, a: Uri)
    requires Ran(w, persona, served, false, r) && r.ok
    ensures multiset(r.sent)[a] == if a in served then 0 else Times(r.passed, a)
    ensures SteadyLive(w, persona, r, a) ==> Times(r.passed, a) >= 1
    ensures !ListedLive(w, persona, r, a) ==> Times(r.passed, a) == 0
    ensures OneIdPerActor(w, persona, |r.pages|) && a !in served ==> Times(r.passed, a) <= 1
  {
    assert r.pages[..r.stored] == r.pages;
    UntrackedDeliveries(r.passed, served);
    PassedBounds(w, persona, served, false, r, a);
    PassedIsMet(r, a);
    if OneIdPerActor(w, persona, |r.pages|) && a !in served {
      OneIdPerActorSuffices(w, persona, served, r);
      TimesTwice(r.passed, a);
    }
  }

  lemma PassedIsMet(r: Report, a: Uri)
    ensures PassedActor(r, a) <==> Times(r.passed, a) > 0
  {
    TimesPositive(r.passed, a);
    if i :| 0 <= i < |r.passed| && r.passed[i].actor == a { assert r.passed[i] in r.passed; }
  }

  // ---------------------------------------------------------------- posts from end to end

  /** The deliveries of a post over a table that may change, whichever direct inserts went in: everybody
      mentioned or replied to has those that did, every other steady follower on a live host at least
      one, and exactly one if no actor was listed under two ids; nobody else has any. */
  lemma PostDelivers(w: World, persona: Id, mentions: seq<Uri>, stored: nat -> bool, reply: Option<Uri>, r: Report, enqueued: seq<Uri>, a: Uri)
    requires Ran(w, persona, Served(mentions, reply), false, r) && r.ok && Posted(mentions, stored, reply, r, enqueued)
    ensures a in Served(mentions, reply) ==> multiset(enqueued)[a] == Direct(mentions, stored, reply, a)
    ensures a in Served(mentions, reply) && Distinct(mentions) ==> multiset(enqueued)[a] <= 1
    ensures a !in Served(mentions, reply) && SteadyLive(w, persona, r, a) ==> multiset(enqueued)[a] >= 1
    ensures a !in Served(mentions, reply) && OneIdPerActor(w, persona, |r.pages|) ==> multiset(enqueued)[a] <= 1
    ensures a !in Served(mentions, reply) && !ListedLive(w, persona, r, a) ==> multiset(enqueued)[a] == 0
  {
    PostedCount(w, persona, mentions, stored, reply, r, enqueued, a);
    DirectBounds(mentions, stored, reply, a);
    UntrackedDelivers(w, persona, Served(mentions, reply), r, a);
  }

  /** One direct insert went in for each mention, and one for an unmentioned author replied to. */
  ghost predicate DirectOnce(mentions: seq<Uri>, stored: nat -> bool, reply: Option<Uri>) {
    && (forall a :: a in mentions ==> MentionsStored(mentions, stored, a) == 1)
    && (reply.Some? && reply.value !in mentions ==> stored(|mentions|))
  }

  /** Over a steady table with its unique index, whichever direct inserts went in: everybody mentioned,
      replied to or following on a live host gets exactly one delivery and nobody else any, if and only
      if exactly one direct insert went in for each mention and one for an unmentioned author replied
      to. Nobody gets two exactly if no mention has two. */
  lemma PostReachesAllOwed(w: World, t: Table, persona: Id, mentions: seq<Uri>, stored: nat -> bool, reply: Option<Uri>, r: Report, enqueued: seq<Uri>)
    requires Ran(w, persona, Served(mentions, reply), false, r) && r.ok && UniqueIndex(t)
    requires forall k: nat :: w.tables(k) == t
    requires Posted(mentions, stored, reply, r, enqueued)
    ensures (forall a :: multiset(enqueued)[a] ==
               if a in Served(mentions, reply) || Owed(w, t, persona, "", r.cache, a) then 1 else 0)
            <==> DirectOnce(mentions, stored, reply)
    ensures (forall a :: multiset(enqueued)[a] <= 1) <==> AtMostOneEach(mentions, stored)
  {
    var served := Served(mentions, reply);
    SteadyTableSuffices(w, t, persona, served, r);
    PostServesOnce(w, persona, mentions, stored, reply, r, enqueued);
    forall a
      ensures a in served ==> multiset(enqueued)[a] == Direct(mentions, stored, reply, a)
      ensures a !in served ==> multiset(enqueued)[a] == if Owed(w, t, persona, "", r.cache, a) then 1 else 0
      ensures a !in mentions ==> MentionsStored(mentions, stored, a) == 0
    {
      PostCountSteady(w, t, persona, mentions, stored, reply, r, enqueued, a);
      DirectBounds(mentions, stored, reply, a);
    }
    if reply.Some? && reply.value !in mentions {
      assert Direct(mentions, stored, reply, reply.value) == if stored(|mentions|) then 1 else 0;
    }
  }

  lemma PostCountSteady(w: World, t: Table, persona: Id, mentions: seq<Uri>, stored: nat -> bool, reply: Option<Uri>, r: Report, enqueued: seq<Uri>, a: Uri)
    requires Ran(w, persona, Served(mentions, reply), false, r) && r.ok && UniqueIndex(t)
    requires forall k: nat :: w.tables(k) == t
    requires Posted(mentions, stored, reply, r, enqueued)
    ensures multiset(enqueued)[a] ==
              if a in Served(mentions, reply) then Direct(mentions, stored, reply, a)
              else if Owed(w, t, persona, "", r.cache, a) then 1 else 0
  {
    var served := Served(mentions, reply);
    PostedCount(w, persona, mentions, stored, reply, r, enqueued, a);
    DirectBounds(mentions, stored, reply, a);
    SteadyTableSuffices(w, t, persona, served, r);
    OneIdMeansOnce(r.passed, served);
    PassedMeansListed(w, t, persona, served, false, r, a);
    PassedIsMet(r, a);
  }

  /** So, when all direct inserts go in: exactly one delivery for everybody owed one, and nobody gets two,
      if and only if the mentions are distinct. */
  lemma StoredPostReachesAllOwed(w: World, t: Table, persona: Id, mentions: seq<Uri>, reply: Option<Uri>, r: Report, enqueued: seq<Uri>)
    requires Ran(w, persona, Served(mentions, reply), false, r) && r.ok && UniqueIndex(t)
    requires forall k: nat :: w.tables(k) == t
    requires Posted(mentions, _ => true, reply, r, enqueued)
    ensures (forall a :: multiset(enqueued)[a] ==
               if a in Served(mentions, reply) || Owed(w, t, persona, "", r.cache, a) then 1 else 0) <==> Distinct(mentions)
    ensures (forall a :: multiset(enqueued)[a] <= 1) <==> Distinct(mentions)
  {
    PostReachesAllOwed(w, t, persona, mentions, _ => true, reply, r, enqueued);
    AllStoredOnce(mentions);
    forall a ensures MentionsStored(mentions, _ => true, a) > 0 <==> a in mentions { MentionsOnce(mentions, a); }
  }

  /** Two accounts that resolve to one actor: he is delivered to twice. */
  lemma DoubleMentionServesTwice(w: World, persona: Id, r: Report, enqueued: seq<Uri>)
    requires Ran(w, persona, Served(["u", "u"], None), false, r) && r.ok
    requires Posted(["u", "u"], _ => true, None, r, enqueued)
    ensures multiset(enqueued)["u"] == 2
  {
    var m := ["u", "u"];
    assert m[..1] == ["u"] && m[..1][..0] == [];
    assert MentionsStored(m, _ => true, "u") == MentionsStored(m[..1], _ => true, "u") + 1;
    assert MentionsStored(m[..1], _ => true, "u") == MentionsStored(m[..1][..0], _ => true, "u") + 1;
    assert "u" in Served(m, None);
    PostedCount(w, persona, m, _ => true, None, r, enqueued, "u");
  }

  // ---------------------------------------------------------------- actor updates and post deletions

  /** These handlers skip nobody. Over a table that may change, a successful run gives every steady
      follower on a live host a delivery, just one if no actor was listed under two ids, and none to
      anybody who was not listed on a live host. */
  lemma BroadcastDelivers(w: World, persona: Id, r: Report, a: Uri)
    requires Ran(w, persona, {}, false, r) && r.ok
    ensures SteadyLive(w, persona, r, a) ==> multiset(r.sent)[a] >= 1
    ensures OneIdPerActor(w, persona, |r.pages|) ==> multiset(r.sent)[a] <= 1
    ensures !ListedLive(w, persona, r, a) ==> multiset(r.sent)[a] == 0
  {
    UntrackedDelivers(w, persona, {}, r, a);
  }

  /** Over a table that does not change: exactly one delivery for each approved follower on a live
      host, and none for anybody else. */
  lemma BroadcastReachesFollowers(w: World, t: Table, persona: Id, r: Report, a: Uri)
    requires Ran(w, persona, {}, false, r) && r.ok && UniqueIndex(t)
    requires forall k: nat :: w.tables(k) == t
    ensures multiset(r.sent)[a] == if Owed(w, t, persona, "", r.cache, a) then 1 else 0
  {
    UntrackedDelivers(w, persona, {}, r, a);
    SteadyTableSuffices(w, t, persona, {}, r);
    TimesTwice(r.passed, a);
    PassedMeansListed(w, t, persona, {}, false, r, a);
    PassedIsMet(r, a);
  }

  // ---------------------------------------------------------------- several attempts

  function Flat(all: seq<seq<Uri>>): seq<Uri> {
    if all == [] then [] else Flat(all[..|all| - 1]) + all[|all| - 1]
  }

  lemma FlatNext(all: seq<seq<Uri>>, a: Uri)
    requires all != []
    ensures multiset(Flat(all))[a] == multiset(Flat(all[..|all| - 1]))[a] + multiset(all[|all| - 1])[a]
  {
    assert multiset(Flat(all)) == multiset(Flat(all[..|all| - 1])) + multiset(all[|all| - 1]);
  }

  lemma {:induction false} AttemptsAddUp(all: seq<seq<Uri>>, a: Uri)
    requires forall i :: 0 <= i < |all| ==> multiset(all[i])[a] <= 1
    ensures multiset(Flat(all))[a] <= |all|
  {
    if all != [] {
      var n := |all| - 1;
      var front := all[..n];
      forall i | 0 <= i < n ensures multiset(front[i])[a] <= 1 { assert front[i] == all[i]; }
      AttemptsAddUp(front, a);
      FlatNext(all, a);
    }
  }

  /** One attempt at an announce. */
  datatype Attempt = Attempt(w: World, targetStored: bool, r: Report, enqueued: seq<Uri>)

  ghost predicate AnnounceAttempt(persona: Id, target: Uri, x: Attempt) {
    && Ran(x.w, persona, Target(target), true, x.r) && Announced(target, x.targetStored, x.r, x.enqueued)
    && x.enqueued == (if target != "" && x.targetStored then [target] else []) + x.r.sent
  }

  function Enqueued(xs: seq<Attempt>): seq<seq<Uri>> {
    seq(|xs|, i requires 0 <= i < |xs| => xs[i].enqueued)
  }

  /** A job that is tried again enqueues again what its earlier attempts had stored, up to the page they
      broke off at. Over all attempts nobody gets more deliveries than there were attempts, and if the
      last one succeeded, every other steady follower on a live host has at least one. */
  lemma AnnounceOverAttempts(persona: Id, target: Uri, xs: seq<Attempt>, a: Uri)
    requires xs != [] && forall i :: 0 <= i < |xs| ==> AnnounceAttempt(persona, target, xs[i])
    ensures multiset(Flat(Enqueued(xs)))[a] <= |xs|
    ensures var x := xs[|xs| - 1];
            x.r.ok && a !in Target(target) && SteadyLive(x.w, persona, x.r, a) ==> multiset(Flat(Enqueued(xs)))[a] >= 1
  {
    var all := Enqueued(xs);
    forall i | 0 <= i < |all| ensures multiset(all[i])[a] <= 1 {
      assert AnnounceAttempt(persona, target, xs[i]);
      assert all[i] == xs[i].enqueued;
    }
    AttemptsAddUp(all, a);
    var x := xs[|xs| - 1];
    assert AnnounceAttempt(persona, target, x) && all[|xs| - 1] == x.enqueued;
    FlatNext(all, a);
    AnnounceDelivers(x.w, persona, target, x.targetStored, x.r, x.enqueued, a);
  }

  lemma PassedOfPages(w: World, persona: Id, pages: seq<seq<Id>>)
    requires Paging(w, persona, pages)
    ensures var passed := Screen(w, Seen(w, pages)).0;
            IdsAscend(passed) && forall e :: e in passed ==> WasListed(w, persona, |pages|, e)
  {
    var seen := Seen(w, pages);
    SeenAscends(w, persona, pages);
    PassedAscends(w, seen);
    OneDecisionPerDomain(w, seen);
    forall e | e in Screen(w, seen).0 ensures WasListed(w, persona, |pages|, e) {
      SeenWasListed(w, persona, pages, e);
    }
  }

  lemma ListedEarlier(w: World, persona: Id, n: nat, m: nat, e: Entry)
    requires WasListed(w, persona, n, e) && n <= m
    ensures WasListed(w, persona, m, e)
  {
  }

  /** Also when a run breaks off, the handlers that keep no set send nobody two deliveries if no actor was
      listed under two ids. */
  lemma SentAtMostOnce(w: World, persona: Id, served: set<Uri>, r: Report, a: Uri)
    requires Ran(w, persona, served, false, r) && OneIdPerActor(w, persona, |r.pages|)
    ensures multiset(r.sent)[a] <= 1
  {
    var pages := r.pages[..r.stored];
    var passed := Screen(w, Seen(w, pages)).0;
    PrefixPages(w, persona, r.pages, r.stored);
    PassedOfPages(w, persona, pages);
    UntrackedDeliveries(passed, served);
    if multiset(r.sent)[a] > 1 {
      TimesTwice(passed, a);
      var i, k :| 0 <= i < k < |passed| && passed[i].actor == a && passed[k].actor == a;
      assert passed[i] in passed && passed[k] in passed;
      ListedEarlier(w, persona, |pages|, |r.pages|, passed[i]);
      ListedEarlier(w, persona, |pages|, |r.pages|, passed[k]);
    }
  }

  /** One attempt at a post or an update of it; an actor update or a deletion mentions nobody. */
  datatype PostAttempt = PostAttempt(
    w: World, mentions: seq<Uri>, stored: nat -> bool, reply: Option<Uri>, r: Report, enqueued: seq<Uri>)

  ghost predicate IsPostAttempt(persona: Id, x: PostAttempt) {
    Ran(x.w, persona, Served(x.mentions, x.reply), false, x.r) && Posted(x.mentions, x.stored, x.reply, x.r, x.enqueued)
  }

  /** What makes a single attempt serve nobody twice. */
  ghost predicate Plain(persona: Id, x: PostAttempt) {
    Distinct(x.mentions) && OneIdPerActor(x.w, persona, |x.r.pages|)
  }

  lemma PlainAttemptServesOnce(persona: Id, x: PostAttempt, a: Uri)
    requires IsPostAttempt(persona, x) && Plain(persona, x)
    ensures multiset(x.enqueued)[a] <= 1
  {
    var served := Served(x.mentions, x.reply);
    DirectBounds(x.mentions, x.stored, x.reply, a);
    SentAtMostOnce(x.w, persona, served, x.r, a);
    if a in x.r.sent { SentWereListed(x.w, persona, served, false, x.r, a); }
  }

  function PostsEnqueued(xs: seq<PostAttempt>): seq<seq<Uri>> {
    seq(|xs|, i requires 0 <= i < |xs| => xs[i].enqueued)
  }

  /** Over all attempts of one of these jobs nobody gets more deliveries than there were attempts, if each
      had distinct mentions and no actor under two ids; and if the last one succeeded, every steady
      follower on a live host whom it did not mention or reply to has at least one. */
  lemma PostOverAttempts(persona: Id, xs: seq<PostAttempt>, a: Uri)
    requires xs != [] && forall i :: 0 <= i < |xs| ==> IsPostAttempt(persona, xs[i])
    ensures (forall i :: 0 <= i < |xs| ==> Plain(persona, xs[i])) ==> multiset(Flat(PostsEnqueued(xs)))[a] <= |xs|
    ensures var x := xs[|xs| - 1];
            x.r.ok && a !in Served(x.mentions, x.reply) && SteadyLive(x.w, persona, x.r, a) ==>
              multiset(Flat(PostsEnqueued(xs)))[a] >= 1
  {
    var all := PostsEnqueued(xs);
    if forall i :: 0 <= i < |xs| ==> Plain(persona, xs[i]) {
      forall i | 0 <= i < |all| ensures multiset(all[i])[a] <= 1 {
        assert IsPostAttempt(persona, xs[i]) && Plain(persona, xs[i]);
        PlainAttemptServesOnce(persona, xs[i], a);
      }
      AttemptsAddUp(all, a);
    }
    var x := xs[|xs| - 1];
    assert IsPostAttempt(persona, x) && all[|xs| - 1] == x.enqueued;
    FlatNext(all, a);
    if x.r.ok { PostDelivers(x.w, persona, x.mentions, x.stored, x.reply, x.r, x.enqueued, a); }
  }
}
