/** The cached counters of a persona and the tables they count: every call writes one table and then
    counts again. */
module Counters {
  import opened Prelude

  // ---------------------------------------------------------------- tables

  datatype Kind = Followers | Following | Posts

  /** A row of followers, of follows or of posts; the columns that count. */
  datatype Row =
    | FollowerRow(persona: int, actor: string, approved: bool)
    | FollowRow(persona: int, target: string, accepted: bool)
    | PostRow(persona: int, origin: string, reblogOf: Option<int>, uri: string)   // no uri: ""

  datatype Persona = Persona(followersCount: nat, followingCount: nat, postCount: nat)

  datatype Tables = Tables(personas: map<int, Persona>, rows: map<Kind, map<int, Row>>)

  function KindOf(row: Row): Kind {
    match row
    case FollowerRow(_, _, _) => Followers
    case FollowRow(_, _, _) => Following
    case PostRow(_, _, _, _) => Posts
  }

  /** Every table is there, its rows are of its kind and belong to a persona. */
  ghost predicate WellFormed(t: Tables) {
    && (forall k: Kind :: k in t.rows)
    && (forall k: Kind, i :: i in t.rows[k] ==> KindOf(t.rows[k][i]) == k && t.rows[k][i].persona in t.personas)
  }

  /** Approved followers, all follows, and posts of local origin are counted. */
  predicate Counts(row: Row) {
    match row
    case FollowerRow(_, _, approved) => approved
    case FollowRow(_, _, _) => true
    case PostRow(_, origin, _, _) => origin == "local"
  }

  function Counted(t: Tables, k: Kind, p: int): set<int>
    requires k in t.rows
  {
    set i | i in t.rows[k] && t.rows[k][i].persona == p && Counts(t.rows[k][i])
  }

  function Cached(t: Tables, k: Kind, p: int): nat
    requires p in t.personas
  {
    match k
    case Followers => t.personas[p].followersCount
    case Following => t.personas[p].followingCount
    case Posts => t.personas[p].postCount
  }

  ghost predicate Right(t: Tables, k: Kind, p: int)
    requires k in t.rows && p in t.personas
  {
    Cached(t, k, p) == |Counted(t, k, p)|
  }

  /** Every cached counter is the number of rows it stands for. */
  ghost predicate Consistent(t: Tables)
    requires WellFormed(t)
  {
    forall k: Kind, p :: p in t.personas ==> Right(t, k, p)
  }

  // ---------------------------------------------------------------- statements

  /** Two rows with the same key in a unique index: persona and actor for followers and follows, the uri
      for posts that have one. */
  predicate Clash(a: Row, b: Row) {
    || (a.FollowerRow? && b.FollowerRow? && a.persona == b.persona && a.actor == b.actor)
    || (a.FollowRow? && b.FollowRow? && a.persona == b.persona && a.target == b.target)
    || (a.PostRow? && b.PostRow? && a.uri == b.uri != "")
  }

  /** An insert goes through if the persona exists and neither the id nor the key is taken. */
  predicate Insertable(t: Tables, i: int, row: Row)
    requires KindOf(row) in t.rows
  {
    && row.persona in t.personas && i !in t.rows[KindOf(row)]
    && forall j :: j in t.rows[KindOf(row)] ==> !Clash(t.rows[KindOf(row)][j], row)
  }

  /** The same, key by key. */
  ghost predicate KeysFree(t: Tables, i: int, row: Row) {
    && row.persona in t.personas && KindOf(row) in t.rows && i !in t.rows[KindOf(row)]
    && forall j :: j in t.rows[KindOf(row)] ==>
         var r := t.rows[KindOf(row)][j];
         && (row.FollowerRow? && r.FollowerRow? ==> r.persona != row.persona || r.actor != row.actor)
         && (row.FollowRow? && r.FollowRow? ==> r.persona != row.persona || r.target != row.target)
         && (row.PostRow? && r.PostRow? && row.uri != "" ==> r.uri != row.uri)
  }

  lemma KeysFreeIsInsertable(t: Tables, i: int, row: Row)
    requires KindOf(row) in t.rows
    ensures Insertable(t, i, row) <==> KeysFree(t, i, row)
  {
  }

  function Inserted(t: Tables, i: int, row: Row): Tables
    requires KindOf(row) in t.rows
  {
    t.(rows := t.rows[KindOf(row) := t.rows[KindOf(row)][i := row]])
  }

  function Without(t: Tables, k: Kind, gone: set<int>): Tables
    requires k in t.rows
  {
    t.(rows := t.rows[k := t.rows[k] - gone])
  }

  function Approved(t: Tables, i: int): Tables
    requires Followers in t.rows && i in t.rows[Followers] ==> t.rows[Followers][i].FollowerRow?
  {
    if Followers in t.rows && i in t.rows[Followers]
    then t.(rows := t.rows[Followers := t.rows[Followers][i := t.rows[Followers][i].(approved := true)]])
    else t
  }

  function Accepted(t: Tables, i: int, accepted: bool): Tables
    requires Following in t.rows && i in t.rows[Following] ==> t.rows[Following][i].FollowRow?
  {
    if Following in t.rows && i in t.rows[Following]
    then t.(rows := t.rows[Following := t.rows[Following][i := t.rows[Following][i].(accepted := accepted)]])
    else t
  }

  function WithCount(c: Persona, k: Kind, n: nat): Persona {
    match k
    case Followers => c.(followersCount := n)
    case Following => c.(followingCount := n)
    case Posts => c.(postCount := n)
  }

  /** Counting one kind again for one persona; nothing happens for a persona that is not there. */
  function Refreshed(t: Tables, k: Kind, p: int): Tables
    requires k in t.rows
  {
    if p in t.personas then t.(personas := t.personas[p := WithCount(t.personas[p], k, |Counted(t, k, p)|)]) else t
  }

  /** Counting one kind again for every persona. */
  function RefreshedAll(t: Tables, k: Kind): Tables
    requires k in t.rows
  {
    t.(personas := map p | p in t.personas :: WithCount(t.personas[p], k, |Counted(t, k, p)|))
  }

  function Recounted(t: Tables): Tables
    requires Followers in t.rows && Following in t.rows && Posts in t.rows
  {
    t.(personas := map p | p in t.personas ::
      Persona(|Counted(t, Followers, p)|, |Counted(t, Following, p)|, |Counted(t, Posts, p)|))
  }

  /** The row whose deletion by id is looked up beforehand: for a post only if it is local. */
  function PersonaBehind(t: Tables, k: Kind, i: int): Option<int>
    requires k in t.rows
  {
    if i in t.rows[k] && (k == Posts ==> Counts(t.rows[k][i])) then Some(t.rows[k][i].persona) else None
  }

  function ByActor(t: Tables, p: int, actor: string): set<int>
    requires Followers in t.rows
  {
    set i | i in t.rows[Followers] && t.rows[Followers][i].FollowerRow? && t.rows[Followers][i].persona == p
            && t.rows[Followers][i].actor == actor
  }

  function Reblogs(t: Tables, p: int, original: int): set<int>
    requires Posts in t.rows
  {
    set i | i in t.rows[Posts] && t.rows[Posts][i].PostRow? && t.rows[Posts][i].persona == p
            && t.rows[Posts][i].reblogOf == Some(original)
  }

  /** An empty origin is stored as a local one. */
  function Stored(row: Row): Row {
    if row.PostRow? && row.origin == "" then row.(origin := "local") else row
  }

  // ---------------------------------------------------------------- calls of several statements

  /** A new post that is not local is not counted, and nobody counts again for it. */
  function AfterCreate(t: Tables, i: int, row: Row): Tables
    requires forall k: Kind :: k in t.rows
  {
    var u := Inserted(t, i, row);
    if row.PostRow? && row.origin != "local" then u else Refreshed(u, KindOf(row), row.persona)
  }

  function AfterDelete(t: Tables, k: Kind, i: int): Tables
    requires k in t.rows
  {
    match PersonaBehind(t, k, i)
    case None => Without(t, k, {i})
    case Some(p) => Refreshed(Without(t, k, {i}), k, p)
  }

  /** Here the persona is looked up after the update. */
  function AfterApprove(t: Tables, i: int): Tables
    requires Followers in t.rows && (i in t.rows[Followers] ==> t.rows[Followers][i].FollowerRow?)
  {
    var u := Approved(t, i);
    match PersonaBehind(u, Followers, i)
    case None => u
    case Some(p) => Refreshed(u, Followers, p)
  }

  // ---------------------------------------------------------------- what statements do to counts

  lemma InsertedCounts(t: Tables, i: int, row: Row, k: Kind, p: int)
    requires WellFormed(t) && Insertable(t, i, row)
    ensures WellFormed(Inserted(t, i, row))
    ensures Counted(Inserted(t, i, row), k, p) ==
              Counted(t, k, p) + (if k == KindOf(row) && p == row.persona && Counts(row) then {i} else {})
  {
  }

  lemma WithoutCounts(t: Tables, k: Kind, gone: set<int>, j: Kind, p: int)
    requires WellFormed(t)
    ensures WellFormed(Without(t, k, gone))
    ensures Counted(Without(t, k, gone), j, p) == if j == k then Counted(t, j, p) - gone else Counted(t, j, p)
  {
  }

  lemma OthersStay(t: Tables, k: Kind, gone: set<int>, p: int, q: int)
    requires k in t.rows && q != p && forall i :: i in t.rows[k] && t.rows[k][i].persona != p ==> i !in gone
    ensures Counted(t, k, q) - gone == Counted(t, k, q)
  {
    forall i | i in Counted(t, k, q) ensures i !in gone {
      assert t.rows[k][i].persona != p;
    }
  }

  lemma ApprovedCounts(t: Tables, i: int, k: Kind, p: int)
    requires WellFormed(t)
    ensures WellFormed(Approved(t, i))
    ensures Counted(Approved(t, i), k, p) ==
              Counted(t, k, p) + (if k == Followers && i in t.rows[k] && t.rows[k][i].persona == p then {i} else {})
  {
  }

  lemma RefreshedCounts(t: Tables, k: Kind, p: int, j: Kind, q: int)
    requires WellFormed(t) && q in t.personas
    ensures WellFormed(Refreshed(t, k, p)) && Counted(Refreshed(t, k, p), j, q) == Counted(t, j, q)
    ensures Cached(Refreshed(t, k, p), j, q) == if j == k && q == p then |Counted(t, k, p)| else Cached(t, j, q)
  {
  }

  lemma RefreshedAllCounts(t: Tables, k: Kind, j: Kind, q: int)
    requires WellFormed(t) && q in t.personas
    ensures WellFormed(RefreshedAll(t, k)) && Counted(RefreshedAll(t, k), j, q) == Counted(t, j, q)
    ensures Cached(RefreshedAll(t, k), j, q) == if j == k then |Counted(t, k, q)| else Cached(t, j, q)
  {
  }

  /** A change of rows that touches no other count than those counted again leaves all in order. */
  lemma RefreshRestores(t: Tables, u: Tables, k: Kind, p: int)
    requires WellFormed(t) && WellFormed(u) && Consistent(t) && u.personas == t.personas
    requires forall j: Kind, q :: q in t.personas && (j, q) != (k, p) ==> Counted(u, j, q) == Counted(t, j, q)
    ensures WellFormed(Refreshed(u, k, p)) && Consistent(Refreshed(u, k, p))
  {
    forall j: Kind, q | q in t.personas ensures Right(Refreshed(u, k, p), j, q) {
      RefreshedCounts(u, k, p, j, q);
      assert Right(t, j, q);
    }
  }

  lemma RefreshAllRestores(t: Tables, u: Tables, k: Kind)
    requires WellFormed(t) && WellFormed(u) && Consistent(t) && u.personas == t.personas
    requires forall j: Kind, q :: q in t.personas && j != k ==> Counted(u, j, q) == Counted(t, j, q)
    ensures WellFormed(RefreshedAll(u, k)) && Consistent(RefreshedAll(u, k))
  {
    forall j: Kind, q | q in t.personas ensures Right(RefreshedAll(u, k), j, q) {
      RefreshedAllCounts(u, k, j, q);
      assert Right(t, j, q);
    }
  }

  // ---------------------------------------------------------------- how far the counters move

  /** A follower counts once approved, a follow always, a post if its origin is local. */
  lemma WhatCounts(t: Tables, p: int, i: int)
    requires WellFormed(t)
    ensures i in Counted(t, Followers, p) <==> i in t.rows[Followers] && t.rows[Followers][i].persona == p && t.rows[Followers][i].approved
    ensures i in Counted(t, Following, p) <==> i in t.rows[Following] && t.rows[Following][i].persona == p
    ensures i in Counted(t, Posts, p) <==> i in t.rows[Posts] && t.rows[Posts][i].persona == p && t.rows[Posts][i].origin == "local"
  {
    if i in t.rows[Followers] { assert KindOf(t.rows[Followers][i]) == Followers; }
    if i in t.rows[Following] { assert KindOf(t.rows[Following][i]) == Following; }
    if i in t.rows[Posts] { assert KindOf(t.rows[Posts][i]) == Posts; }
  }

  ghost predicate MovedFor(c: Persona, d: Persona, followers: int, following: int, posts: int) {
    && d.followersCount == c.followersCount + followers
    && d.followingCount == c.followingCount + following
    && d.postCount == c.postCount + posts
  }

  /** The counters of p have moved by so much, and those of no other persona. */
  ghost predicate Moved(t: Tables, u: Tables, p: int, followers: int, following: int, posts: int) {
    && u.personas.Keys == t.personas.Keys
    && forall q :: q in t.personas ==>
         if q == p then MovedFor(t.personas[q], u.personas[q], followers, following, posts) else u.personas[q] == t.personas[q]
  }

  /** What the presence of a row is worth to the counter of its kind. */
  function Worth(row: Row): int {
    match row
    case FollowerRow(_, _, approved) => if approved then 1 else 0
    case FollowRow(_, _, _) => 1
    case PostRow(_, origin, _, _) => if origin == "local" then 1 else 0
  }

  /** u counts at most row i of one kind and persona more than t. */
  ghost predicate CountsOneMore(t: Tables, u: Tables, kind: Kind, p: int, i: int, more: bool)
    requires WellFormed(t) && WellFormed(u)
  {
    && (more ==> i !in Counted(t, kind, p))
    && forall k: Kind, q :: Counted(u, k, q) == Counted(t, k, q) + if more && k == kind && q == p then {i} else {}
  }

  lemma OneMoreCached(t: Tables, u: Tables, kind: Kind, p: int, i: int, more: bool, k: Kind, q: int)
    requires WellFormed(t) && WellFormed(u) && Consistent(t) && Consistent(u) && q in t.personas && q in u.personas
    requires CountsOneMore(t, u, kind, p, i, more)
    ensures Cached(u, k, q) == Cached(t, k, q) + if more && k == kind && q == p then 1 else 0
  {
    assert Right(t, k, q) && Right(u, k, q);
    assert Counted(u, k, q) == Counted(t, k, q) + if more && k == kind && q == p then {i} else {};
  }

  /** Between two right states the counters move as what they count. */
  lemma CountMoves(t: Tables, u: Tables, kind: Kind, p: int, i: int, more: bool)
    requires WellFormed(t) && WellFormed(u) && Consistent(t) && Consistent(u) && u.personas.Keys == t.personas.Keys
    requires CountsOneMore(t, u, kind, p, i, more)
    ensures var n := if more then 1 else 0;
            var f, g, h := if kind.Followers? then n else 0, if kind.Following? then n else 0, if kind.Posts? then n else 0;
            Moved(t, u, p, f, g, h) && Moved(u, t, p, -f, -g, -h)
  {
    forall q | q in t.personas
      ensures var n := if more && q == p then 1 else 0;
              MovedFor(t.personas[q], u.personas[q],
                       if kind.Followers? then n else 0, if kind.Following? then n else 0, if kind.Posts? then n else 0)
    {
      OneMoreCached(t, u, kind, p, i, more, Followers, q);
      OneMoreCached(t, u, kind, p, i, more, Following, q);
      OneMoreCached(t, u, kind, p, i, more, Posts, q);
    }
  }

  /** How the counters move by the worth of a row, times sign. */
  ghost predicate MovedBy(t: Tables, u: Tables, row: Row, sign: int) {
    Moved(t, u, row.persona,
      if row.FollowerRow? then sign * Worth(row) else 0,
      if row.FollowRow? then sign * Worth(row) else 0,
      if row.PostRow? then sign * Worth(row) else 0)
  }

  lemma InsertMoves(t: Tables, u: Tables, i: int, s: Row)
    requires WellFormed(t) && WellFormed(u) && Consistent(t) && Consistent(u) && u.personas.Keys == t.personas.Keys
    requires Insertable(t, i, s) && u.rows == Inserted(t, i, s).rows
    ensures MovedBy(t, u, s, 1)
  {
    var v := Inserted(t, i, s);
    forall k: Kind, q
      ensures Counted(u, k, q) == Counted(t, k, q) + if Counts(s) && k == KindOf(s) && q == s.persona then {i} else {}
    {
      InsertedCounts(t, i, s, k, q);
      assert Counted(u, k, q) == Counted(v, k, q);
    }
    CountMoves(t, u, KindOf(s), s.persona, i, Counts(s));
  }

  /** Deleting is inserting, seen from the other side. */
  lemma DeleteMoves(t: Tables, u: Tables, k: Kind, i: int)
    requires WellFormed(t) && WellFormed(u) && Consistent(t) && Consistent(u) && u.personas.Keys == t.personas.Keys
    requires i in t.rows[k] && u.rows == Without(t, k, {i}).rows
    ensures MovedBy(t, u, t.rows[k][i], -1)
  {
    var row := t.rows[k][i];
    assert KindOf(row) == k;
    var v := Without(t, k, {i});
    forall j: Kind, q
      ensures Counted(t, j, q) == Counted(u, j, q) + if Counts(row) && j == k && q == row.persona then {i} else {}
    {
      WithoutCounts(t, k, {i}, j, q);
      assert Counted(u, j, q) == Counted(v, j, q);
    }
    CountMoves(u, t, k, row.persona, i, Counts(row));
  }

  lemma ApproveMoves(t: Tables, u: Tables, i: int)
    requires WellFormed(t) && WellFormed(u) && Consistent(t) && Consistent(u) && u.personas.Keys == t.personas.Keys
    requires i in t.rows[Followers] && u.rows == Approved(t, i).rows
    ensures t.rows[Followers][i].FollowerRow?
    ensures Moved(t, u, t.rows[Followers][i].persona, if t.rows[Followers][i].approved then 0 else 1, 0, 0)
  {
    var row := t.rows[Followers][i];
    assert KindOf(row) == Followers;
    var v := Approved(t, i);
    forall k: Kind, q
      ensures Counted(u, k, q) == Counted(t, k, q) + if !row.approved && k == Followers && q == row.persona then {i} else {}
    {
      ApprovedCounts(t, i, k, q);
      assert Counted(u, k, q) == Counted(v, k, q);
    }
    CountMoves(t, u, Followers, row.persona, i, !row.approved);
  }

  // ---------------------------------------------------------------- the store

  class Store {
    var t: Tables

    constructor ()
      ensures WellFormed(t) && Consistent(t)
    {
      t := Tables(map[], map[Followers := map[], Following := map[], Posts := map[]]);
      new;
      forall k: Kind ensures k in t.rows {
        match k case Followers => case Following => case Posts =>
      }
    }

    method CreatePersona(p: int) returns (ok: bool)
      requires WellFormed(t)
      modifies this
      ensures WellFormed(t) && (old(Consistent(t)) ==> Consistent(t))
      ensures ok <==> p !in old(t).personas
      ensures t == if ok then old(t).(personas := old(t).personas[p := Persona(0, 0, 0)]) else old(t)
    {
      ok := p !in t.personas;
      if ok {
        t := t.(personas := t.personas[p := Persona(0, 0, 0)]);
        forall k: Kind, q | q in t.personas ensures old(Consistent(t)) ==> Right(t, k, q) {
          assert Counted(t, k, q) == Counted(old(t), k, q);
          if q == p {
            assert forall i :: i in old(t).rows[k] ==> old(t).rows[k][i].persona != p;
            assert Counted(t, k, q) == {};
          } else {
            assert old(Consistent(t)) ==> Right(old(t), k, q);
          }
        }
      }
    }

    /** CreateFollow, CreateFollower and CreatePost: insert, then count for the persona of the row. */
    method Create(i: int, given: Row) returns (ok: bool)
      requires WellFormed(t)
      modifies this
      ensures WellFormed(t) && (old(Consistent(t)) ==> Consistent(t))
      ensures ok <==> KeysFree(old(t), i, Stored(given))
      ensures t == if ok then AfterCreate(old(t), i, Stored(given)) else old(t)
      ensures var row := if given.PostRow? && given.origin == "" then given.(origin := "local") else given;
              ok ==>
                && t.rows == old(t).rows[KindOf(row) := old(t).rows[KindOf(row)][i := row]]
                && (old(Consistent(t)) ==> MovedBy(old(t), t, row, 1))
    {
      var row := Stored(given);
      KeysFreeIsInsertable(t, i, row);
      ok := Insertable(t, i, row);
      if !ok { return; }
      forall k: Kind, p
        ensures WellFormed(Inserted(t, i, row))
        ensures (k, p) != (KindOf(row), row.persona) || !Counts(row) ==> Counted(Inserted(t, i, row), k, p) == Counted(t, k, p)
      {
        InsertedCounts(t, i, row, k, p);
      }
      t := Inserted(t, i, row);
      if row.PostRow? && row.origin != "local" {
        SameCounts(old(t), t);
        if old(Consistent(t)) { InsertMoves(old(t), t, i, row); }
        return;
      }
      if old(Consistent(t)) { RefreshRestores(old(t), t, KindOf(row), row.persona); }
      t := Refreshed(t, KindOf(row), row.persona);
      if old(Consistent(t)) { InsertMoves(old(t), t, i, row); }
    }

    /** CreateFollowerBulk and CreatePostBulk: insert and leave the counters. */
    method CreateBulk(i: int, given: Row) returns (ok: bool)
      requires WellFormed(t)
      modifies this
      ensures WellFormed(t)
      ensures ok <==> KeysFree(old(t), i, Stored(given))
      ensures t == if ok then Inserted(old(t), i, Stored(given)) else old(t)
      ensures t.personas == old(t).personas
    {
      KeysFreeIsInsertable(t, i, Stored(given));
      ok := Insertable(t, i, Stored(given));
      if ok {
        InsertedCounts(t, i, Stored(given), Posts, 0);
        t := Inserted(t, i, Stored(given));
      }
    }

    /** DeleteFollow, DeleteFollower and DeletePost: look the persona up, delete, count. The delete may
        be refused by a foreign key. */
    method Delete(k: Kind, i: int, refused: bool) returns (ok: bool)
      requires WellFormed(t)
      modifies this
      ensures WellFormed(t) && (old(Consistent(t)) ==> Consistent(t))
      ensures ok == !refused && t == if ok then AfterDelete(old(t), k, i) else old(t)
      ensures ok ==> t.rows == old(t).rows[k := old(t).rows[k] - {i}]
      ensures ok && old(Consistent(t)) ==> if i in old(t).rows[k] then MovedBy(old(t), t, old(t).rows[k][i], -1) else t.personas == old(t).personas
    {
      var persona := PersonaBehind(t, k, i);
      ok := !refused;
      if refused { return; }
      forall j: Kind, p
        ensures WellFormed(Without(t, k, {i}))
        ensures (persona.Some? ==> (j, p) != (k, persona.value)) ==> Counted(Without(t, k, {i}), j, p) == Counted(t, j, p)
      {
        WithoutCounts(t, k, {i}, j, p);
      }
      t := Without(t, k, {i});
      if persona.None? {
        SameCounts(old(t), t);
        if i in old(t).rows[k] && old(Consistent(t)) { DeleteMoves(old(t), t, k, i); }
        return;
      }
      if old(Consistent(t)) { RefreshRestores(old(t), t, k, persona.value); }
      t := Refreshed(t, k, persona.value);
      if old(Consistent(t)) { DeleteMoves(old(t), t, k, i); }
    }

    method ApproveFollower(i: int)
      requires WellFormed(t)
      modifies this
      ensures WellFormed(t) && (old(Consistent(t)) ==> Consistent(t))
      ensures t == AfterApprove(old(t), i)
      ensures var rows := old(t).rows[Followers];
              if i !in rows then t == old(t)
              else
                && rows[i].FollowerRow?
                && t.rows == old(t).rows[Followers := rows[i := rows[i].(approved := true)]]
                && (old(Consistent(t)) ==> Moved(old(t), t, rows[i].persona, if rows[i].approved then 0 else 1, 0, 0))
    {
      if i in t.rows[Followers] { assert KindOf(t.rows[Followers][i]) == Followers; }
      forall j: Kind, p
        ensures WellFormed(Approved(t, i))
        ensures (i in t.rows[Followers] ==> (j, p) != (Followers, t.rows[Followers][i].persona)) ==>
                  Counted(Approved(t, i), j, p) == Counted(t, j, p)
      {
        ApprovedCounts(t, i, j, p);
      }
      t := Approved(t, i);
      var persona := PersonaBehind(t, Followers, i);
      if persona.None? {
        SameCounts(old(t), t);
        return;
      }
      if old(Consistent(t)) { RefreshRestores(old(t), t, Followers, persona.value); }
      t := Refreshed(t, Followers, persona.value);
      if old(Consistent(t)) { ApproveMoves(old(t), t, i); }
    }

    /** UpdateFollow: acceptance is not counted. */
    method UpdateFollow(i: int, accepted: bool)
      requires WellFormed(t)
      modifies this
      ensures WellFormed(t) && (old(Consistent(t)) ==> Consistent(t))
      ensures t == Accepted(old(t), i, accepted) && t.personas == old(t).personas
    {
      t := Accepted(t, i, accepted);
      forall k: Kind, p ensures Counted(t, k, p) == Counted(old(t), k, p) {}
      SameCounts(old(t), t);
    }

    method DeleteFollowerByActorURI(p: int, actor: string)
      requires WellFormed(t)
      modifies this
      ensures WellFormed(t) && (old(Consistent(t)) ==> Consistent(t))
      ensures t == Refreshed(Without(old(t), Followers, ByActor(old(t), p, actor)), Followers, p)
      ensures forall i :: i in t.rows[Followers] <==>
                i in old(t).rows[Followers] && !(old(t).rows[Followers][i].persona == p && old(t).rows[Followers][i].actor == actor)
    {
      assert forall i :: i in t.rows[Followers] ==> KindOf(t.rows[Followers][i]) == Followers;
      DeleteMatching(Followers, p, ByActor(t, p, actor));
    }

    /** DeleteReblogPost counts again whatever the origin of the deleted posts. */
    method DeleteReblogPost(p: int, original: int)
      requires WellFormed(t)
      modifies this
      ensures WellFormed(t) && (old(Consistent(t)) ==> Consistent(t))
      ensures t == Refreshed(Without(old(t), Posts, Reblogs(old(t), p, original)), Posts, p)
      ensures forall i :: i in t.rows[Posts] <==>
                i in old(t).rows[Posts] && !(old(t).rows[Posts][i].persona == p && old(t).rows[Posts][i].reblogOf == Some(original))
    {
      assert forall i :: i in t.rows[Posts] ==> KindOf(t.rows[Posts][i]) == Posts;
      DeleteMatching(Posts, p, Reblogs(t, p, original));
    }

    method DeleteMatching(k: Kind, p: int, gone: set<int>)
      requires WellFormed(t) && forall i :: i in t.rows[k] && t.rows[k][i].persona != p ==> i !in gone
      modifies this
      ensures WellFormed(t) && (old(Consistent(t)) ==> Consistent(t))
      ensures t == Refreshed(Without(old(t), k, gone), k, p)
    {
      forall j: Kind, q
        ensures WellFormed(Without(t, k, gone))
        ensures (j, q) != (k, p) ==> Counted(Without(t, k, gone), j, q) == Counted(t, j, q)
      {
        WithoutCounts(t, k, gone, j, q);
        if q != p { OthersStay(t, k, gone, p, q); }
      }
      t := Without(t, k, gone);
      if old(Consistent(t)) { RefreshRestores(old(t), t, k, p); }
      t := Refreshed(t, k, p);
    }

    /** DeleteFollowsByTargetDomain and DeleteFollowersByActorDomain: whichever rows the pattern meets. */
    method DeleteByDomain(k: Kind, gone: set<int>)
      requires WellFormed(t)
      modifies this
      ensures WellFormed(t) && (old(Consistent(t)) ==> Consistent(t))
      ensures t == RefreshedAll(Without(old(t), k, gone), k)
    {
      forall j: Kind, q
        ensures WellFormed(Without(t, k, gone)) && (j != k ==> Counted(Without(t, k, gone), j, q) == Counted(t, j, q))
      {
        WithoutCounts(t, k, gone, j, q);
      }
      t := Without(t, k, gone);
      if old(Consistent(t)) { RefreshAllRestores(old(t), t, k); }
      t := RefreshedAll(t, k);
    }

    /** Whatever the counters were, they are right afterwards. */
    method RefreshAllCounters()
      requires WellFormed(t)
      modifies this
      ensures WellFormed(t) && Consistent(t) && t.rows == old(t).rows && t.personas.Keys == old(t).personas.Keys
    {
      t := Recounted(t);
      forall k: Kind, p | p in t.personas ensures Right(t, k, p) {
        assert Counted(t, k, p) == Counted(old(t), k, p);
      }
    }
  }

  lemma SameCounts(t: Tables, u: Tables)
    requires WellFormed(t) && WellFormed(u) && u.personas == t.personas
    requires forall k: Kind, p :: p in t.personas ==> Counted(u, k, p) == Counted(t, k, p)
    ensures Consistent(t) ==> Consistent(u)
  {
    if Consistent(t) {
      forall k: Kind, p | p in u.personas ensures Right(u, k, p) { assert Right(t, k, p); }
    }
  }
}
