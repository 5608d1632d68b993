/** Blocks and the follow relations they exclude: the handlers that change either. */
module Blocks {
  import opened Prelude

  /** A row of followers (actor follows persona) or of follows (persona follows actor). */
  datatype Link = Link(persona: int, actor: string, confirmed: bool)

  type Links = map<int, Link>

  function Between(links: Links, p: int, actor: string): set<int> {
    set i | i in links && links[i].persona == p && links[i].actor == actor
  }

  /** No two rows for one persona and actor: the unique index. */
  ghost predicate Unique(links: Links) {
    forall i, j :: i in links && j in links && links[i].persona == links[j].persona && links[i].actor == links[j].actor ==> i == j
  }

  /** What an insert demands: the persona exists, and neither the id nor the pair is taken. */
  predicate Insertable(personas: seq<int>, links: Links, id: int, p: int, actor: string) {
    p in personas && id !in links && Between(links, p, actor) == {}
  }

  ghost predicate Apart(links: Links, blocks: set<string>) {
    forall i :: i in links ==> links[i].actor !in blocks
  }

  /** Just the rows of this persona and this actor have gone. */
  ghost predicate LosesPair(was: Links, now: Links, p: int, actor: string) {
    && (forall i :: i in now <==> i in was && !(was[i].persona == p && was[i].actor == actor))
    && (forall i :: i in now ==> now[i] == was[i])
  }

  /** Just the rows of this actor have gone, whoever the persona. */
  ghost predicate LosesActor(was: Links, now: Links, actor: string) {
    && (forall i :: i in now <==> i in was && was[i].actor != actor)
    && (forall i :: i in now ==> now[i] == was[i])
  }

  /** The insert goes through: the persona is there, the id is new, and the pair has no row yet. */
  ghost predicate Fresh(personas: seq<int>, links: Links, id: int, p: int, actor: string) {
    p in personas && id !in links && forall i :: i in links ==> links[i].persona != p || links[i].actor != actor
  }

  lemma FreshIsInsertable(personas: seq<int>, links: Links, id: int, p: int, actor: string)
    ensures Insertable(personas, links, id, p, actor) <==> Fresh(personas, links, id, p, actor)
  {
    if Insertable(personas, links, id, p, actor) {
      forall i | i in links ensures links[i].persona != p || links[i].actor != actor {
        assert i !in Between(links, p, actor);
      }
    }
    if Fresh(personas, links, id, p, actor) {
      forall i ensures i !in Between(links, p, actor) {
        if i in links { assert links[i].persona != p || links[i].actor != actor; }
      }
      assert Between(links, p, actor) == {};
    }
  }

  class Relations {
    var personas: seq<int>
    var blocks: set<string>
    var followers: Links
    var follows: Links

    /** What the schema enforces. */
    ghost predicate Valid()
      reads this
    {
      && Unique(followers) && Unique(follows)
      && (forall i :: i in followers ==> followers[i].persona in personas)
      && (forall i :: i in follows ==> follows[i].persona in personas)
    }

    /** No relation with a blocked actor, in either direction, for any persona. */
    ghost predicate Separate()
      reads this
    {
      Apart(followers, blocks) && Apart(follows, blocks)
    }

    constructor (personas: seq<int>)
      ensures Valid() && Separate() && this.personas == personas
    {
      this.personas, blocks, followers, follows := personas, {}, map[], map[];
    }

    /** IsBlocked: by the actor itself or, as the caller has found, by its domain. */
    predicate IsBlocked(actor: string, byDomain: bool)
      reads this
    {
      actor in blocks || byDomain
    }

    /** The only way into followers: a Follow that passes the gate. */
    method InboxFollow(p: int, actor: string, id: int, locked: bool, byDomain: bool)
      requires Valid()
      modifies this`followers
      ensures Valid() && (old(Separate()) ==> Separate())
      ensures followers ==
                if actor !in blocks && !byDomain && Fresh(personas, old(followers), id, p, actor)
                then old(followers)[id := Link(p, actor, !locked)] else old(followers)
    {
      FreshIsInsertable(personas, followers, id, p, actor);
      if IsBlocked(actor, byDomain) { return; }
      if Insertable(personas, followers, id, p, actor) {
        UniqueInsert(followers, id, Link(p, actor, !locked));
        followers := followers[id := Link(p, actor, !locked)];
      }
    }

    /** Undo passes the gate even when blocked, but it only removes. */
    method InboxUndoFollow(p: int, actor: string)
      requires Valid()
      modifies this`followers
      ensures Valid() && (old(Separate()) ==> Separate())
      ensures followers == old(followers) - Between(old(followers), p, actor)
      ensures LosesPair(old(followers), followers, p, actor)
    {
      DeleteFollowerByActorURI(p, actor);
    }

    method DeleteFollowerByActorURI(p: int, actor: string)
      requires Valid()
      modifies this`followers
      ensures Valid() && (old(Separate()) ==> Separate())
      ensures followers == old(followers) - Between(old(followers), p, actor)
      ensures LosesPair(old(followers), followers, p, actor)
    {
      followers := followers - Between(followers, p, actor);
    }

    /** The row for a pair, which the unique index makes the only one. */
    method GetFollowByTarget(p: int, actor: string) returns (id: Option<int>)
      requires Valid()
      ensures Between(follows, p, actor) == match id { case None => {} case Some(i) => {i} }
    {
      var found := Between(follows, p, actor);
      if i :| i in found {
        assert forall j :: j in found ==> j == i;
        assert found == {i};
        return Some(i);
      }
      assert forall i :: i in follows ==> i !in found;
      return None;
    }

    method InboxAccept(p: int, actor: string, byDomain: bool)
      requires Valid()
      modifies this`follows
      ensures Valid() && (old(Separate()) ==> Separate())
      ensures follows.Keys == old(follows).Keys
      ensures forall i :: i in follows ==> follows[i] == old(follows)[i].(confirmed :=
                old(follows)[i].confirmed || (actor !in blocks && !byDomain && old(follows)[i].persona == p && old(follows)[i].actor == actor))
    {
      if IsBlocked(actor, byDomain) { return; }
      var f := GetFollowByTarget(p, actor);
      assert forall i :: i in follows && follows[i].persona == p && follows[i].actor == actor ==> i in Between(follows, p, actor);
      if f.Some? {
        assert f.value in Between(follows, p, actor);
        follows := follows[f.value := follows[f.value].(confirmed := true)];
      }
    }

    method InboxReject(p: int, actor: string, byDomain: bool)
      requires Valid()
      modifies this`follows
      ensures Valid() && (old(Separate()) ==> Separate())
      ensures follows == if actor in blocks || byDomain then old(follows) else old(follows) - Between(old(follows), p, actor)
      ensures !(actor in blocks || byDomain) ==> LosesPair(old(follows), follows, p, actor)
    {
      if IsBlocked(actor, byDomain) { return; }
      var f := GetFollowByTarget(p, actor);
      if f.Some? { follows := follows - {f.value}; }
    }

    /** A remote Block removes both directions for the persona. */
    method InboxBlock(p: int, actor: string)
      requires Valid()
      modifies this`followers, this`follows
      ensures Valid() && (old(Separate()) ==> Separate())
      ensures followers == old(followers) - Between(old(followers), p, actor)
      ensures LosesPair(old(followers), followers, p, actor)
      ensures follows == old(follows) - Between(old(follows), p, actor)
      ensures LosesPair(old(follows), follows, p, actor)
    {
      DeleteFollowerByActorURI(p, actor);
      var f := GetFollowByTarget(p, actor);
      if f.Some? { follows := follows - {f.value}; }
    }

    /** The only way into follows. */
    method FollowsCreate(p: int, target: string, id: int, byDomain: bool) returns (ok: bool)
      requires Valid()
      modifies this`follows
      ensures Valid() && (old(Separate()) ==> Separate())
      ensures ok <==> target != "" && target !in blocks && !byDomain && Fresh(personas, old(follows), id, p, target)
      ensures follows == if ok then old(follows)[id := Link(p, target, false)] else old(follows)
    {
      FreshIsInsertable(personas, follows, id, p, target);
      if target == "" { return false; }
      ok := !IsBlocked(target, byDomain) && Insertable(personas, follows, id, p, target);
      if ok {
        UniqueInsert(follows, id, Link(p, target, false));
        follows := follows[id := Link(p, target, false)];
      }
    }

    method FollowsDelete(id: int) returns (ok: bool)
      requires Valid()
      modifies this`follows
      ensures Valid() && (old(Separate()) ==> Separate())
      ensures ok == (id in old(follows)) && follows == old(follows) - {id}
    {
      ok := id in follows;
      follows := follows - {id};
    }

    /** Approval touches a row that is there and asks nobody whether the actor is blocked. */
    method FollowersApprove(id: int) returns (ok: bool)
      requires Valid()
      modifies this`followers
      ensures Valid() && (old(Separate()) ==> Separate())
      ensures ok == (id in old(followers))
      ensures followers == if ok then old(followers)[id := old(followers)[id].(confirmed := true)] else old(followers)
    {
      ok := id in followers;
      if ok { followers := followers[id := followers[id].(confirmed := true)]; }
    }

    method FollowersReject(id: int) returns (ok: bool)
      requires Valid()
      modifies this`followers
      ensures Valid() && (old(Separate()) ==> Separate())
      ensures ok == (id in old(followers)) && followers == old(followers) - {id}
    {
      ok := id in followers;
      followers := followers - {id};
    }

    /** Blocking: the block, then persona by persona the follower and the follow of the actor. If every
        other blocked actor had no relations, none has any now. */
    method BlocksCreate(actor: string) returns (ok: bool)
      requires Valid()
      modifies this`blocks, this`followers, this`follows
      ensures Valid() && (old(Separate()) ==> Separate())
      ensures ok <==> actor != "" && actor !in old(blocks)
      ensures blocks == if ok then old(blocks) + {actor} else old(blocks)
      ensures followers == if ok then NotOf(old(followers), actor) else old(followers)
      ensures follows == if ok then NotOf(old(follows), actor) else old(follows)
      ensures ok ==> LosesActor(old(followers), followers, actor) && LosesActor(old(follows), follows, actor)
    {
      ok := actor != "" && actor !in blocks;
      if !ok { return; }
      blocks := blocks + {actor};
      for k := 0 to |personas|
        invariant Valid() && ok && blocks == old(blocks) + {actor}
        invariant followers == Spared(old(followers), actor, personas[..k])
        invariant follows == Spared(old(follows), actor, personas[..k])
      {
        var p := personas[k];
        SparedNext(old(followers), actor, personas, k);
        SparedNext(old(follows), actor, personas, k);
        DeleteFollowerByActorURI(p, actor);
        var f := GetFollowByTarget(p, actor);
        if f.Some? { follows := follows - {f.value}; }
      }
      assert personas[..|personas|] == personas;
      SparedAll(old(followers), actor, personas);
      SparedAll(old(follows), actor, personas);
    }

    method BlocksDelete(actor: string) returns (ok: bool)
      requires Valid()
      modifies this`blocks
      ensures Valid() && (old(Separate()) ==> Separate())
      ensures ok <==> actor != ""
      ensures blocks == if ok then old(blocks) - {actor} else old(blocks)
    {
      ok := actor != "";
      if ok { blocks := blocks - {actor}; }
    }
  }

  function NotOf(links: Links, actor: string): Links {
    map i | i in links && links[i].actor != actor :: links[i]
  }

  /** The rows that are not both of the actor and of one of the personas. */
  function Spared(links: Links, actor: string, personas: seq<int>): Links {
    map i | i in links && !(links[i].actor == actor && links[i].persona in personas) :: links[i]
  }

  lemma SparedNext(links: Links, actor: string, personas: seq<int>, k: nat)
    requires k < |personas|
    ensures var s := Spared(links, actor, personas[..k]);
            Spared(links, actor, personas[..k + 1]) == s - Between(s, personas[k], actor)
  {
    assert personas[..k + 1] == personas[..k] + [personas[k]];
  }

  lemma SparedAll(links: Links, actor: string, personas: seq<int>)
    requires forall i :: i in links ==> links[i].persona in personas
    ensures Spared(links, actor, personas) == NotOf(links, actor)
  {
    forall i | i in links ensures i in Spared(links, actor, personas) <==> i in NotOf(links, actor) {
      assert links[i].persona in personas;
    }
  }

  lemma UniqueInsert(links: Links, id: int, l: Link)
    requires Unique(links) && Between(links, l.persona, l.actor) == {}
    ensures Unique(links[id := l])
  {
    forall i | i in links ensures !(links[i].persona == l.persona && links[i].actor == l.actor) {
      assert i !in Between(links, l.persona, l.actor);
    }
  }
}
