/** The notification poll: newest first, stopping early at the last identifier already seen. */
module Poll {
  import opened Prelude
  import opened Uuid

  function ClampLimit(val: int, def: int, max: int): int {
    if val < 1 then def else if val > max then max else val
  }

  /** ORDER BY id DESC over a primary key. */
  ghost predicate NewestFirst(ids: seq<ID>) {
    forall i, k :: 0 <= i < k < |ids| ==> Less(ids[k], ids[i])
  }

  /** The cursor the request names: nil when it names none or does not parse. */
  function SinceOf(since: string): ID {
    if since == "" then NIL
    else match Parsed(since)
      case Ok(b) => if IsId(b) then b else NIL
      case Err(_) => NIL
  }

  /** Notification id is newer than the cursor; with a nil cursor every one is. */
  predicate Newer(id: ID, since: ID) {
    since == NIL || Less(since, id)
  }

  /** The notifications newer than the cursor, in table order: the plain filter. */
  function NewerOnes(ids: seq<ID>, since: ID): seq<ID> {
    if ids == [] then []
    else if Newer(ids[0], since) then [ids[0]] + NewerOnes(ids[1..], since)
    else NewerOnes(ids[1..], since)
  }

  function Take(ids: seq<ID>, n: int): seq<ID> {
    if 0 <= n < |ids| then ids[..n] else ids
  }

  /** In a table sorted newest first the newer ones are a front part. */
  lemma {:induction false} NewerAreInFront(ids: seq<ID>, since: ID, i: nat)
    requires NewestFirst(ids) && i <= |ids|
    requires forall k :: 0 <= k < i ==> Newer(ids[k], since)
    requires i < |ids| ==> !Newer(ids[i], since)
    ensures NewerOnes(ids, since) == ids[..i]
  {
    if ids != [] {
      if i == 0 {
        NoneNewer(ids, since);
      } else {
        NewerAreInFront(ids[1..], since, i - 1);
        assert ids[..i] == [ids[0]] + ids[1..][..i - 1];
      }
    }
  }

  lemma {:induction false} NoneNewer(ids: seq<ID>, since: ID)
    requires NewestFirst(ids) && ids != [] && !Newer(ids[0], since)
    ensures NewerOnes(ids, since) == []
  {
    if |ids| > 1 {
      assert Less(ids[1], ids[0]);
      LessIsTotal(since, ids[1]);
      LessIsTotal(ids[0], since);
      if Less(since, ids[1]) { LessIsTransitive(since, ids[1], ids[0]); }
      NoneNewer(ids[1..], since);
    }
  }

  lemma {:induction false} NewerOnesFront(ids: seq<ID>, since: ID, i: nat)
    requires i <= |ids| && forall k :: 0 <= k < i ==> Newer(ids[k], since)
    ensures ids[..i] <= NewerOnes(ids, since)
  {
    if i > 0 {
      NewerOnesFront(ids[1..], since, i - 1);
      assert ids[..i] == [ids[0]] + ids[1..][..i - 1];
    }
  }

  /** The test in the loop, on printed identifiers. */
  predicate AtOrBefore(id: ID, since: ID) {
    since != NIL && !LessText(Print(since), Print(id))
  }

  lemma AtOrBeforeIsNotNewer(id: ID, since: ID)
    ensures AtOrBefore(id, since) <==> !Newer(id, since)
  {
    PrintOrder(since, id);
  }

  ghost predicate AllNewer(table: seq<ID>, since: ID, i: nat) {
    i <= |table| && forall k :: 0 <= k < i ==> Newer(table[k], since)
  }

  /** The break, or the end of the table, before the page is full. */
  lemma StoppedEarly(table: seq<ID>, since: ID, limit: int, i: nat)
    requires NewestFirst(table) && AllNewer(table, since, i) && i < limit
    requires i < |table| ==> !Newer(table[i], since)
    ensures Take(NewerOnes(table, since), limit) == table[..i]
  {
    NewerAreInFront(table, since, i);
  }

  lemma Filled(table: seq<ID>, since: ID, limit: nat)
    requires NewestFirst(table) && AllNewer(table, since, limit)
    ensures Take(NewerOnes(table, since), limit) == table[..limit]
  {
    NewerOnesFront(table, since, limit);
  }

  /** Fetches limit + 100 rows, walks them newest first and breaks at the first one not newer, as
      printed identifiers compare. The result is exactly the newest limit of all notifications
      newer than the cursor: neither the early break nor the row limit loses one. */
  method NotificationsPoll(table: seq<ID>, sinceText: string, limitParam: int) returns (out: seq<ID>)
    requires NewestFirst(table)
    ensures out == Take(NewerOnes(table, SinceOf(sinceText)), ClampLimit(limitParam, 20, 100))
    ensures FrontOf(table, out, SinceOf(sinceText), if limitParam < 1 then 20 else if limitParam > 100 then 100 else limitParam)
  {
    out := PollSince(table, SinceOf(sinceText), ClampLimit(limitParam, 20, 100));
  }

  /** out is the front of the table up to the limit or to the first row that is not newer than since. */
  ghost predicate FrontOf(table: seq<ID>, out: seq<ID>, since: ID, limit: int) {
    && |out| <= limit && |out| <= |table| && out == table[..|out|]
    && (forall i :: 0 <= i < |out| ==> IsNil(since) || Less(since, out[i]))
    && (|out| == limit || |out| == |table| || (!IsNil(since) && !Less(since, table[|out|])))
  }

  predicate IsNil(id: ID) {
    forall i :: 0 <= i < 16 ==> id[i] == 0
  }

  lemma NilIsZero(id: ID)
    ensures IsNil(id) <==> id == NIL
  {
  }

  /** A cursor that does not parse, or none, is the nil one. */
  lemma SinceIs(since: string)
    ensures match Parsed(since)
            case Ok(b) => SinceOf(since) == b
            case Err(_) => IsNil(SinceOf(since))
  {
    NilIsZero(SinceOf(since));
    UnhexLength(Clean(since));
  }

  method PollSince(table: seq<ID>, since: ID, limit: int) returns (out: seq<ID>)
    requires NewestFirst(table) && limit >= 1
    ensures out == Take(NewerOnes(table, since), limit)
    ensures FrontOf(table, out, since, limit)
  {
    NilIsZero(since);
    var all := Take(table, limit + 100);
    out := [];
    var i := 0;
    while i < |all|
      invariant 0 <= i <= |all| && i < limit
      invariant out == table[..i]
      invariant AllNewer(table, since, i)
    {
      AtOrBeforeIsNotNewer(all[i], since);
      if AtOrBefore(all[i], since) {
        StoppedEarly(table, since, limit, i);
        return;
      }
      out := out + [all[i]];
      i := i + 1;
      if |out| >= limit {
        Filled(table, since, limit);
        return;
      }
    }
    StoppedEarly(table, since, limit, i);
  }
}
