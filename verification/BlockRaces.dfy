/** Blocks against follows that run at the same time: the check for a block and the insert of a follow
    are two statements, and so are the block and each of the deletes that follow it. */
module BlockRaces {
  import opened Prelude
  import opened Blocks

  type Call = int

  /** What a call in progress does next. */
  datatype Phase =
    | FollowerGated(persona: int, actor: string, confirmed: bool)   // a Follow let through by the gate
    | FollowGated(persona: int, actor: string)
    | Listing(actor: string)                                        // blocked, personas not yet read
    | DropFollower(actor: string, left: seq<int>)                   // for the first persona left
    | FindFollow(actor: string, left: seq<int>)
    | DropFollow(actor: string, left: seq<int>, id: int)

  /** spoilt names the blocked actors for whom something has gone wrong since they were last not
      blocked; it is kept only to state theorems. */
  datatype State = State(
    personas: seq<int>,
    blocks: set<string>,
    followers: Links,
    follows: Links,
    calls: map<Call, Phase>,
    spoilt: set<string>)

  datatype Event =
    | AddPersona(p: int)
    | Gate(c: Call, next: Phase, readFails: bool)
    | Insert(c: Call, id: int)
    | Block(c: Call, actor: string)
    | Proceed(c: Call, fails: bool)             // the next statement of a purge
    | Unblock(actor: string)
    | RemoveFollowers(gone: set<int>)           // undo, reject, delete, and the removals for a domain
    | RemoveFollows(gone: set<int>)
    | Confirm(id: int)                          // approve or accept
    | Die(c: Call)

  predicate Gated(ph: Phase) {
    ph.FollowerGated? || ph.FollowGated?
  }

  ghost predicate Enabled(s: State, e: Event) {
    match e
    case AddPersona(p) => p !in s.personas
    case Gate(c, next, readFails) =>
      c !in s.calls && Gated(next) && (next.FollowGated? ==> next.actor != "") && (next.actor !in s.blocks || readFails)
    case Insert(c, _) => c in s.calls && Gated(s.calls[c])
    case Block(c, actor) => c !in s.calls && actor != "" && actor !in s.blocks
    case Proceed(c, _) => c in s.calls && !Gated(s.calls[c])
    case Unblock(_) => true
    case RemoveFollowers(_) => true
    case RemoveFollows(_) => true
    case Confirm(_) => true
    case Die(c) => c in s.calls
  }

  function GatedOn(s: State, actor: string): set<Call> {
    set c | c in s.calls && Gated(s.calls[c]) && s.calls[c].actor == actor
  }

  function Done(s: State, c: Call): State {
    s.(calls := s.calls - {c})
  }

  function InsertOf(s: State, c: Call, id: int): State
    requires c in s.calls && Gated(s.calls[c])
  {
    match s.calls[c]
    case FollowerGated(p, actor, confirmed) =>
      if Insertable(s.personas, s.followers, id, p, actor)
      then Done(s, c).(followers := s.followers[id := Link(p, actor, confirmed)]) else Done(s, c)
    case FollowGated(p, actor) =>
      if Insertable(s.personas, s.follows, id, p, actor)
      then Done(s, c).(follows := s.follows[id := Link(p, actor, false)]) else Done(s, c)
    case _ => s
  }

  /** One statement of a purge; a statement that fails is passed over. */
  ghost function ProceedOf(s: State, c: Call, fails: bool): State
    requires c in s.calls && !Gated(s.calls[c])
  {
    var ph := s.calls[c];
    var t := if fails then s.(spoilt := s.spoilt + {ph.actor}) else s;
    match ph
    case Listing(u) => t.(calls := s.calls[c := DropFollower(u, if fails then [] else s.personas)])
    case DropFollower(u, left) =>
      if left == [] then Done(t, c)
      else t.(followers := if fails then s.followers else s.followers - Between(s.followers, left[0], u),
              calls := s.calls[c := FindFollow(u, left)])
    case FindFollow(u, left) =>
      if left == [] then Done(t, c)
      else if i :| !fails && i in Between(s.follows, left[0], u) then t.(calls := s.calls[c := DropFollow(u, left[1..], i)])
      else t.(calls := s.calls[c := DropFollower(u, left[1..])])
    case DropFollow(u, left, i) =>
      t.(follows := if fails then s.follows else s.follows - {i}, calls := s.calls[c := DropFollower(u, left)])
    case _ => t
  }

  ghost function Apply(s: State, e: Event): State
    requires Enabled(s, e)
  {
    match e
    case AddPersona(p) => s.(personas := s.personas + [p])
    case Gate(c, next, _) =>
      s.(calls := s.calls[c := next], spoilt := if next.actor in s.blocks then s.spoilt + {next.actor} else s.spoilt)
    case Insert(c, id) => InsertOf(s, c, id)
    case Block(c, actor) =>
      s.(blocks := s.blocks + {actor}, calls := s.calls[c := Listing(actor)],
         spoilt := if GatedOn(s, actor) != {} then s.spoilt + {actor} else s.spoilt - {actor})
    case Proceed(c, fails) => ProceedOf(s, c, fails)
    case Unblock(actor) => s.(blocks := s.blocks - {actor})
    case RemoveFollowers(gone) => s.(followers := s.followers - gone)
    case RemoveFollows(gone) => s.(follows := s.follows - gone)
    case Confirm(id) =>
      s.(followers := if id in s.followers then s.followers[id := s.followers[id].(confirmed := true)] else s.followers,
         follows := if id in s.follows then s.follows[id := s.follows[id].(confirmed := true)] else s.follows)
    case Die(c) =>
      if Gated(s.calls[c]) then Done(s, c) else Done(s, c).(spoilt := s.spoilt + {s.calls[c].actor})
  }

  // ---------------------------------------------------------------- runs

  ghost predicate Step(s: State, e: Event, s': State) {
    Enabled(s, e) && s' == Apply(s, e)
  }

  ghost predicate Trace(ss: seq<State>, es: seq<Event>) {
    |ss| == |es| + 1 && forall i :: 0 <= i < |es| ==> Step(ss[i], es[i], ss[i + 1])
  }

  // ---------------------------------------------------------------- the invariant

  ghost predicate Schema(s: State) {
    && Unique(s.followers) && Unique(s.follows)
    && (forall i :: i in s.followers ==> s.followers[i].persona in s.personas)
    && (forall i :: i in s.follows ==> s.follows[i].persona in s.personas)
  }

  /** A purge that has still to delete the follower rows of a persona. */
  predicate WillDropFollower(ph: Phase, u: string, p: int) {
    !Gated(ph) && ph.actor == u &&
    match ph
    case Listing(_) => true
    case DropFollower(_, left) => p in left
    case FindFollow(_, left) => left != [] && p in left[1..]
    case DropFollow(_, left, _) => p in left
    case _ => false
  }

  /** A purge that has still to delete follow i of a persona. */
  predicate WillDropFollow(ph: Phase, u: string, p: int, i: int) {
    !Gated(ph) && ph.actor == u &&
    match ph
    case Listing(_) => true
    case DropFollower(_, left) => p in left
    case FindFollow(_, left) => p in left
    case DropFollow(_, left, id) => p in left || id == i
    case _ => false
  }

  ghost predicate FollowerDoomed(s: State, i: int)
    requires i in s.followers
  {
    exists c :: c in s.calls && WillDropFollower(s.calls[c], s.followers[i].actor, s.followers[i].persona)
  }

  ghost predicate FollowDoomed(s: State, i: int)
    requires i in s.follows
  {
    exists c :: c in s.calls && WillDropFollow(s.calls[c], s.follows[i].actor, s.follows[i].persona, i)
  }

  /** A block nothing has gone wrong with. */
  predicate Firm(s: State, u: string) {
    u in s.blocks && u !in s.spoilt
  }

  ghost predicate Inv(s: State) {
    && Schema(s)
    && (forall c :: c in s.calls && Gated(s.calls[c]) ==> !Firm(s, s.calls[c].actor))
    && (forall i :: i in s.followers && Firm(s, s.followers[i].actor) ==> FollowerDoomed(s, i))
    && (forall i :: i in s.follows && Firm(s, s.follows[i].actor) ==> FollowDoomed(s, i))
  }

  lemma SchemaInsert(s: State, c: Call, id: int)
    requires c in s.calls && Gated(s.calls[c]) && Schema(s)
    ensures Schema(InsertOf(s, c, id))
  {
    match s.calls[c]
    case FollowerGated(p, actor, ok) =>
      if Between(s.followers, p, actor) == {} { UniqueInsert(s.followers, id, Link(p, actor, ok)); }
    case FollowGated(p, actor) =>
      if Between(s.follows, p, actor) == {} { UniqueInsert(s.follows, id, Link(p, actor, false)); }
    case _ =>
  }

  lemma SchemaStep(s: State, e: Event, s': State)
    requires Step(s, e, s') && Schema(s)
    ensures Schema(s')
  {
    if e.Insert? { SchemaInsert(s, e.c, e.id); }
  }

  /** Only a block makes an actor firmly blocked. */
  lemma WasFirm(s: State, e: Event, s': State, u: string)
    requires Step(s, e, s') && Firm(s', u) && !(e.Block? && e.actor == u)
    ensures Firm(s, u)
  {
  }

  lemma GateIsNew(s: State, e: Event, s': State, c: Call)
    requires Step(s, e, s') && c in s'.calls && Gated(s'.calls[c]) && !e.Gate?
    ensures c in s.calls && s.calls[c] == s'.calls[c]
  {
  }

  lemma GateStep(s: State, e: Event, s': State, c: Call)
    requires Step(s, e, s') && Inv(s) && c in s'.calls && Gated(s'.calls[c])
    ensures !Firm(s', s'.calls[c].actor)
  {
    var u := s'.calls[c].actor;
    if e.Gate? {
      if e.c != c && Firm(s', u) { WasFirm(s, e, s', u); }
    } else {
      GateIsNew(s, e, s', c);
      if e.Block? && e.actor == u {
        assert c in GatedOn(s, u);
      } else if Firm(s', u) {
        WasFirm(s, e, s', u);
      }
    }
  }

  ghost predicate OldRows(was: Links, now: Links) {
    forall i :: i in now ==> i in was && now[i].(confirmed := was[i].confirmed) == was[i]
  }

  /** A follow under way is not of a firmly blocked actor, so what it inserts is none of his. */
  lemma InsertIsOthers(s: State, e: Event, s': State)
    requires Step(s, e, s') && Inv(s) && e.Insert?
    ensures forall i :: i in s'.followers && Firm(s', s'.followers[i].actor) ==> i in s.followers && s'.followers[i] == s.followers[i]
    ensures forall i :: i in s'.follows && Firm(s', s'.follows[i].actor) ==> i in s.follows && s'.follows[i] == s.follows[i]
  {
    assert !Firm(s, s.calls[e.c].actor);
  }

  lemma OthersMakeNoRows(s: State, e: Event, s': State)
    requires Step(s, e, s') && !e.Insert?
    ensures OldRows(s.followers, s'.followers) && OldRows(s.follows, s'.follows)
  {
  }

  /** Only inserts make rows, and they keep firmly blocked actors out. */
  lemma RowsAreOld(s: State, e: Event, s': State)
    requires Step(s, e, s') && Inv(s)
    ensures forall i :: i in s'.followers && Firm(s', s'.followers[i].actor) ==>
              i in s.followers && s'.followers[i].(confirmed := s.followers[i].confirmed) == s.followers[i]
    ensures forall i :: i in s'.follows && Firm(s', s'.follows[i].actor) ==>
              i in s.follows && s'.follows[i].(confirmed := s.follows[i].confirmed) == s.follows[i]
  {
    if e.Insert? { InsertIsOthers(s, e, s'); } else { OthersMakeNoRows(s, e, s'); }
  }

  /** The next statement of a purge deletes the row or leaves it to one of those that follow. */
  lemma ProceedFollower(s: State, e: Event, s': State, i: int)
    requires Step(s, e, s') && e.Proceed? && i in s.followers && i in s'.followers
    requires WillDropFollower(s.calls[e.c], s.followers[i].actor, s.followers[i].persona) && Schema(s)
    requires s.followers[i].actor !in s'.spoilt
    ensures e.c in s'.calls && WillDropFollower(s'.calls[e.c], s.followers[i].actor, s.followers[i].persona)
  {
    var ph, p := s.calls[e.c], s.followers[i].persona;
    assert !e.fails;
    if ph.DropFollower? {
      assert i in Between(s.followers, p, ph.actor);
      assert p != ph.left[0];
    }
  }

  lemma ProceedFollow(s: State, e: Event, s': State, i: int)
    requires Step(s, e, s') && e.Proceed? && i in s.follows && i in s'.follows
    requires WillDropFollow(s.calls[e.c], s.follows[i].actor, s.follows[i].persona, i) && Schema(s)
    requires s.follows[i].actor !in s'.spoilt
    ensures e.c in s'.calls && WillDropFollow(s'.calls[e.c], s.follows[i].actor, s.follows[i].persona, i)
  {
    var ph, p := s.calls[e.c], s.follows[i].persona;
    assert !e.fails;
    if ph.FindFollow? && p == ph.left[0] {
      assert i in Between(s.follows, p, ph.actor);
    }
  }

  /** A purge in progress goes on, unless it breaks off and spoils the block. */
  lemma PurgeGoesOn(s: State, e: Event, s': State, c: Call)
    requires Step(s, e, s') && c in s.calls && !Gated(s.calls[c]) && s.calls[c].actor !in s'.spoilt
    requires !(e.Proceed? && e.c == c)
    ensures c in s'.calls && s'.calls[c] == s.calls[c]
  {
  }

  /** A follower row of a firmly blocked actor is old, and its purge goes on. */
  lemma FollowerStep(s: State, e: Event, s': State, i: int)
    requires Step(s, e, s') && Inv(s) && i in s'.followers && Firm(s', s'.followers[i].actor)
    ensures FollowerDoomed(s', i)
  {
    var u, p := s'.followers[i].actor, s'.followers[i].persona;
    RowsAreOld(s, e, s');
    if e.Block? && e.actor == u {
      assert WillDropFollower(s'.calls[e.c], u, p);
    } else {
      WasFirm(s, e, s', u);
      assert FollowerDoomed(s, i);
      var c :| c in s.calls && WillDropFollower(s.calls[c], u, p);
      if e.Proceed? && e.c == c { ProceedFollower(s, e, s', i); } else { PurgeGoesOn(s, e, s', c); }
    }
  }

  lemma FollowStep(s: State, e: Event, s': State, i: int)
    requires Step(s, e, s') && Inv(s) && i in s'.follows && Firm(s', s'.follows[i].actor)
    ensures FollowDoomed(s', i)
  {
    var u, p := s'.follows[i].actor, s'.follows[i].persona;
    RowsAreOld(s, e, s');
    if e.Block? && e.actor == u {
      assert WillDropFollow(s'.calls[e.c], u, p, i);
    } else {
      WasFirm(s, e, s', u);
      assert FollowDoomed(s, i);
      var c :| c in s.calls && WillDropFollow(s.calls[c], u, p, i);
      if e.Proceed? && e.c == c { ProceedFollow(s, e, s', i); } else { PurgeGoesOn(s, e, s', c); }
    }
  }

  lemma InvStep(s: State, e: Event, s': State)
    requires Step(s, e, s') && Inv(s)
    ensures Inv(s')
  {
    SchemaStep(s, e, s');
    forall c | c in s'.calls && Gated(s'.calls[c]) ensures !Firm(s', s'.calls[c].actor) { GateStep(s, e, s', c); }
    forall i | i in s'.followers && Firm(s', s'.followers[i].actor) ensures FollowerDoomed(s', i) { FollowerStep(s, e, s', i); }
    forall i | i in s'.follows && Firm(s', s'.follows[i].actor) ensures FollowDoomed(s', i) { FollowStep(s, e, s', i); }
  }

  lemma {:induction false} InvHolds(ss: seq<State>, es: seq<Event>, i: nat)
    requires Trace(ss, es) && Inv(ss[0]) && i < |ss|
    ensures Inv(ss[i])
  {
    if i > 0 {
      InvHolds(ss, es, i - 1);
      assert Step(ss[i - 1], es[i - 1], ss[i]);
      InvStep(ss[i - 1], es[i - 1], ss[i]);
    }
  }

  // ---------------------------------------------------------------- the theorem

  ghost predicate Start(s: State) {
    Schema(s) && Apart(s.followers, s.blocks) && Apart(s.follows, s.blocks) && s.calls == map[] && s.spoilt == {}
  }

  ghost predicate Purging(s: State, u: string) {
    exists c :: c in s.calls && !Gated(s.calls[c]) && s.calls[c].actor == u
  }

  ghost predicate Unrelated(s: State, u: string) {
    && (forall i :: i in s.followers ==> s.followers[i].actor != u)
    && (forall i :: i in s.follows ==> s.follows[i].actor != u)
  }

  /** However calls overlap: once its purges are over, an actor whose block nothing has gone wrong with
      has no relation with any persona, in either direction. */
  lemma BlockSettles(ss: seq<State>, es: seq<Event>, i: nat, u: string)
    requires Trace(ss, es) && Start(ss[0]) && i < |ss|
    requires Firm(ss[i], u) && !Purging(ss[i], u)
    ensures Unrelated(ss[i], u)
  {
    assert Inv(ss[0]);
    InvHolds(ss, es, i);
    var s := ss[i];
    forall j | j in s.followers ensures s.followers[j].actor != u {
      assert Firm(s, s.followers[j].actor) ==> FollowerDoomed(s, j);
    }
    forall j | j in s.follows ensures s.follows[j].actor != u {
      assert Firm(s, s.follows[j].actor) ==> FollowDoomed(s, j);
    }
  }

  /** Nothing fails, and nobody is blocked while a follow of his stands between its check and its insert. */
  ghost predicate Orderly(s: State, e: Event) {
    match e
    case Gate(_, next, _) => next.actor !in s.blocks
    case Block(_, actor) => GatedOn(s, actor) == {}
    case Proceed(_, fails) => !fails
    case Die(c) => c in s.calls ==> Gated(s.calls[c])
    case _ => true
  }

  lemma {:induction false} OrderlyUnspoilt(ss: seq<State>, es: seq<Event>, i: nat)
    requires Trace(ss, es) && ss[0].spoilt == {} && i < |ss|
    requires forall j :: 0 <= j < |es| ==> Orderly(ss[j], es[j])
    ensures ss[i].spoilt == {}
  {
    if i > 0 {
      OrderlyUnspoilt(ss, es, i - 1);
      assert Step(ss[i - 1], es[i - 1], ss[i]) && Orderly(ss[i - 1], es[i - 1]);
    }
  }

  /** In an orderly run, whoever is blocked has no relations as soon as the purge is over. */
  lemma BlockedMeansUnrelated(ss: seq<State>, es: seq<Event>, i: nat, u: string)
    requires Trace(ss, es) && Start(ss[0]) && i < |ss|
    requires forall j :: 0 <= j < |es| ==> Orderly(ss[j], es[j])
    requires u in ss[i].blocks && !Purging(ss[i], u)
    ensures Unrelated(ss[i], u)
  {
    OrderlyUnspoilt(ss, es, i);
    BlockSettles(ss, es, i, u);
  }

  // ---------------------------------------------------------------- the condition is needed

  const GATED: Phase := FollowerGated(1, "u", true)

  /** A follow passes the gate, its actor is blocked and purged, and then the follow is inserted. */
  function RaceRun(i: nat): State
    requires i <= 7
  {
    var blocked := State([1], {"u"}, map[], map[], map[1 := GATED, 2 := Listing("u")], {"u"});
    match i
    case 0 => State([1], {}, map[], map[], map[], {})
    case 1 => State([1], {}, map[], map[], map[1 := GATED], {})
    case 2 => blocked
    case 3 => blocked.(calls := map[1 := GATED, 2 := DropFollower("u", [1])])
    case 4 => blocked.(calls := map[1 := GATED, 2 := FindFollow("u", [1])])
    case 5 => blocked.(calls := map[1 := GATED, 2 := DropFollower("u", [])])
    case 6 => blocked.(calls := map[1 := GATED])
    case 7 => blocked.(calls := map[], followers := map[9 := Link(1, "u", true)])
  }

  const RACE_EVENTS: seq<Event> :=
    [Gate(1, GATED, false), Block(2, "u"), Proceed(2, false), Proceed(2, false), Proceed(2, false), Proceed(2, false), Insert(1, 9)]

  lemma RaceBlocks()
    ensures Step(RaceRun(0), RACE_EVENTS[0], RaceRun(1))
    ensures Step(RaceRun(1), RACE_EVENTS[1], RaceRun(2))
  {
    assert 1 in GatedOn(RaceRun(1), "u");
    assert Apply(RaceRun(1), RACE_EVENTS[1]).calls == RaceRun(2).calls;
  }

  lemma RacePurges()
    ensures Step(RaceRun(2), RACE_EVENTS[2], RaceRun(3))
    ensures Step(RaceRun(3), RACE_EVENTS[3], RaceRun(4))
  {
    assert Apply(RaceRun(2), RACE_EVENTS[2]).calls == RaceRun(3).calls;
    assert Apply(RaceRun(3), RACE_EVENTS[3]).calls == RaceRun(4).calls;
    assert Apply(RaceRun(3), RACE_EVENTS[3]).followers == map[];
  }

  lemma RaceEnds()
    ensures Step(RaceRun(4), RACE_EVENTS[4], RaceRun(5))
    ensures Step(RaceRun(5), RACE_EVENTS[5], RaceRun(6))
    ensures Step(RaceRun(6), RACE_EVENTS[6], RaceRun(7))
  {
    assert Between(RaceRun(4).follows, 1, "u") == {};
    assert RaceRun(4).calls[2].left[1..] == [];
    assert Between(RaceRun(6).followers, 1, "u") == {};
    assert Apply(RaceRun(4), RACE_EVENTS[4]).calls == RaceRun(5).calls;
    assert Apply(RaceRun(5), RACE_EVENTS[5]).calls == RaceRun(6).calls;
    assert Apply(RaceRun(6), RACE_EVENTS[6]).calls == RaceRun(7).calls;
  }

  /** Although nothing fails, a follow overtaken by the block of its actor leaves the blocked actor as
      a follower for good. */
  lemma OvertakenFollowStays() returns (ss: seq<State>)
    ensures Trace(ss, RACE_EVENTS) && Start(ss[0])
    ensures ss[7].calls == map[] && "u" in ss[7].blocks && !Unrelated(ss[7], "u")
  {
    RaceBlocks();
    RacePurges();
    RaceEnds();
    ss := seq(8, i requires 0 <= i < 8 => RaceRun(i));
    forall i | 0 <= i < 7 ensures Step(ss[i], RACE_EVENTS[i], ss[i + 1]) {
      assert ss[i] == RaceRun(i) && ss[i + 1] == RaceRun(i + 1);
    }
    assert ss[7].followers[9].actor == "u";
  }
}
