/** Counter updates of concurrent calls: their statements interleave, and a refresh may be lost. Once
    no call is in progress, every counter is right that has not lost its refresh. */
module CounterRaces {
  import opened Prelude
  import opened Counters

  type Call = int

  /** What a call in progress has still to do. */
  datatype Phase =
    | Refreshing(kind: Kind, persona: int)
    | RefreshingAll(kind: Kind)
    | Looked(kind: Kind, id: int, found: Option<int>)   // a delete by id that has looked up the persona
    | Approving(id: int)                                // approved, persona not yet looked up

  /** owed names the counters nobody will refresh: it is kept only to state theorems. */
  datatype State = State(t: Tables, calls: map<Call, Phase>, owed: set<(Kind, int)>)

  datatype Event =
    | AddPersona(p: int)
    | Create(c: Call, id: int, row: Row)
    | CreateBulk(id: int, row: Row)
    | Look(c: Call, kind: Kind, id: int, fails: bool)   // an error of this query is passed over
    | Delete(c: Call, refused: bool)
    | DeleteMatching(c: Call, kind: Kind, p: int, gone: set<int>)
    | DeleteByDomain(c: Call, kind: Kind, gone: set<int>)
    | Approve(c: Call, id: int)
    | LookApproved(c: Call)
    | Refresh(c: Call)
    | Lose(c: Call)                                     // a refresh, or the lookup after an approval, fails or dies
    | RefreshAllCounters

  ghost predicate Enabled(s: State, e: Event)
    requires WellFormed(s.t)
  {
    match e
    case AddPersona(p) => p !in s.t.personas
    case Create(c, id, row) => c !in s.calls && Insertable(s.t, id, Stored(row))
    case CreateBulk(id, row) => Insertable(s.t, id, Stored(row))
    case Look(c, _, _, _) => c !in s.calls
    case Delete(c, _) => c in s.calls && s.calls[c].Looked?
    case DeleteMatching(c, k, p, gone) =>
      c !in s.calls && forall i :: i in s.t.rows[k] && s.t.rows[k][i].persona != p ==> i !in gone
    case DeleteByDomain(c, _, _) => c !in s.calls
    case Approve(c, _) => c !in s.calls
    case LookApproved(c) => c in s.calls && s.calls[c].Approving?
    case Refresh(c) => c in s.calls && (s.calls[c].Refreshing? || s.calls[c].RefreshingAll?)
    case Lose(c) => c in s.calls
    case RefreshAllCounters => true
  }

  /** The counters a phase will still refresh. */
  predicate Owes(t: Tables, phase: Phase, k: Kind, p: int)
    requires k in t.rows
  {
    match phase
    case Refreshing(j, q) => j == k && q == p
    case RefreshingAll(j) => j == k
    case Looked(_, _, _) => false
    case Approving(i) => k == Followers && i in Counted(t, k, p)
  }

  ghost function OwedBy(t: Tables, phase: Phase): set<(Kind, int)>
    requires WellFormed(t)
  {
    set k: Kind, p | p in t.personas && Owes(t, phase, k, p) :: (k, p)
  }

  function AfterWrite(s: State, c: Call, t: Tables, next: Option<Phase>): State {
    s.(t := t, calls := if next.Some? then s.calls[c := next.value] else s.calls - {c})
  }

  ghost function Apply(s: State, e: Event): State
    requires WellFormed(s.t) && Enabled(s, e)
  {
    match e
    case AddPersona(p) => s.(t := s.t.(personas := s.t.personas[p := Persona(0, 0, 0)]))
    case Create(c, id, given) =>
      var row := Stored(given);
      AfterWrite(s, c, Inserted(s.t, id, row),
                 if row.PostRow? && row.origin != "local" then None else Some(Refreshing(KindOf(row), row.persona)))
    case CreateBulk(id, given) =>
      var row := Stored(given);
      s.(t := Inserted(s.t, id, row), owed := s.owed + if Counts(row) then {(KindOf(row), row.persona)} else {})
    case Look(c, k, id, fails) =>
      AfterWrite(s, c, s.t, Some(Looked(k, id, if fails then None else PersonaBehind(s.t, k, id))))
    case Delete(c, refused) =>
      var l := s.calls[c];
      if refused then AfterWrite(s, c, s.t, None)
      else
        AfterWrite(s, c, Without(s.t, l.kind, {l.id}), if l.found.Some? then Some(Refreshing(l.kind, l.found.value)) else None)
        .(owed := s.owed + Overtaken(s.t, l))
    case DeleteMatching(c, k, p, gone) => AfterWrite(s, c, Without(s.t, k, gone), Some(Refreshing(k, p)))
    case DeleteByDomain(c, k, gone) => AfterWrite(s, c, Without(s.t, k, gone), Some(RefreshingAll(k)))
    case Approve(c, i) => AfterWrite(s, c, Approved(s.t, i), Some(Approving(i)))
    case LookApproved(c) =>
      (match PersonaBehind(s.t, Followers, s.calls[c].id)
       case None => AfterWrite(s, c, s.t, None)
       case Some(p) => AfterWrite(s, c, s.t, Some(Refreshing(Followers, p))))
    case Refresh(c) =>
      (match s.calls[c]
       case Refreshing(k, p) => AfterWrite(s, c, Refreshed(s.t, k, p), None).(owed := s.owed - {(k, p)})
       case RefreshingAll(k) =>
         AfterWrite(s, c, RefreshedAll(s.t, k), None).(owed := set o | o in s.owed && o.0 != k))
    case Lose(c) => AfterWrite(s, c, s.t, None).(owed := s.owed + OwedBy(s.t, s.calls[c]))
    case RefreshAllCounters => s.(t := Recounted(s.t), owed := {})
  }

  /** The counter of a row the deleting call did not find when it looked: because it was inserted only
      afterwards, or because the query failed. */
  function Overtaken(t: Tables, l: Phase): set<(Kind, int)>
    requires l.Looked? && l.kind in t.rows
  {
    if l.id in t.rows[l.kind] && Counts(t.rows[l.kind][l.id]) && l.found != Some(t.rows[l.kind][l.id].persona)
    then {(l.kind, t.rows[l.kind][l.id].persona)} else {}
  }

  // ---------------------------------------------------------------- runs

  ghost predicate Step(s: State, e: Event, s': State) {
    WellFormed(s.t) && Enabled(s, e) && s' == Apply(s, e)
  }

  ghost predicate Trace(ss: seq<State>, es: seq<Event>) {
    |ss| == |es| + 1 && forall i :: 0 <= i < |es| ==> Step(ss[i], es[i], ss[i + 1])
  }

  ghost predicate Obliged(s: State, k: Kind, p: int)
    requires WellFormed(s.t)
  {
    exists c :: c in s.calls && Owes(s.t, s.calls[c], k, p)
  }

  /** A counter is right, or a call in progress will see to it, or it is owed. */
  ghost predicate Covered(s: State, k: Kind, p: int)
    requires WellFormed(s.t) && p in s.t.personas
  {
    Right(s.t, k, p) || Obliged(s, k, p) || (k, p) in s.owed
  }

  ghost predicate Inv(s: State) {
    WellFormed(s.t) && forall k: Kind, p :: p in s.t.personas ==> Covered(s, k, p)
  }

  /** Calls other than c go on as they were, and what they owe they still owe unless it is the counter
      of a row that has gone. */
  lemma CoverageKept(s: State, s': State, c: Call, k: Kind, p: int)
    requires WellFormed(s.t) && WellFormed(s'.t) && p in s.t.personas && p in s'.t.personas && Covered(s, k, p)
    requires forall d :: d in s.calls && d != c ==> d in s'.calls && s'.calls[d] == s.calls[d]
    requires c in s.calls && Owes(s.t, s.calls[c], k, p) ==> Covered(s', k, p)
    requires Cached(s'.t, k, p) == Cached(s.t, k, p) && Counted(s'.t, k, p) == Counted(s.t, k, p)
    requires (k, p) in s.owed ==> (k, p) in s'.owed
    ensures Covered(s', k, p)
  {
    if Obliged(s, k, p) {
      var d :| d in s.calls && Owes(s.t, s.calls[d], k, p);
      if d != c { assert Owes(s'.t, s'.calls[d], k, p); }
    }
  }

  ghost predicate Writes(e: Event) {
    e.Create? || e.CreateBulk? || e.Delete? || e.DeleteMatching? || e.DeleteByDomain? || e.Approve?
  }

  lemma KeptByAll(s: State, s': State, k: Kind, p: int)
    requires WellFormed(s.t) && WellFormed(s'.t) && p in s.t.personas && p in s'.t.personas && Covered(s, k, p)
    requires s'.calls == s.calls && s.owed <= s'.owed
    requires Cached(s'.t, k, p) == Cached(s.t, k, p) && Counted(s'.t, k, p) == Counted(s.t, k, p)
    ensures Covered(s', k, p)
  {
    if Obliged(s, k, p) {
      var d :| d in s.calls && Owes(s.t, s.calls[d], k, p);
      assert Owes(s'.t, s'.calls[d], k, p);
    }
  }

  lemma CreateCovers(s: State, e: Event, s': State, k: Kind, p: int)
    requires e.Create?
    requires Step(s, e, s') && p in s.t.personas && Covered(s, k, p)
    ensures WellFormed(s'.t) && p in s'.t.personas && Covered(s', k, p)
  {
    InsertedCounts(s.t, e.id, Stored(e.row), k, p);
    if Counted(s'.t, k, p) == Counted(s.t, k, p) {
      CoverageKept(s, s', e.c, k, p);
    } else {
      assert Owes(s'.t, s'.calls[e.c], k, p);
    }
  }

  lemma CreateBulkCovers(s: State, e: Event, s': State, k: Kind, p: int)
    requires e.CreateBulk?
    requires Step(s, e, s') && p in s.t.personas && Covered(s, k, p)
    ensures WellFormed(s'.t) && p in s'.t.personas && Covered(s', k, p)
  {
    InsertedCounts(s.t, e.id, Stored(e.row), k, p);
    if Counted(s'.t, k, p) == Counted(s.t, k, p) { KeptByAll(s, s', k, p); }
  }

  /** A delete of a counted row is counted again by its own call, or the counter is owed. */
  lemma DeleteMakesUp(s: State, e: Event, s': State, k: Kind, p: int)
    requires Step(s, e, s') && e.Delete? && !e.refused && p in s.t.personas
    requires s.calls[e.c].kind == k && s.calls[e.c].id in Counted(s.t, k, p)
    ensures WellFormed(s'.t) && p in s'.t.personas && (Obliged(s', k, p) || (k, p) in s'.owed)
  {
    var l := s.calls[e.c];
    WithoutCounts(s.t, k, {l.id}, k, p);
    if l.found == Some(p) { assert Owes(s'.t, s'.calls[e.c], k, p); }
  }

  lemma DeleteSpares(s: State, e: Event, s': State, k: Kind, p: int)
    requires Step(s, e, s') && e.Delete? && p in s.t.personas
    requires e.refused || s.calls[e.c].kind != k || s.calls[e.c].id !in Counted(s.t, k, p)
    ensures WellFormed(s'.t) && p in s'.t.personas && Counted(s'.t, k, p) == Counted(s.t, k, p)
  {
    var l := s.calls[e.c];
    WithoutCounts(s.t, l.kind, {l.id}, k, p);
  }

  lemma DeleteCovers(s: State, e: Event, s': State, k: Kind, p: int)
    requires e.Delete?
    requires Step(s, e, s') && p in s.t.personas && Covered(s, k, p)
    ensures WellFormed(s'.t) && p in s'.t.personas && Covered(s', k, p)
  {
    var l := s.calls[e.c];
    if !e.refused && l.kind == k && l.id in Counted(s.t, k, p) {
      DeleteMakesUp(s, e, s', k, p);
    } else {
      DeleteSpares(s, e, s', k, p);
      CoverageKept(s, s', e.c, k, p);
    }
  }

  lemma DeleteManyCovers(s: State, e: Event, s': State, k: Kind, p: int)
    requires e.DeleteMatching? || e.DeleteByDomain?
    requires Step(s, e, s') && p in s.t.personas && Covered(s, k, p)
    ensures WellFormed(s'.t) && p in s'.t.personas && Covered(s', k, p)
  {
    WithoutCounts(s.t, e.kind, e.gone, k, p);
    if Owes(s'.t, s'.calls[e.c], k, p) {
      assert Obliged(s', k, p);
    } else {
      if e.kind == k { OthersStay(s.t, k, e.gone, e.p, p); }
      CoverageKept(s, s', e.c, k, p);
    }
  }

  lemma ApproveCovers(s: State, e: Event, s': State, k: Kind, p: int)
    requires e.Approve?
    requires Step(s, e, s') && p in s.t.personas && Covered(s, k, p)
    ensures WellFormed(s'.t) && p in s'.t.personas && Covered(s', k, p)
  {
    ApprovedCounts(s.t, e.id, k, p);
    if Counted(s'.t, k, p) == Counted(s.t, k, p) {
      CoverageKept(s, s', e.c, k, p);
    } else {
      assert Owes(s'.t, s'.calls[e.c], k, p);
    }
  }

  /** A statement that changes rows leaves every count as it was but those it makes up for. */
  lemma WriteCovers(s: State, e: Event, s': State, k: Kind, p: int)
    requires Writes(e)
    requires Step(s, e, s') && p in s.t.personas && Covered(s, k, p)
    ensures WellFormed(s'.t) && p in s'.t.personas && Covered(s', k, p)
  {
    match e
    case Create(_, _, _) => CreateCovers(s, e, s', k, p);
    case CreateBulk(_, _) => CreateBulkCovers(s, e, s', k, p);
    case Delete(_, _) => DeleteCovers(s, e, s', k, p);
    case Approve(_, _) => ApproveCovers(s, e, s', k, p);
    case _ => DeleteManyCovers(s, e, s', k, p);
  }

  /** Reads and refreshes. */
  lemma OtherCovers(s: State, e: Event, s': State, k: Kind, p: int)
    requires Step(s, e, s') && !Writes(e) && !e.AddPersona? && !e.RefreshAllCounters?
    requires p in s.t.personas && Covered(s, k, p)
    ensures WellFormed(s'.t) && p in s'.t.personas && Covered(s', k, p)
  {
    match e
    case Look(c, _, _, _) => CoverageKept(s, s', c, k, p);
    case LookApproved(c) =>
      if Owes(s.t, s.calls[c], k, p) { assert Owes(s'.t, s'.calls[c], k, p); }
      CoverageKept(s, s', c, k, p);
    case Lose(c) => CoverageKept(s, s', c, k, p);
    case Refresh(c) =>
      match s.calls[c] {
        case Refreshing(j, q) =>
          RefreshedCounts(s.t, j, q, k, p);
          if (j, q) != (k, p) { CoverageKept(s, s', c, k, p); }
        case RefreshingAll(j) =>
          RefreshedAllCounts(s.t, j, k, p);
          if j != k { CoverageKept(s, s', c, k, p); }
      }
  }

  /** The two steps that set counters from nothing. */
  lemma ResetCovers(s: State, e: Event, s': State, k: Kind, p: int)
    requires Step(s, e, s') && (e.AddPersona? || e.RefreshAllCounters?) && Inv(s) && p in s'.t.personas
    ensures WellFormed(s'.t) && Covered(s', k, p)
  {
    assert Counted(s'.t, k, p) == Counted(s.t, k, p);
    if e.AddPersona? {
      if p == e.p {
        assert forall i :: i in s.t.rows[k] ==> s.t.rows[k][i].persona != p;
        assert Counted(s.t, k, p) == {};
      } else {
        KeptByAll(s, s', k, p);
      }
    }
  }

  lemma InvStep(s: State, e: Event, s': State)
    requires Step(s, e, s') && Inv(s)
    ensures Inv(s')
  {
    StaysWellFormed(s, e, s');
    forall k: Kind, p | p in s'.t.personas ensures Covered(s', k, p) {
      if e.AddPersona? || e.RefreshAllCounters? {
        ResetCovers(s, e, s', k, p);
      } else {
        assert Covered(s, k, p);
        if Writes(e) { WriteCovers(s, e, s', k, p); } else { OtherCovers(s, e, s', k, p); }
      }
    }
  }

  lemma StaysWellFormed(s: State, e: Event, s': State)
    requires Step(s, e, s')
    ensures WellFormed(s'.t)
  {
    match e
    case Create(_, id, row) => InsertedCounts(s.t, id, Stored(row), Posts, 0);
    case CreateBulk(id, row) => InsertedCounts(s.t, id, Stored(row), Posts, 0);
    case Approve(_, i) => ApprovedCounts(s.t, i, Posts, 0);
    case _ =>
  }

  lemma {:induction false} InvHolds(ss: seq<State>, es: seq<Event>, i: nat)
    requires Trace(ss, es) && Inv(ss[0]) && i < |ss|
    ensures Inv(ss[i])
  {
    if i > 0 {
      InvHolds(ss, es, i - 1);
      assert Step(ss[i - 1], es[i - 1], ss[i]);
      InvStep(ss[i - 1], es[i - 1], ss[i]);
    }
  }

  /** Whatever calls ran at the same time: when none is in progress, every counter equals the number
      of rows it stands for, except those that are owed a refresh. */
  lemma CountersSettle(ss: seq<State>, es: seq<Event>, i: nat)
    requires Trace(ss, es) && Inv(ss[0]) && i < |ss| && ss[i].calls == map[]
    ensures WellFormed(ss[i].t)
    ensures forall k: Kind, p :: p in ss[i].t.personas && (k, p) !in ss[i].owed ==> Right(ss[i].t, k, p)
  {
    InvHolds(ss, es, i);
    forall k: Kind, p | p in ss[i].t.personas && (k, p) !in ss[i].owed ensures Right(ss[i].t, k, p) {
      assert Covered(ss[i], k, p);
    }
  }

  // ---------------------------------------------------------------- when nothing is owed

  /** No bulk insert, no lost refresh, no failed lookup, and no id that is inserted while a call is
      about to delete it. */
  ghost predicate Regular(s: State, e: Event) {
    && !e.CreateBulk? && !e.Lose? && !(e.Look? && e.fails)
    && (e.Create? ==> forall c :: c in s.calls && s.calls[c].Looked? ==> s.calls[c].id != e.id)
  }

  /** A call about to delete a row that is there knows for whom to count again. */
  ghost predicate LookedRight(s: State, l: Phase)
    requires WellFormed(s.t)
  {
    l.Looked? && l.id in s.t.rows[l.kind] ==> l.found == PersonaBehind(s.t, l.kind, l.id)
  }

  ghost predicate NothingOwed(s: State) {
    WellFormed(s.t) && s.owed == {} && forall c :: c in s.calls ==> LookedRight(s, s.calls[c])
  }

  lemma LookedRightStep(s: State, e: Event, s': State, c: Call)
    requires Step(s, e, s') && Regular(s, e) && NothingOwed(s) && WellFormed(s'.t) && c in s'.calls
    ensures LookedRight(s', s'.calls[c])
  {
    if c in s.calls { assert LookedRight(s, s.calls[c]); }
  }

  lemma RegularStep(s: State, e: Event, s': State)
    requires Step(s, e, s') && Regular(s, e) && NothingOwed(s)
    ensures NothingOwed(s')
  {
    StaysWellFormed(s, e, s');
    if e.Delete? { assert LookedRight(s, s.calls[e.c]); }
    forall c | c in s'.calls ensures LookedRight(s', s'.calls[c]) { LookedRightStep(s, e, s', c); }
  }

  lemma {:induction false} RegularHolds(ss: seq<State>, es: seq<Event>, i: nat)
    requires Trace(ss, es) && NothingOwed(ss[0]) && i < |ss|
    requires forall j :: 0 <= j < |es| ==> Regular(ss[j], es[j])
    ensures NothingOwed(ss[i])
  {
    if i > 0 {
      RegularHolds(ss, es, i - 1);
      assert Step(ss[i - 1], es[i - 1], ss[i]) && Regular(ss[i - 1], es[i - 1]);
      RegularStep(ss[i - 1], es[i - 1], ss[i]);
    }
  }

  /** Under regular use the counters are all right whenever no call is in progress, however the calls
      have overlapped. */
  lemma RegularCountersAgree(ss: seq<State>, es: seq<Event>, i: nat)
    requires Trace(ss, es) && i < |ss| && ss[i].calls == map[]
    requires WellFormed(ss[0].t) && Consistent(ss[0].t) && ss[0].calls == map[] && ss[0].owed == {}
    requires forall j :: 0 <= j < |es| ==> Regular(ss[j], es[j])
    ensures WellFormed(ss[i].t) && Consistent(ss[i].t)
  {
    assert Inv(ss[0]);
    CountersSettle(ss, es, i);
    RegularHolds(ss, es, i);
  }

  /** RefreshAllCounters puts every counter right, whatever has gone before. */
  lemma RefreshAllRepairs(s: State, s': State)
    requires Step(s, RefreshAllCounters, s')
    ensures WellFormed(s'.t) && Consistent(s'.t) && s'.owed == {}
  {
    forall k: Kind, p | p in s'.t.personas ensures Right(s'.t, k, p) {
      assert Counted(s'.t, k, p) == Counted(s.t, k, p);
    }
  }

  // ---------------------------------------------------------------- the condition on ids is needed

  /** Call 1 looks for follow 7, finds nothing, and deletes it after call 2 has inserted and counted it. */
  function LateRun(i: nat): State
    requires i <= 4
  {
    var row := FollowRow(1, "u", false);
    var empty := Tables(map[1 := Persona(0, 0, 0)], map[Followers := map[], Following := map[], Posts := map[]]);
    var full := empty.(rows := empty.rows[Following := map[7 := row]]);
    match i
    case 0 => State(empty, map[], {})
    case 1 => State(empty, map[1 := Looked(Following, 7, None)], {})
    case 2 => State(full, map[1 := Looked(Following, 7, None), 2 := Refreshing(Following, 1)], {})
    case 3 => State(full.(personas := map[1 := Persona(0, 1, 0)]), map[1 := Looked(Following, 7, None)], {})
    case 4 => State(empty.(personas := map[1 := Persona(0, 1, 0)]), map[], {(Following, 1)})
  }

  const LATE_EVENTS: seq<Event> :=
    [Look(1, Following, 7, false), Create(2, 7, FollowRow(1, "u", false)), Refresh(2), Delete(1, false)]

  lemma LateRunForms(i: nat)
    requires i <= 4
    ensures WellFormed(LateRun(i).t)
  {
    forall k: Kind ensures k in LateRun(i).t.rows { match k case Followers => case Following => case Posts => }
  }

  lemma LateRunCreates()
    ensures Step(LateRun(0), LATE_EVENTS[0], LateRun(1))
    ensures Step(LateRun(1), LATE_EVENTS[1], LateRun(2))
  {
    LateRunForms(0);
    LateRunForms(1);
    assert Apply(LateRun(1), LATE_EVENTS[1]).calls == LateRun(2).calls;
  }

  lemma LateRunRefreshes()
    ensures Step(LateRun(2), LATE_EVENTS[2], LateRun(3))
  {
    LateRunForms(2);
    assert Counted(LateRun(2).t, Following, 1) == {7};
    assert Apply(LateRun(2), LATE_EVENTS[2]).calls == LateRun(3).calls;
  }

  lemma LateRunDeletes()
    ensures Step(LateRun(3), LATE_EVENTS[3], LateRun(4))
  {
    LateRunForms(3);
    assert Apply(LateRun(3), LATE_EVENTS[3]).t.rows == LateRun(4).t.rows;
    assert Apply(LateRun(3), LATE_EVENTS[3]).calls == LateRun(4).calls;
  }

  lemma LateRunEnds()
    ensures WellFormed(LateRun(0).t) && Consistent(LateRun(0).t)
    ensures WellFormed(LateRun(4).t) && !Consistent(LateRun(4).t)
  {
    LateRunForms(0);
    LateRunForms(4);
    assert Counted(LateRun(4).t, Following, 1) == {};
    assert !Right(LateRun(4).t, Following, 1);
    forall k: Kind, p | p in LateRun(0).t.personas ensures Right(LateRun(0).t, k, p) {
      assert Counted(LateRun(0).t, k, p) == {};
    }
  }

  /** Without bulk inserts and without a lost refresh a counter can still end up wrong: a delete that
      was overtaken by the insert of its row counts for nobody. */
  lemma OvertakenDeleteMiscounts() returns (ss: seq<State>)
    ensures Trace(ss, LATE_EVENTS) && WellFormed(ss[0].t) && Consistent(ss[0].t) && ss[0].calls == map[] && ss[0].owed == {}
    ensures forall e :: e in LATE_EVENTS ==> !e.CreateBulk? && !e.Lose? && !(e.Look? && e.fails)
    ensures ss[4].calls == map[] && WellFormed(ss[4].t) && !Consistent(ss[4].t)
  {
    LateRunCreates();
    LateRunRefreshes();
    LateRunDeletes();
    ss := seq(5, i requires 0 <= i < 5 => LateRun(i));
    LateRunEnds();
  }
}
