/** How often and how fast one job is tried: the attempt bound and the spacing of retries. */
module Attempts {
  import opened Prelude
  import opened JobTable
  import opened Lease

  // ---------------------------------------------------------------- attempt bound

  predicate Waiting(j: Job) {
    j.status.Pending? || j.status.Failed?
  }

  /** A row and its story agree on the tries made, and a row in line has a try left. */
  ghost predicate Tallied(j: Job, st: Story) {
    && j.attempts == st.claims && (Waiting(j) ==> j.attempts <= MAX_ATTEMPTS - 1 + st.grace)
    && (st.grace > 0 ==> j.attempts >= MAX_ATTEMPTS)
  }

  ghost predicate Bounded(st: Story) {
    st.claims <= MAX_ATTEMPTS + st.grace
  }

  /** A sweep whose first statement went through has no stale row before it that is out of attempts. */
  ghost predicate Swept(j: Job, sw: Sweep) {
    sw.buried && Stale(j, Cutoff(sw.at)) ==> j.attempts < MAX_ATTEMPTS
  }

  ghost predicate SweptAll(s: State) {
    forall w, id :: w in s.sweeps && id in s.rows ==> Swept(s.rows[id], s.sweeps[w])
  }

  ghost predicate AttemptInv(s: State) {
    && s.rows.Keys <= s.story.Keys
    && (forall id :: id in s.rows ==> Tallied(s.rows[id], s.story[id]))
    && (forall id :: id in s.story ==> Bounded(s.story[id]))
  }

  lemma TallySettle(s: State, e: Event, s': State, id: Id)
    requires Step(s, e, s') && e.Settle? && LeaseInv(s) && AttemptInv(s) && id in s'.rows
    ensures id in s'.story && Tallied(s'.rows[id], s'.story[id])
  {
    assert Owned(s, s.holds[e.w]);
    assert Tallied(s.rows[id], s.story[id]);
  }

  lemma TallyStep(s: State, e: Event, s': State, id: Id)
    requires Step(s, e, s') && LeaseInv(s) && AttemptInv(s) && id in s'.rows
    ensures id in s'.story && Tallied(s'.rows[id], s'.story[id])
  {
    if e.Settle? {
      TallySettle(s, e, s', id);
    } else if id in s.rows {
      assert Tallied(s.rows[id], s.story[id]);
    }
  }

  lemma BoundStep(s: State, e: Event, s': State, id: Id)
    requires Step(s, e, s') && LeaseInv(s) && AttemptInv(s) && id in s'.story
    ensures Bounded(s'.story[id])
  {
    if id in s.story { assert Bounded(s.story[id]); }
    if e.Claim? { assert Tallied(s.rows[e.id], s.story[e.id]); }
  }

  lemma SweptStep(s: State, e: Event, s': State, w: Actor, id: Id)
    requires Step(s, e, s') && LeaseInv(s) && w in s'.sweeps && id in s'.rows
    requires w in s.sweeps && id in s.rows ==> Swept(s.rows[id], s.sweeps[w])
    ensures Swept(s'.rows[id], s'.sweeps[w])
  {
    if w in s.sweeps {
      SecondsLaws(s.sweeps[w].at - STALE_AFTER, s.now, 0);
    }
  }

  lemma AttemptStep(s: State, e: Event, s': State)
    requires Step(s, e, s') && LeaseInv(s) && AttemptInv(s)
    ensures AttemptInv(s')
  {
    forall id | id in s'.rows ensures id in s'.story && Tallied(s'.rows[id], s'.story[id]) {
      TallyStep(s, e, s', id);
    }
    forall id | id in s'.story ensures Bounded(s'.story[id]) { BoundStep(s, e, s', id); }
  }

  lemma SweptAllStep(s: State, e: Event, s': State)
    requires Step(s, e, s') && LeaseInv(s) && SweptAll(s)
    ensures SweptAll(s')
  {
    forall w, id | w in s'.sweeps && id in s'.rows ensures Swept(s'.rows[id], s'.sweeps[w]) {
      SweptStep(s, e, s', w, id);
    }
  }

  lemma {:induction false} AttemptsHold(ss: seq<State>, es: seq<Event>, i: nat)
    requires Trace(ss, es) && LeaseInv(ss[0]) && AttemptInv(ss[0]) && Disciplined(ss, es)
    requires i < |ss|
    ensures AttemptInv(ss[i])
  {
    if i > 0 {
      AttemptsHold(ss, es, i - 1);
      LeaseHolds(ss, es, i - 1);
      assert Step(ss[i - 1], es[i - 1], ss[i]);
      AttemptStep(ss[i - 1], es[i - 1], ss[i]);
    }
  }

  /** How often a run claims one job. */
  ghost function ClaimsOf(es: seq<Event>, id: Id): nat {
    if es == [] then 0
    else ClaimsOf(es[..|es| - 1], id) + (if es[|es| - 1].Claim? && es[|es| - 1].id == id then 1 else 0)
  }

  /** The recorded number of claims is the number of Claim events. */
  lemma {:induction false} ClaimsAreCounted(ss: seq<State>, es: seq<Event>, id: Id)
    requires Trace(ss, es)
    requires forall i :: 0 <= i < |ss| ==> ss[i].rows.Keys <= ss[i].story.Keys
    ensures StoryOf(ss[|es|], id).claims == StoryOf(ss[0], id).claims + ClaimsOf(es, id)
    decreases |es|
  {
    if es != [] {
      var n := |es| - 1;
      assert Step(ss[n], es[n], ss[n + 1]);
      ClaimsAreCounted(ss[..n + 1], es[..n], id);
    }
  }

  /** Nothing has happened yet. */
  ghost predicate Empty(s: State) {
    s.rows == map[] && s.story == map[] && s.holds == map[] && s.sweeps == map[]
  }

  /** e puts job id back in line although it is out of attempts: a Retry, the panic of its execution,
      or the second statement of a sweep. */
  predicate PutsBackSpent(s: State, e: Event, id: Id) {
    && id in s.rows && s.rows[id].attempts >= MAX_ATTEMPTS
    && match e
       case Retry(k) => k == id
       case Settle(w, outcome) => w in s.holds && s.holds[w].job == id && outcome.Panicked?
       case SweepEnd(w) => w in s.sweeps && Stale(s.rows[id], Cutoff(s.sweeps[w].at))
       case _ => false
  }

  /** How often a run does that. */
  ghost function PutBacks(ss: seq<State>, es: seq<Event>, id: Id): nat
    requires |ss| == |es| + 1
    decreases |es|
  {
    if es == [] then 0
    else
      var n := |es| - 1;
      PutBacks(ss[..n + 1], es[..n], id) + if PutsBackSpent(ss[n], es[n], id) then 1 else 0
  }

  lemma GraceStep(s: State, e: Event, s': State, id: Id)
    requires Step(s, e, s') && s.rows.Keys <= s.story.Keys
    ensures StoryOf(s', id).grace == StoryOf(s, id).grace + if PutsBackSpent(s, e, id) then 1 else 0
  {
  }

  lemma {:induction false} PutBacksAreCounted(ss: seq<State>, es: seq<Event>, id: Id)
    requires Trace(ss, es)
    requires forall i :: 0 <= i < |ss| ==> ss[i].rows.Keys <= ss[i].story.Keys
    ensures StoryOf(ss[|es|], id).grace == StoryOf(ss[0], id).grace + PutBacks(ss, es, id)
    decreases |es|
  {
    if es != [] {
      var n := |es| - 1;
      assert Step(ss[n], es[n], ss[n + 1]);
      GraceStep(ss[n], es[n], ss[n + 1], id);
      PutBacksAreCounted(ss[..n + 1], es[..n], id);
    }
  }

  /** The attempt bound over every disciplined run from an empty table: a job is claimed at most
      five times, plus once for each time it was put back in line when it was out of attempts; and once
      it has used up those tries it is running, done or dead, never in line. */
  lemma AttemptBound(ss: seq<State>, es: seq<Event>, id: Id)
    requires Trace(ss, es) && Disciplined(ss, es) && Empty(ss[0])
    ensures ClaimsOf(es, id) <= MAX_ATTEMPTS + PutBacks(ss, es, id)
    ensures id in ss[|es|].rows && Waiting(ss[|es|].rows[id]) ==>
              ClaimsOf(es, id) <= MAX_ATTEMPTS - 1 + PutBacks(ss, es, id)
    ensures id in ss[|es|].rows && PutBacks(ss, es, id) > 0 ==> ClaimsOf(es, id) >= MAX_ATTEMPTS
  {
    forall i | 0 <= i < |ss| ensures AttemptInv(ss[i]) { AttemptsHold(ss, es, i); }
    ClaimsAreCounted(ss, es, id);
    PutBacksAreCounted(ss, es, id);
  }

  /** Exactly when a job gets beyond five attempts: it stands in line with five claims or more behind
      it if and only if it was put back when it was out of attempts. */
  lemma SixthTryExactly(ss: seq<State>, es: seq<Event>, id: Id)
    requires Trace(ss, es) && Disciplined(ss, es) && Empty(ss[0])
    requires id in ss[|es|].rows && Waiting(ss[|es|].rows[id])
    ensures ClaimsOf(es, id) >= MAX_ATTEMPTS <==> exists i :: 0 <= i < |es| && PutsBackSpent(ss[i], es[i], id)
  {
    AttemptBound(ss, es, id);
    PutBacksMeet(ss, es, id);
  }

  lemma {:induction false} PutBacksMeet(ss: seq<State>, es: seq<Event>, id: Id)
    requires |ss| == |es| + 1
    ensures PutBacks(ss, es, id) > 0 <==> exists i :: 0 <= i < |es| && PutsBackSpent(ss[i], es[i], id)
    decreases |es|
  {
    if es != [] {
      var n := |es| - 1;
      PutBacksMeet(ss[..n + 1], es[..n], id);
      if i :| 0 <= i < n && PutsBackSpent(ss[..n + 1][i], es[..n][i], id) { assert PutsBackSpent(ss[i], es[i], id); }
      if i :| 0 <= i < |es| && PutsBackSpent(ss[i], es[i], id) {
        assert i == n || PutsBackSpent(ss[..n + 1][i], es[..n][i], id);
      }
    }
  }

  /** No Retry, no panic, and no sweep whose first statement fails. */
  ghost predicate Graceless(e: Event) {
    !e.Retry? && !(e.Settle? && e.outcome.Panicked?) && !(e.SweepBegin? && e.fails)
  }

  ghost predicate AllBuried(s: State) {
    forall w :: w in s.sweeps ==> s.sweeps[w].buried
  }

  /** Only these three put a spent job back. */
  lemma {:induction false} NoGrace(ss: seq<State>, es: seq<Event>, i: nat, id: Id)
    requires Trace(ss, es) && Disciplined(ss, es) && i < |ss| && Empty(ss[0])
    requires forall k :: 0 <= k < |es| ==> Graceless(es[k])
    ensures StoryOf(ss[i], id).grace == 0 && SweptAll(ss[i]) && AllBuried(ss[i])
  {
    if i > 0 {
      NoGrace(ss, es, i - 1, id);
      LeaseHolds(ss, es, i - 1);
      assert Step(ss[i - 1], es[i - 1], ss[i]) && Graceless(es[i - 1]);
      SweptAllStep(ss[i - 1], es[i - 1], ss[i]);
      NoGraceStep(ss[i - 1], es[i - 1], ss[i], id);
    }
  }

  lemma NoGraceStep(s: State, e: Event, s': State, id: Id)
    requires Step(s, e, s') && Graceless(e) && StoryOf(s, id).grace == 0 && SweptAll(s) && AllBuried(s)
    ensures StoryOf(s', id).grace == 0 && AllBuried(s')
  {
    if e.SweepEnd? && id in s.rows { assert Swept(s.rows[id], s.sweeps[e.w]); }
  }

  /** Without them a job is claimed at most five times; after the fifth claim it is running, done or
      dead, whatever crashed or was swept on the way. */
  lemma FiveClaimsAtMost(ss: seq<State>, es: seq<Event>, id: Id)
    requires Trace(ss, es) && Disciplined(ss, es) && Empty(ss[0])
    requires forall k :: 0 <= k < |es| ==> Graceless(es[k])
    ensures ClaimsOf(es, id) <= MAX_ATTEMPTS
    ensures ClaimsOf(es, id) == MAX_ATTEMPTS && id in ss[|es|].rows ==> !Waiting(ss[|es|].rows[id])
  {
    NoGrace(ss, es, |es|, id);
    forall i | 0 <= i < |ss| ensures ss[i].rows.Keys <= ss[i].story.Keys { LeaseHolds(ss, es, i); }
    PutBacksAreCounted(ss, es, id);
    AttemptBound(ss, es, id);
  }

  // ---------------------------------------------------------------- panics are not counted out

  /** Job 7 is due and nobody is at work. */
  ghost predicate Due(s: State) {
    && s.holds == map[] && s.sweeps == map[] && s.rows.Keys == {7} && 7 in s.story
    && Waiting(s.rows[7]) && s.rows[7].nextRun <= Seconds(s.now)
  }

  /** A claim that panics at once, and the 30 s until the job is due again. */
  lemma PanicRound(s: State) returns (s1: State, s2: State, s3: State)
    requires Due(s)
    ensures Step(s, Claim(1, 7), s1) && Step(s1, Settle(1, Panicked("")), s2) && Step(s2, Tick(PANIC_DELAY), s3)
    ensures Prompt(s1) && Prompt(s2) && Prompt(s3) && Due(s3)
  {
    assert Earliest(s.rows, 7, Seconds(s.now));
    s1 := Apply(s, Claim(1, 7));
    s2 := Apply(s1, Settle(1, Panicked("")));
    s3 := Apply(s2, Tick(PANIC_DELAY));
  }

  lemma TraceGrows(ss: seq<State>, es: seq<Event>, e: Event, s': State)
    requires Trace(ss, es) && Step(ss[|es|], e, s')
    ensures Trace(ss + [s'], es + [e])
  {
    var ss', es' := ss + [s'], es + [e];
    forall i | 0 <= i < |es'| ensures Step(ss'[i], es'[i], ss'[i + 1]) {
      if i < |es| { assert Step(ss[i], es[i], ss[i + 1]); }
    }
  }

  lemma DisciplineGrows(ss: seq<State>, es: seq<Event>, e: Event, s': State)
    requires Trace(ss, es) && Disciplined(ss, es) && Prompt(s') && Courteous(ss[|es|], e) && Trace(ss + [s'], es + [e])
    ensures Disciplined(ss + [s'], es + [e])
  {
    var ss', es' := ss + [s'], es + [e];
    forall i | 0 <= i < |es'| ensures Courteous(ss'[i], es'[i]) {
      if i < |es| { assert Courteous(ss[i], es[i]); }
    }
  }

  lemma OneMoreEvent(es: seq<Event>, e: Event, id: Id)
    ensures ClaimsOf(es + [e], id) == ClaimsOf(es, id) + if e.Claim? && e.id == id then 1 else 0
  {
    assert (es + [e])[..|es|] == es;
  }

  /** A longer run, still disciplined. */
  lemma RunGrows(ss: seq<State>, es: seq<Event>, e: Event, s': State)
    requires Trace(ss, es) && Disciplined(ss, es) && Step(ss[|es|], e, s') && Prompt(s') && Courteous(ss[|es|], e)
    ensures Trace(ss + [s'], es + [e]) && Disciplined(ss + [s'], es + [e])
    ensures ClaimsOf(es + [e], 7) == ClaimsOf(es, 7) + if e.Claim? && e.id == 7 then 1 else 0
  {
    TraceGrows(ss, es, e, s');
    DisciplineGrows(ss, es, e, s');
    OneMoreEvent(es, e, 7);
  }

  lemma PanicStart() returns (ss: seq<State>, es: seq<Event>)
    ensures Trace(ss, es) && Disciplined(ss, es) && Empty(ss[0]) && Due(ss[|es|])
    ensures es == [Enqueue(7, SendLike, "", 0)]
  {
    var start := State(0, map[], map[], map[], 0, map[]);
    es := [Enqueue(7, SendLike, "", 0)];
    ss := [start, Apply(start, es[0])];
  }

  /** The panic path never looks at the number of attempts: a job that panics each time is claimed
      any number of times. */
  lemma {:induction false} PanicsAreNotCounted(n: nat) returns (ss: seq<State>, es: seq<Event>)
    ensures Trace(ss, es) && Disciplined(ss, es) && Empty(ss[0])
    ensures forall i :: 0 <= i < |es| ==> !es[i].Retry? && !es[i].SweepBegin?
    ensures ClaimsOf(es, 7) == n && Due(ss[|es|])
  {
    if n == 0 {
      ss, es := PanicStart();
      return;
    }
    ss, es := PanicsAreNotCounted(n - 1);
    var s1, s2, s3 := PanicRound(ss[|es|]);
    RunGrows(ss, es, Claim(1, 7), s1);
    ss, es := ss + [s1], es + [Claim(1, 7)];
    RunGrows(ss, es, Settle(1, Panicked("")), s2);
    ss, es := ss + [s2], es + [Settle(1, Panicked(""))];
    RunGrows(ss, es, Tick(PANIC_DELAY), s3);
    ss, es := ss + [s3], es + [Tick(PANIC_DELAY)];
  }

  // ---------------------------------------------------------------- backoff

  /** Seconds between the first claim and the earliest possible a-th one. */
  ghost function Wait(a: nat): int {
    if a <= 1 then 0 else Wait(a - 1) + Delay(a - 1)
  }

  function Pow2(n: nat): nat {
    if n == 0 then 1 else 2 * Pow2(n - 1)
  }

  lemma {:induction false} DelayIsPower(a: nat)
    requires a >= 1
    ensures Delay(a) == 30 * Pow2(a - 1)
  {
    if a > 1 { DelayIsPower(a - 1); }
  }

  lemma {:induction false} WaitIsPower(a: nat)
    requires a >= 1
    ensures Wait(a) == 30 * (Pow2(a - 1) - 1)
  {
    if a > 1 {
      WaitIsPower(a - 1);
      DelayIsPower(a - 1);
    }
  }

  /** For a job put back in line only by returned errors, the stamp of its row already respects
      all the delays so far: the claim stamp while it runs, the retry time while it waits. */
  ghost predicate Spaced(j: Job, st: Story) {
    st.errorsOnly ==>
      && j.attempts == st.claims
      && (j.status.Pending? ==> st.claims == 0)
      && (j.status.Running? ==> st.claims >= 1 && j.nextRun >= st.first + Wait(st.claims))
      && (j.status.Failed? ==> st.claims >= 1 && j.nextRun >= st.first + Wait(st.claims + 1))
  }

  ghost predicate BackoffInv(s: State) {
    && s.rows.Keys <= s.story.Keys
    && forall id :: id in s.rows ==> Spaced(s.rows[id], s.story[id])
  }

  lemma SpacedSettle(s: State, e: Event, s': State, id: Id)
    requires Step(s, e, s') && e.Settle? && LeaseInv(s) && BackoffInv(s) && id in s'.rows
    ensures id in s'.story && Spaced(s'.rows[id], s'.story[id])
  {
    assert Spaced(s.rows[id], s.story[id]);
    var h := s.holds[e.w];
    assert Owned(s, h);
    SecondsLaws(h.since, s.now, 0);
    SecondsLaws(s.now, s.now, Delay(h.attempts));
  }

  lemma SpacedStep(s: State, e: Event, s': State, id: Id)
    requires Step(s, e, s') && LeaseInv(s) && BackoffInv(s) && id in s'.rows
    ensures id in s'.story && Spaced(s'.rows[id], s'.story[id])
  {
    if e.Settle? {
      SpacedSettle(s, e, s', id);
    } else if id in s.rows {
      assert Spaced(s.rows[id], s.story[id]);
    }
  }

  lemma BackoffStep(s: State, e: Event, s': State)
    requires Step(s, e, s') && LeaseInv(s) && BackoffInv(s)
    ensures BackoffInv(s')
  {
    forall id | id in s'.rows ensures id in s'.story && Spaced(s'.rows[id], s'.story[id]) {
      SpacedStep(s, e, s', id);
    }
  }

  lemma {:induction false} BackoffHolds(ss: seq<State>, es: seq<Event>, i: nat)
    requires Trace(ss, es) && LeaseInv(ss[0]) && BackoffInv(ss[0]) && Disciplined(ss, es)
    requires i < |ss|
    ensures BackoffInv(ss[i])
  {
    if i > 0 {
      BackoffHolds(ss, es, i - 1);
      LeaseHolds(ss, es, i - 1);
      assert Step(ss[i - 1], es[i - 1], ss[i]);
      BackoffStep(ss[i - 1], es[i - 1], ss[i]);
    }
  }

  /** Once made, the first claim keeps its second. */
  lemma {:induction false} FirstClaimStays(ss: seq<State>, es: seq<Event>, m: nat, i: nat, id: Id)
    requires Trace(ss, es) && m <= i < |ss|
    requires id in ss[m].story && ss[m].story[id].claims >= 1
    ensures id in ss[i].story && ss[i].story[id].claims >= 1
    ensures ss[i].story[id].first == ss[m].story[id].first
  {
    if m < i {
      FirstClaimStays(ss, es, m, i - 1, id);
      assert Step(ss[i - 1], es[i - 1], ss[i]);
    }
  }

  /** Backoff spacing over every disciplined run: if event m is the first claim of a job, event i
      its n-th, and only returned errors put it back in line in between, then the stored seconds
      of the two claims differ by at least 30 * (2^(n-1) - 1); the instants themselves may be
      closer by less than one second, which is what storing drops. */
  lemma BackoffSpacing(ss: seq<State>, es: seq<Event>, m: nat, i: nat, id: Id, n: nat)
    requires Trace(ss, es) && Disciplined(ss, es) && LeaseInv(ss[0]) && BackoffInv(ss[0])
    requires m <= i < |es|
    requires es[m].Claim? && es[m].id == id && StoryOf(ss[m], id).claims == 0
    requires es[i].Claim? && es[i].id == id && StoryOf(ss[i + 1], id).claims == n
    requires StoryOf(ss[i + 1], id).errorsOnly
    ensures n >= 1 && Seconds(ss[i].now) - Seconds(ss[m].now) >= 30 * (Pow2(n - 1) - 1)
    ensures ss[i].now - ss[m].now > (30 * (Pow2(n - 1) - 1) - 1) * SECOND
  {
    assert Step(ss[m], es[m], ss[m + 1]);
    assert Step(ss[i], es[i], ss[i + 1]);
    FirstClaimStays(ss, es, m + 1, i + 1, id);
    BackoffHolds(ss, es, i + 1);
    assert Spaced(ss[i + 1].rows[id], ss[i + 1].story[id]);
    WaitIsPower(n);
    SecondsLaws(ss[m].now, ss[i].now, 0);
    SecondsLaws(ss[i].now, ss[m].now, 0);
  }
}
