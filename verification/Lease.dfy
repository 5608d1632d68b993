/** The job queue as a lease protocol: several workers, sweepers and operators act on one table,
    one SQL statement at a time, under one clock that never goes back. */
module Lease {
  import opened Prelude
  import opened JobTable

  /** Names one claim made by one goroutine or process, or one call of RecoverStale. */
  type Actor = nat

  /** RunBatch recovers rows that have been running for longer than five minutes. */
  const STALE_AFTER: int := 300 * SECOND

  const PANIC_DELAY: int := 30 * SECOND

  /** How the execution of a claimed job ended. */
  datatype Outcome = Succeeded | Errored(msg: string) | Panicked(msg: string)

  /** Seconds before the next try of a job that failed in its a-th attempt: 30, 60, 120, 240. */
  function Delay(a: int): (d: int)
    ensures d >= 30
  {
    if a <= 1 then 30 else 2 * Delay(a - 1)
  }

  /** What the end of an execution writes. The attempt limit is checked on the count the claim
      returned, and the panic path does not test it. */
  function AfterSettle(t: Table, id: Id, attempts: int, outcome: Outcome, now: int): Table {
    match outcome
    case Succeeded => AfterComplete(t, id, Seconds(now))
    case Errored(msg) =>
      if attempts >= MAX_ATTEMPTS then AfterDead(t, id, Seconds(now), "max attempts (5) reached: " + msg)
      else AfterFail(t, id, Seconds(now + Delay(attempts) * SECOND), msg)
    case Panicked(msg) => AfterFail(t, id, Seconds(now + PANIC_DELAY), "panic: " + msg)
  }

  // ---------------------------------------------------------------- job kinds

  /** The single-delivery kind a fan-out handler enqueues; None for every other kind. */
  function Delivery(k: Kind): Option<Kind> {
    match k
    case DeliverPost => Some(DeliverNote)
    case UpdatePost => Some(DeliverUpdateNote)
    case UpdateActor => Some(DeliverUpdate)
    case DeliverDelete => Some(DeliverDeleteNote)
    case SendAnnounce => Some(DeliverAnnounce)
    case SendUndoAnnounce => Some(DeliverAnnounce)
    case _ => None
  }

  /** Two levels only: what a fan-out enqueues enqueues nothing. */
  lemma FanoutHasTwoLevels(k: Kind)
    ensures Delivery(k).Some? ==> Delivery(Delivery(k).value).None?
  {
  }

  function NewJob(kind: Kind, payload: string, created: int): Job {
    Job(kind, payload, Pending, 0, "", Seconds(created), Seconds(created), None)
  }

  /** A new job waits from the moment it is made, and nobody has tried it. */
  lemma NewJobWaits(kind: Kind, payload: string, created: int)
    ensures var j := NewJob(kind, payload, created);
            && j.kind == kind && j.payload == payload && j.status.Pending? && j.attempts == 0
            && j.nextRun == j.created && j.nextRun * SECOND <= created < (j.nextRun + 1) * SECOND
            && j.completed.None? && j.lastError == ""
  {
    SecondsLaws(created, created, 0);
  }

  // ---------------------------------------------------------------- state

  /** A claim in progress: what the claimer keeps in memory. left is how many deliveries this
      execution may still enqueue. */
  datatype Hold = Hold(job: Id, kind: Kind, attempts: int, since: int, left: nat)

  /** A RecoverStale call between its two statements: when it read the clock, and whether its first
      statement went through. The call does not look at the error of that statement. */
  datatype Sweep = Sweep(at: int, buried: bool)

  /** What has happened to one job so far, kept only to state theorems: claims made; how often it was
      put back in line when it was out of attempts; the second of the first claim; and whether it was
      put back by nothing but returned errors. */
  datatype Story = Story(claims: nat, grace: nat, first: int, errorsOnly: bool)

  datatype State = State(
    now: int,
    rows: Table,
    holds: map<Actor, Hold>,
    sweeps: map<Actor, Sweep>,
    fan: nat,                  // most deliveries one execution of a fan-out job enqueues
    story: map<Id, Story>)

  datatype Event =
    | Tick(delta: nat)
    | Enqueue(id: Id, kind: Kind, payload: string, created: int)
    | Claim(w: Actor, id: Id)
    | Spawn(w: Actor, id: Id, payload: string, created: int)
    | Settle(w: Actor, outcome: Outcome)
    | Crash(w: Actor)
    | SweepBegin(w: Actor, fails: bool)
    | SweepEnd(w: Actor)
    | SweepLost(w: Actor)
    | Retry(id: Id)
    | Dismiss(id: Id)
    | Cleanup(olderThan: int)
    | Cancel(domain: string)

  function Cutoff(at: int): int {
    Seconds(at - STALE_AFTER)
  }

  function StoryOf(s: State, id: Id): Story {
    if id in s.story then s.story[id] else Story(0, 0, 0, true)
  }

  predicate Enabled(s: State, e: Event) {
    match e
    case Tick(_) => true
    case Enqueue(id, _, _, created) => id !in s.story && created <= s.now
    case Claim(w, id) => w !in s.holds && w !in s.sweeps && Earliest(s.rows, id, Seconds(s.now))
    case Spawn(w, id, _, created) =>
      && w in s.holds && s.holds[w].left > 0 && Delivery(s.holds[w].kind).Some? && id !in s.story
      // A delivery is stamped when the execution makes it, and inserted with its page.
      && s.holds[w].since <= created <= s.now
    case Settle(w, _) => w in s.holds
    case Crash(w) => w in s.holds
    case SweepBegin(w, _) => w !in s.holds && w !in s.sweeps
    case SweepEnd(w) => w in s.sweeps
    case SweepLost(w) => w in s.sweeps
    case Retry(_) => true
    case Dismiss(_) => true
    case Cleanup(_) => true
    case Cancel(_) => true
  }

  function Apply(s: State, e: Event): State
    requires Enabled(s, e)
  {
    match e
    case Tick(d) => s.(now := s.now + d)
    case Enqueue(id, kind, payload, created) =>
      s.(rows := s.rows[id := NewJob(kind, payload, created)],
         story := s.story[id := Story(0, 0, 0, true)])
    case Claim(w, id) => AfterClaim(s, w, id)
    case Spawn(w, id, payload, created) =>
      var h := s.holds[w];
      s.(rows := s.rows[id := NewJob(Delivery(h.kind).value, payload, created)],
         holds := s.holds[w := h.(left := h.left - 1)],
         story := s.story[id := Story(0, 0, 0, true)])
    case Settle(w, outcome) =>
      var h := s.holds[w];
      s.(rows := AfterSettle(s.rows, h.job, h.attempts, outcome, s.now),
         holds := s.holds - {w},
         story := if outcome.Panicked? then Forgive(s, h.job) else s.story)
    case Crash(w) => s.(holds := s.holds - {w})
    case SweepBegin(w, fails) =>
      s.(rows := if fails then s.rows else AfterBuryStale(s.rows, Cutoff(s.now), Seconds(s.now)),
         sweeps := s.sweeps[w := Sweep(s.now, !fails)])
    case SweepEnd(w) =>
      var at := s.sweeps[w].at;
      s.(rows := AfterFailStale(s.rows, Cutoff(at), Seconds(at)),
         sweeps := s.sweeps - {w},
         story := map id | id in s.story ::
                    if id in s.rows && Stale(s.rows[id], Cutoff(at)) then PutBack(s.rows[id], s.story[id]) else s.story[id])
    case SweepLost(w) => s.(sweeps := s.sweeps - {w})
    case Retry(id) =>
      s.(rows := AfterRetry(s.rows, id, Seconds(s.now)),
         story := Forgive(s, id))
    case Dismiss(id) => s.(rows := AfterComplete(s.rows, id, Seconds(s.now)))
    case Cleanup(olderThan) => s.(rows := AfterCleanup(s.rows, Seconds(olderThan)))
    case Cancel(domain) => s.(rows := AfterCancel(s.rows, domain))
  }

  function AfterClaim(s: State, w: Actor, id: Id): State
    requires id in s.rows
  {
    var j := Claimed(s.rows[id], Seconds(s.now));
    var st := StoryOf(s, id);
    s.(rows := s.rows[id := j],
       holds := s.holds[w := Hold(id, j.kind, j.attempts, s.now, if Delivery(j.kind).Some? then s.fan else 0)],
       story := s.story[id := st.(claims := st.claims + 1,
                                  first := if st.claims == 0 then Seconds(s.now) else st.first)])
  }

  /** Putting back a job that is out of attempts gives it one more try. */
  function PutBack(j: Job, st: Story): Story {
    st.(errorsOnly := false, grace := if j.attempts >= MAX_ATTEMPTS then st.grace + 1 else st.grace)
  }

  function Forgive(s: State, id: Id): map<Id, Story> {
    if id in s.rows then s.story[id := PutBack(s.rows[id], StoryOf(s, id))] else s.story
  }

  // ---------------------------------------------------------------- runs

  predicate Step(s: State, e: Event, s': State) {
    Enabled(s, e) && s' == Apply(s, e)
  }

  /** A run: ss[i] is the state before event es[i]. */
  ghost predicate Trace(ss: seq<State>, es: seq<Event>) {
    |ss| == |es| + 1 && forall i :: 0 <= i < |es| ==> Step(ss[i], es[i], ss[i + 1])
  }

  /** Nobody is at work yet; the table itself may hold anything. */
  ghost predicate Quiet(s: State) {
    s.holds == map[] && s.sweeps == map[] && s.rows.Keys <= s.story.Keys
  }

  /** Every claim still in progress is at most 300 seconds old. */
  ghost predicate Prompt(s: State) {
    forall w :: w in s.holds ==> s.now - s.holds[w].since <= STALE_AFTER
  }

  /** Retry and Dismiss are used on failed and dead jobs only. */
  ghost predicate Courteous(s: State, e: Event) {
    (e.Retry? || e.Dismiss?) && e.id in s.rows ==> s.rows[e.id].status.Failed? || s.rows[e.id].status.Dead?
  }

  /** The conditions under which the lease is safe. */
  ghost predicate Disciplined(ss: seq<State>, es: seq<Event>)
    requires Trace(ss, es)
  {
    (forall i :: 0 <= i < |ss| ==> Prompt(ss[i])) &&
    (forall i :: 0 <= i < |es| ==> Courteous(ss[i], es[i]))
  }

  // ---------------------------------------------------------------- lease safety

  /** The row of a live claim still runs under that claim. */
  ghost predicate Owned(s: State, h: Hold) {
    && h.job in s.rows
    && s.rows[h.job].status.Running?
    && s.rows[h.job].nextRun == Seconds(h.since)
    && s.rows[h.job].attempts == h.attempts
    && s.rows[h.job].kind == h.kind
    && h.since <= s.now
  }

  ghost predicate Exclusive(s: State) {
    forall v, w :: v in s.holds && w in s.holds && v != w ==> s.holds[v].job != s.holds[w].job
  }

  ghost predicate LeaseInv(s: State) {
    && (forall w :: w in s.holds ==> Owned(s, s.holds[w]))
    && Exclusive(s)
    && (forall w :: w in s.sweeps ==> s.sweeps[w].at <= s.now)
    && s.rows.Keys <= s.story.Keys
  }

  /** The sweep acts on stored seconds: a row claimed at since is stale for a sweep started at at
      only after strictly more than 300 s, and surely once 301 s have gone by. */
  lemma StaleMeansOverdue(since: int, at: int)
    ensures Seconds(since) < Cutoff(at) ==> at - since > 300 * SECOND
    ensures at - since >= 301 * SECOND ==> Seconds(since) < Cutoff(at)
  {
  }

  /** No sweep finds the row of a live claim stale. */
  lemma SweepSparesOwned(s: State, e: Event, s': State, w: Actor)
    requires Step(s, e, s') && LeaseInv(s) && Prompt(s) && (e.SweepBegin? || e.SweepEnd?) && w in s'.holds
    ensures w in s.holds && Owned(s', s'.holds[w])
  {
    assert Owned(s, s.holds[w]);
    StaleMeansOverdue(s.holds[w].since, if e.SweepBegin? then s.now else s.sweeps[e.w].at);
  }

  /** The end of one execution leaves the rows of all others alone. */
  lemma SettleSparesOwned(s: State, e: Event, s': State, w: Actor)
    requires Step(s, e, s') && LeaseInv(s) && e.Settle? && w in s'.holds
    ensures Owned(s', s'.holds[w])
  {
    assert Owned(s, s.holds[w]) && s.holds[e.w].job != s.holds[w].job;
  }

  /** A claim takes a waiting row, so none that is held. */
  lemma ClaimSparesOwned(s: State, e: Event, s': State, w: Actor)
    requires Step(s, e, s') && LeaseInv(s) && e.Claim? && w in s'.holds
    ensures Owned(s', s'.holds[w])
  {
    if w != e.w { assert Owned(s, s.holds[w]); }
  }

  lemma OthersSpareOwned(s: State, e: Event, s': State, w: Actor)
    requires Step(s, e, s') && LeaseInv(s) && Courteous(s, e) && w in s'.holds
    requires !e.SweepBegin? && !e.SweepEnd? && !e.Settle? && !e.Claim?
    ensures Owned(s', s'.holds[w])
  {
    assert Owned(s, s.holds[w]);
  }

  /** A live claim keeps its row through every step. */
  lemma OwnedStep(s: State, e: Event, s': State, w: Actor)
    requires Step(s, e, s') && LeaseInv(s) && Prompt(s) && Courteous(s, e) && w in s'.holds
    ensures Owned(s', s'.holds[w])
  {
    match e
    case SweepBegin(_, _) => SweepSparesOwned(s, e, s', w);
    case SweepEnd(_) => SweepSparesOwned(s, e, s', w);
    case Settle(_, _) => SettleSparesOwned(s, e, s', w);
    case Claim(_, _) => ClaimSparesOwned(s, e, s', w);
    case _ => OthersSpareOwned(s, e, s', w);
  }

  lemma ExclusiveStep(s: State, e: Event, s': State, v: Actor, w: Actor)
    requires Step(s, e, s') && LeaseInv(s) && v in s'.holds && w in s'.holds && v != w
    ensures s'.holds[v].job != s'.holds[w].job
  {
    if v in s.holds { assert Owned(s, s.holds[v]); }
    if w in s.holds { assert Owned(s, s.holds[w]); }
  }

  lemma LeaseStep(s: State, e: Event, s': State)
    requires Step(s, e, s') && LeaseInv(s) && Prompt(s) && Courteous(s, e)
    ensures LeaseInv(s')
  {
    forall w | w in s'.holds ensures Owned(s', s'.holds[w]) { OwnedStep(s, e, s', w); }
    forall v, w | v in s'.holds && w in s'.holds && v != w ensures s'.holds[v].job != s'.holds[w].job {
      ExclusiveStep(s, e, s', v, w);
    }
  }

  /** Every state of a disciplined run satisfies the invariant. */
  lemma {:induction false} LeaseHolds(ss: seq<State>, es: seq<Event>, i: nat)
    requires Trace(ss, es) && LeaseInv(ss[0]) && Disciplined(ss, es)
    requires i < |ss|
    ensures LeaseInv(ss[i])
  {
    if i > 0 {
      LeaseHolds(ss, es, i - 1);
      assert Step(ss[i - 1], es[i - 1], ss[i]);
      assert Prompt(ss[i - 1]) && Courteous(ss[i - 1], es[i - 1]);
      LeaseStep(ss[i - 1], es[i - 1], ss[i]);
    }
  }

  /** Lease safety over every run: no job is ever held twice, and whatever a worker writes when it
      settles lands on a row that still runs under that worker's own claim. */
  lemma LeaseSafety(ss: seq<State>, es: seq<Event>)
    requires Trace(ss, es) && Quiet(ss[0]) && Disciplined(ss, es)
    ensures forall i :: 0 <= i < |ss| ==> Exclusive(ss[i])
    ensures forall i :: 0 <= i < |es| && es[i].Settle? ==>
              es[i].w in ss[i].holds && Owned(ss[i], ss[i].holds[es[i].w])
  {
    forall i | 0 <= i < |ss| ensures LeaseInv(ss[i]) { LeaseHolds(ss, es, i); }
    forall i | 0 <= i < |es| && es[i].Settle?
      ensures es[i].w in ss[i].holds && Owned(ss[i], ss[i].holds[es[i].w])
    {
      assert Step(ss[i], es[i], ss[i + 1]);
      assert LeaseInv(ss[i]);
    }
  }

  // ---------------------------------------------------------------- the 300 s are needed

  /** A run in which one worker is still busy with job 7 when it is swept after 301 s. */
  function SlowRun(i: nat): State
    requires i <= 6
  {
    var job := NewJob(SendLike, "", 0);
    var late := Postponed(Claimed(job, 0), 301, STALE_FAILED);
    var first := Hold(7, SendLike, 1, 0, 0);
    var second := Hold(7, SendLike, 2, 301 * SECOND, 0);
    match i
    case 0 => State(0, map[], map[], map[], 0, map[])
    case 1 => State(0, map[7 := job], map[], map[], 0, map[7 := Story(0, 0, 0, true)])
    case 2 => State(0, map[7 := Claimed(job, 0)], map[1 := first], map[], 0, map[7 := Story(1, 0, 0, true)])
    case 3 => SlowRun(2).(now := 301 * SECOND)
    case 4 => SlowRun(3).(sweeps := map[2 := Sweep(301 * SECOND, true)])
    case 5 => State(301 * SECOND, map[7 := late], map[1 := first], map[], 0, map[7 := Story(1, 0, 0, false)])
    case 6 => State(301 * SECOND, map[7 := Claimed(late, 301)], map[1 := first, 3 := second], map[], 0,
                    map[7 := Story(2, 0, 0, false)])
  }

  const SLOW_EVENTS: seq<Event> :=
    [Enqueue(7, SendLike, "", 0), Claim(1, 7), Tick(301 * SECOND), SweepBegin(2, false), SweepEnd(2), Claim(3, 7)]

  lemma SlowRunClaims()
    ensures Step(SlowRun(0), SLOW_EVENTS[0], SlowRun(1))
    ensures Step(SlowRun(1), SLOW_EVENTS[1], SlowRun(2))
    ensures Step(SlowRun(2), SLOW_EVENTS[2], SlowRun(3))
  {
    assert Earliest(SlowRun(1).rows, 7, 0);
    assert Apply(SlowRun(1), Claim(1, 7)) == SlowRun(2);
  }

  lemma SlowRunSweepBegins()
    ensures Step(SlowRun(3), SLOW_EVENTS[3], SlowRun(4))
  {
    var at := 301 * SECOND;
    assert AfterBuryStale(SlowRun(3).rows, Cutoff(at), Seconds(at)) == SlowRun(3).rows;
    assert Apply(SlowRun(3), SweepBegin(2, false)) == SlowRun(4);
  }

  lemma SlowRunSweepEnds()
    ensures Step(SlowRun(4), SLOW_EVENTS[4], SlowRun(5))
  {
    var at := 301 * SECOND;
    assert AfterFailStale(SlowRun(4).rows, Cutoff(at), Seconds(at)) == SlowRun(5).rows;
    assert Apply(SlowRun(4), SweepEnd(2)) == SlowRun(5);
  }

  lemma SlowRunReclaims()
    ensures Step(SlowRun(5), SLOW_EVENTS[5], SlowRun(6))
    ensures !Exclusive(SlowRun(6))
  {
    assert Earliest(SlowRun(5).rows, 7, 301);
    assert Apply(SlowRun(5), Claim(3, 7)) == SlowRun(6);
    assert SlowRun(6).holds[1].job == SlowRun(6).holds[3].job;
  }

  lemma SlowRunSteps()
    ensures forall i :: 0 <= i < 6 ==> Step(SlowRun(i), SLOW_EVENTS[i], SlowRun(i + 1))
    ensures !Exclusive(SlowRun(6))
  {
    SlowRunClaims();
    SlowRunSweepBegins();
    SlowRunSweepEnds();
    SlowRunReclaims();
  }

  /** A worker that is still busy after 301 s shares its job with another, although nobody used
      Retry or Dismiss. */
  lemma SlowWorkerLosesLease() returns (ss: seq<State>)
    ensures Trace(ss, SLOW_EVENTS) && Quiet(ss[0])
    ensures forall i :: 0 <= i < |SLOW_EVENTS| ==> Courteous(ss[i], SLOW_EVENTS[i])
    ensures !Exclusive(ss[6])
  {
    SlowRunSteps();
    ss := seq(7, i requires 0 <= i < 7 => SlowRun(i));
    forall i | 0 <= i < 6 ensures Step(ss[i], SLOW_EVENTS[i], ss[i + 1]) {
      assert ss[i] == SlowRun(i) && ss[i + 1] == SlowRun(i + 1);
    }
  }

  // ---------------------------------------------------------------- operators must spare running jobs

  /** A run in which an operator retries job 7 while worker 1 is at it, and worker 3 claims it too. */
  function RudeRun(i: nat): State
    requires i <= 4
  {
    var job := NewJob(SendLike, "", 0);
    var first, second := Hold(7, SendLike, 1, 0, 0), Hold(7, SendLike, 2, 0, 0);
    match i
    case 0 => State(0, map[], map[], map[], 0, map[])
    case 1 => State(0, map[7 := job], map[], map[], 0, map[7 := Story(0, 0, 0, true)])
    case 2 => State(0, map[7 := Claimed(job, 0)], map[1 := first], map[], 0, map[7 := Story(1, 0, 0, true)])
    case 3 => State(0, map[7 := Retried(Claimed(job, 0), 0)], map[1 := first], map[], 0, map[7 := Story(1, 0, 0, false)])
    case 4 => State(0, map[7 := Claimed(Retried(Claimed(job, 0), 0), 0)], map[1 := first, 3 := second], map[], 0,
                    map[7 := Story(2, 0, 0, false)])
  }

  const RUDE_EVENTS: seq<Event> := [Enqueue(7, SendLike, "", 0), Claim(1, 7), Retry(7), Claim(3, 7)]

  lemma RudeRunStarts()
    ensures Step(RudeRun(0), RUDE_EVENTS[0], RudeRun(1))
    ensures Step(RudeRun(1), RUDE_EVENTS[1], RudeRun(2))
  {
    assert Earliest(RudeRun(1).rows, 7, 0);
    assert Apply(RudeRun(1), Claim(1, 7)) == RudeRun(2);
  }

  lemma RudeRunEnds()
    ensures Step(RudeRun(2), RUDE_EVENTS[2], RudeRun(3))
    ensures Step(RudeRun(3), RUDE_EVENTS[3], RudeRun(4))
    ensures !Exclusive(RudeRun(4))
  {
    assert Apply(RudeRun(2), Retry(7)) == RudeRun(3);
    assert Earliest(RudeRun(3).rows, 7, 0);
    assert Apply(RudeRun(3), Claim(3, 7)) == RudeRun(4);
    assert RudeRun(4).holds[1].job == RudeRun(4).holds[3].job;
  }

  /** However promptly claims are settled, a Retry of a running job lets a second worker claim it. */
  lemma RetryBreaksLease() returns (ss: seq<State>)
    ensures Trace(ss, RUDE_EVENTS) && Quiet(ss[0])
    ensures forall i :: 0 <= i < |ss| ==> Prompt(ss[i])
    ensures !Exclusive(ss[4])
  {
    RudeRunStarts();
    RudeRunEnds();
    ss := seq(5, i requires 0 <= i < 5 => RudeRun(i));
    forall i | 0 <= i < 4 ensures Step(ss[i], RUDE_EVENTS[i], ss[i + 1]) {
      assert ss[i] == RudeRun(i) && ss[i + 1] == RudeRun(i + 1);
    }
  }
}
