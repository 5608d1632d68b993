/** No ready job waits for ever: younger work cannot overtake it without end. */
module Starvation {
  import opened Prelude
  import opened JobTable
  import opened Lease
  import opened Attempts

  /** The rows that may still be claimed ahead of a job stamped n: waiting ones stamped n or
      earlier, and running ones a sweep could put back under such a stamp. */
  ghost function Ahead(s: State, n: int): set<Id> {
    set id | id in s.rows && s.rows[id].nextRun <= n && (Waiting(s.rows[id]) || s.rows[id].status.Running?)
  }

  /** A job that enters with a stamp no later than n, although the clock has passed n: it was made
      earlier and is inserted only now, as the deliveries of a fan-out page are. */
  ghost predicate Latecomer(e: Event, n: int) {
    (e.Enqueue? || e.Spawn?) && Seconds(e.created) <= n
  }

  /** New requests are stamped after n. */
  ghost predicate Later(e: Event, n: int) {
    e.Enqueue? ==> Seconds(e.created) > n
  }

  /** The deliveries that may still come in late: those left to the executions claimed by second n. */
  ghost function Credits(s: State, n: int): map<Actor, nat> {
    map w | w in s.holds && Seconds(s.holds[w].since) <= n :: s.holds[w].left
  }

  /** How many rows may yet be claimed ahead of a job stamped n. */
  ghost function Line(s: State, n: int): nat {
    |Ahead(s, n)| + Total(Credits(s, n))
  }

  /** e addresses job id other than by claiming it: an operator's Retry or Dismiss, the end of an
      execution that no longer owns the row, or a domain cancellation that matches it. */
  ghost predicate Addresses(s: State, e: Event, id: Id) {
    match e
    case Retry(k) => k == id
    case Dismiss(k) => k == id
    case Settle(w, _) => w in s.holds && s.holds[w].job == id
    case Cancel(domain) => id in s.rows && Cancellable(s.rows[id], domain)
    case _ => false
  }

  lemma WasAheadOfSettle(s: State, e: Event, s': State, n: int, id: Id)
    requires Step(s, e, s') && e.Settle? && Seconds(s.now) > n && id in Ahead(s', n)
    ensures id in Ahead(s, n)
  {
    SecondsLaws(s.now, s.now, Delay(s.holds[e.w].attempts));
    SecondsLaws(s.now, s.now, 30);
  }

  lemma WasAheadOfSweep(s: State, e: Event, s': State, n: int, id: Id)
    requires Step(s, e, s') && (e.SweepBegin? || e.SweepEnd?) && id in Ahead(s', n)
    ensures id in Ahead(s, n)
  {
    if e.SweepEnd? { SecondsLaws(s.sweeps[e.w].at - STALE_AFTER, s.sweeps[e.w].at, 0); }
  }

  lemma WasAheadOfOther(s: State, e: Event, s': State, n: int, id: Id)
    requires Step(s, e, s') && !e.Settle? && !e.SweepBegin? && !e.SweepEnd? && Seconds(s.now) > n && id in Ahead(s', n)
    ensures id in Ahead(s, n) || (Latecomer(e, n) && id == e.id)
  {
  }

  /** A row a step has put ahead was ahead before, or has come in late. */
  lemma WasAhead(s: State, e: Event, s': State, n: int, id: Id)
    requires Step(s, e, s') && Seconds(s.now) > n && id in Ahead(s', n)
    ensures id in Ahead(s, n) || (Latecomer(e, n) && id == e.id)
  {
    match e
    case Settle(_, _) => WasAheadOfSettle(s, e, s', n, id);
    case SweepBegin(_, _) => WasAheadOfSweep(s, e, s', n, id);
    case SweepEnd(_) => WasAheadOfSweep(s, e, s', n, id);
    case _ => WasAheadOfOther(s, e, s', n, id);
  }

  /** Every stamp the queue writes after second n is later than n, so only latecomers join the set. */
  lemma AheadShrinks(s: State, e: Event, s': State, n: int)
    requires Step(s, e, s') && Seconds(s.now) > n
    ensures Ahead(s', n) <= Ahead(s, n) + (if Latecomer(e, n) then {e.id} else {})
    ensures |Ahead(s', n)| <= |Ahead(s, n)| + (if Latecomer(e, n) then 1 else 0)
  {
    var late: set<Id> := if Latecomer(e, n) then {e.id} else {};
    forall id | id in Ahead(s', n) ensures id in Ahead(s, n) + late { WasAhead(s, e, s', n, id); }
    SubsetSize(Ahead(s', n), Ahead(s, n) + late);
  }

  /** Job j is in line under a stamp no later than n. */
  ghost predicate Ready(s: State, j: Id, n: int) {
    j in s.rows && Waiting(s.rows[j]) && s.rows[j].nextRun <= n
  }

  /** While j is ready, a claim takes j or another row of the set, which then leaves it. */
  lemma ClaimTakesFromAhead(s: State, e: Event, s': State, j: Id, n: int)
    requires Step(s, e, s') && Seconds(s.now) > n && Ready(s, j, n) && e.Claim?
    ensures e.id in Ahead(s, n) && e.id !in Ahead(s', n)
    ensures s'.rows[e.id].attempts == s.rows[e.id].attempts + 1
    ensures |Ahead(s', n)| < |Ahead(s, n)|
  {
    assert Claimable(s.rows[j], Seconds(s.now));
    AheadShrinks(s, e, s', n);
    assert Ahead(s', n) <= Ahead(s, n) - {e.id};
    SubsetSize(Ahead(s', n), Ahead(s, n) - {e.id});
  }

  lemma ReadyStays(s: State, e: Event, s': State, j: Id, n: int)
    requires Step(s, e, s') && Ready(s, j, n) && s.rows.Keys <= s.story.Keys
    requires !Addresses(s, e, j) && !(e.Claim? && e.id == j)
    ensures Ready(s', j, n) && s'.rows[j] == s.rows[j]
  {
  }

  ghost function AllClaims(es: seq<Event>): nat {
    if es == [] then 0 else (if es[0].Claim? then 1 else 0) + AllClaims(es[1..])
  }

  lemma KeysStep(s: State, e: Event, s': State)
    requires Step(s, e, s') && s.rows.Keys <= s.story.Keys
    ensures s'.rows.Keys <= s'.story.Keys
  {
  }

  /** A delivery that comes in late uses up a credit of the execution that made it, and the clock
      having passed n, nothing gives new ones. */
  lemma CreditsShrink(s: State, e: Event, s': State, n: int)
    requires Step(s, e, s') && Seconds(s.now) > n
    ensures Total(Credits(s', n)) + (if e.Spawn? && Latecomer(e, n) then 1 else 0) <= Total(Credits(s, n))
  {
    if e.Spawn? && Latecomer(e, n) {
      var left: nat := s'.holds[e.w].left;
      SecondsLaws(s.holds[e.w].since, e.created, 0);
      assert Credits(s', n) == Credits(s, n)[e.w := left];
      TotalUpdate(Credits(s, n), e.w, left);
    } else {
      CreditsFall(s, e, s', n);
      TotalMonotone(Credits(s', n), Credits(s, n));
    }
  }

  lemma CreditsFall(s: State, e: Event, s': State, n: int)
    requires Step(s, e, s') && Seconds(s.now) > n
    ensures Credits(s', n).Keys <= Credits(s, n).Keys
    ensures forall w :: w in Credits(s', n) ==> Credits(s', n)[w] <= Credits(s, n)[w]
  {
  }

  /** While a job is ready, a claim shortens the line, and no other step lengthens it. */
  lemma LineShortens(s: State, e: Event, s': State, j: Id, n: int)
    requires Step(s, e, s') && Seconds(s.now) > n && Ready(s, j, n) && Later(e, n)
    ensures Line(s', n) + (if e.Claim? then 1 else 0) <= Line(s, n)
  {
    CreditsShrink(s, e, s', n);
    if e.Claim? { ClaimTakesFromAhead(s, e, s', j, n); } else { AheadShrinks(s, e, s', n); }
  }

  /** No starvation, over every interleaving and without any assumption on the speed of workers: once
      the clock has passed second n and new requests are stamped after it, a job ready at n is claimed
      within as many Claims as there are rows ahead of it now and deliveries that executions claimed by
      then may still bring in, unless something else addressed it first. */
  lemma {:induction false} NoStarvation(ss: seq<State>, es: seq<Event>, j: Id, n: int)
    requires Trace(ss, es) && Seconds(ss[0].now) > n && Ready(ss[0], j, n) && ss[0].rows.Keys <= ss[0].story.Keys
    requires forall i :: 0 <= i < |es| ==> Later(es[i], n)
    requires forall i :: 0 <= i < |es| ==> !Addresses(ss[i], es[i], j)
    requires AllClaims(es) >= Line(ss[0], n)
    ensures exists i :: 0 <= i < |es| && es[i].Claim? && es[i].id == j
    decreases |es|
  {
    ReadyInLine(ss[0], j, n);
    if es != [] {
      var s, e, s' := ss[0], es[0], ss[1];
      assert Step(s, e, s') && !Addresses(s, e, j) && Later(e, n);
      if e.Claim? && e.id == j {
      } else {
        LineShortens(s, e, s', j, n);
        ReadyStays(s, e, s', j, n);
        KeysStep(s, e, s');
        ClockGoesOn(s, e, s');
        NoStarvation(ss[1..], es[1..], j, n);
        var i :| 0 <= i < |es[1..]| && es[1..][i].Claim? && es[1..][i].id == j;
        assert es[i + 1] == es[1..][i];
      }
    }
  }

  lemma ReadyInLine(s: State, j: Id, n: int)
    requires Ready(s, j, n)
    ensures Line(s, n) > 0
  {
    assert j in Ahead(s, n);
  }

  lemma ClockGoesOn(s: State, e: Event, s': State)
    requires Step(s, e, s')
    ensures s.now <= s'.now && Seconds(s.now) <= Seconds(s'.now)
  {
  }

  lemma {:induction false} SubsetSize<T>(a: set<T>, b: set<T>)
    requires a <= b
    ensures |a| <= |b|
    decreases a
  {
    if a != {} {
      var x :| x in a;
      SubsetSize(a - {x}, b - {x});
    }
  }

  /** In a run that keeps the lease, the end of an execution never addresses a waiting job, so
      only operators and cancellations can get in the way. */
  lemma SettlesSpareWaitingJobs(s: State, e: Event, j: Id, n: int)
    requires Enabled(s, e) && LeaseInv(s) && Ready(s, j, n) && e.Settle?
    ensures !Addresses(s, e, j)
  {
    assert Owned(s, s.holds[e.w]);
  }

  /** What else than a claim can get at a waiting job: an operator or a cancelled domain. */
  ghost predicate Meddles(s: State, e: Event, j: Id) {
    Addresses(s, e, j) && !e.Settle?
  }

  /** Until it is claimed, a job nobody meddles with stays ready and unaddressed. */
  lemma {:induction false} StaysReady(ss: seq<State>, es: seq<Event>, j: Id, n: int, i: nat)
    requires Trace(ss, es) && Disciplined(ss, es) && LeaseInv(ss[0]) && Ready(ss[0], j, n) && i <= |es|
    requires forall k :: 0 <= k < |es| ==> !Meddles(ss[k], es[k], j)
    requires forall k :: 0 <= k < |es| ==> !(es[k].Claim? && es[k].id == j)
    ensures Ready(ss[i], j, n) && forall k :: 0 <= k < i ==> !Addresses(ss[k], es[k], j)
  {
    if i > 0 {
      StaysReady(ss, es, j, n, i - 1);
      var s, e := ss[i - 1], es[i - 1];
      assert Step(s, e, ss[i]) && !Meddles(s, e, j);
      LeaseHolds(ss, es, i - 1);
      if e.Settle? { SettlesSpareWaitingJobs(s, e, j, n); }
      ReadyStays(s, e, ss[i], j, n);
    }
  }

  /** In a run that keeps the lease, a ready job is claimed within that many Claims unless an operator's
      Retry or Dismiss or the cancellation of its domain meets it. */
  lemma NoStarvationUnderLease(ss: seq<State>, es: seq<Event>, j: Id, n: int)
    requires Trace(ss, es) && Disciplined(ss, es) && LeaseInv(ss[0])
    requires Seconds(ss[0].now) > n && Ready(ss[0], j, n)
    requires forall i :: 0 <= i < |es| ==> Later(es[i], n)
    requires forall i :: 0 <= i < |es| ==> !Meddles(ss[i], es[i], j)
    requires AllClaims(es) >= Line(ss[0], n)
    ensures exists i :: 0 <= i < |es| && es[i].Claim? && es[i].id == j
  {
    if forall k :: 0 <= k < |es| ==> !(es[k].Claim? && es[k].id == j) {
      StaysReady(ss, es, j, n, |es|);
      NoStarvation(ss, es, j, n);
    }
  }

  // ---------------------------------------------------------------- the credits are needed

  /** Job 1 was claimed at second 0 and has made the delivery 2 at once, but inserts it only after job 3
      has become due and the clock has passed its stamp: it stands ahead of job 3 although it was not
      there before. */
  lemma LatecomerOvertakes() returns (s: State, e: Event, s': State)
    ensures Step(s, e, s') && LeaseInv(s) && Prompt(s) && Seconds(s.now) > 0 && Ready(s, 3, 0)
    ensures e.Spawn? && 2 !in Ahead(s, 0) && 2 in Ahead(s', 0)
  {
    var first, third := Claimed(NewJob(UpdateActor, "", 0), 0), NewJob(SendLike, "", 0);
    s := State(2 * SECOND, map[1 := first, 3 := third], map[9 := Hold(1, UpdateActor, 1, 0, 1)], map[], 1,
               map[1 := Story(1, 0, 0, true), 3 := Story(0, 0, 0, true)]);
    e := Spawn(9, 2, "", 0);
    s' := Apply(s, e);
  }
}
