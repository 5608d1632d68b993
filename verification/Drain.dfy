/** Left alone, the queue drains: only a bounded number of claims can still be made. */
module Drain {
  import opened Prelude
  import opened JobTable
  import opened Lease
  import opened Attempts
  import opened Starvation

  /** Claims a row can still take, on its own account. */
  ghost function Tries(j: Job): nat {
    if Waiting(j) then if j.attempts < MAX_ATTEMPTS then MAX_ATTEMPTS - j.attempts else 1
    else if j.status.Running? && j.attempts < MAX_ATTEMPTS then MAX_ATTEMPTS - j.attempts
    else 0
  }

  /** A fan-out job brings, with each claim, up to fan deliveries of five claims each. */
  ghost function Weight(k: Kind, fan: nat): nat {
    if Delivery(k).Some? then 1 + MAX_ATTEMPTS * fan else 1
  }

  ghost function RowCost(j: Job, fan: nat): nat {
    Weight(j.kind, fan) * Tries(j)
  }

  ghost function RowCosts(s: State): map<Id, nat> {
    map id | id in s.rows :: RowCost(s.rows[id], s.fan)
  }

  ghost function HoldCosts(s: State): map<Actor, nat> {
    map w | w in s.holds :: MAX_ATTEMPTS * s.holds[w].left
  }

  /** Everything that may still be claimed: by rows, and by rows yet to be enqueued. */
  ghost function Potential(s: State): nat {
    Total(RowCosts(s)) + Total(HoldCosts(s))
  }

  /** No new requests, no operator's Retry, no panic, and no sweep whose first statement fails. */
  ghost predicate Unattended(e: Event) {
    !e.Enqueue? && Graceless(e)
  }

  /** What the count of claims rests on: leases, swept rows, and deliveries without a fan-out. */
  ghost predicate DrainInv(s: State) {
    && LeaseInv(s)
    && SweptAll(s) && AllBuried(s)
    && (forall id :: id in s.rows ==> s.rows[id].attempts >= 0)
    && (forall w :: w in s.holds && Delivery(s.holds[w].kind).None? ==> s.holds[w].left == 0)
  }

  lemma AttemptsStayCounted(s: State, e: Event, s': State, id: Id)
    requires Step(s, e, s') && (forall k :: k in s.rows ==> s.rows[k].attempts >= 0) && id in s'.rows
    ensures s'.rows[id].attempts >= 0
  {
  }

  lemma LeftStaysWithFanouts(s: State, e: Event, s': State, w: Actor)
    requires Step(s, e, s') && w in s'.holds && Delivery(s'.holds[w].kind).None?
    requires w in s.holds && Delivery(s.holds[w].kind).None? ==> s.holds[w].left == 0
    ensures s'.holds[w].left == 0
  {
  }

  lemma DrainInvStep(s: State, e: Event, s': State)
    requires Step(s, e, s') && DrainInv(s) && Prompt(s) && Courteous(s, e) && Unattended(e)
    ensures DrainInv(s')
  {
    LeaseStep(s, e, s');
    SweptAllStep(s, e, s');
    forall id | id in s'.rows ensures s'.rows[id].attempts >= 0 { AttemptsStayCounted(s, e, s', id); }
    forall w | w in s'.holds && Delivery(s'.holds[w].kind).None? ensures s'.holds[w].left == 0 {
      LeftStaysWithFanouts(s, e, s', w);
    }
  }

  /** Nothing but a claim or a delivery enqueued by a fan-out changes a row for the dearer. */
  lemma RowCostStep(s: State, e: Event, s': State, id: Id)
    requires Step(s, e, s') && DrainInv(s) && Unattended(e)
    requires !e.Claim? && !e.Spawn? && id in s'.rows
    ensures id in s.rows && RowCost(s'.rows[id], s'.fan) <= RowCost(s.rows[id], s.fan)
  {
    if e.Settle? { assert Owned(s, s.holds[e.w]); }
    if e.SweepEnd? { assert Swept(s.rows[id], s.sweeps[e.w]); }
    assert s'.rows[id].kind == s.rows[id].kind;
    assert Tries(s'.rows[id]) <= Tries(s.rows[id]);
    ScaleMonotone(Weight(s.rows[id].kind, s.fan), Tries(s'.rows[id]), Tries(s.rows[id]));
  }

  lemma ScaleMonotone(k: nat, a: nat, b: nat)
    requires a <= b
    ensures k * a <= k * b
  {
  }

  /** One step: a claim lowers the potential by at least one, no other step raises it. */
  lemma PotentialStep(s: State, e: Event, s': State)
    requires Step(s, e, s') && DrainInv(s) && Unattended(e)
    ensures Potential(s') + (if e.Claim? then 1 else 0) <= Potential(s)
  {
    if e.Claim? {
      PotentialClaim(s, e, s');
    } else if e.Spawn? {
      PotentialSpawn(s, e, s');
    } else {
      forall id | id in s'.rows ensures id in s.rows && RowCost(s'.rows[id], s'.fan) <= RowCost(s.rows[id], s.fan) {
        RowCostStep(s, e, s', id);
      }
      TotalMonotone(RowCosts(s'), RowCosts(s));
      TotalMonotone(HoldCosts(s'), HoldCosts(s));
    }
  }

  /** A claim of a waiting row costs it one try, and that try pays for the deliveries it may
      enqueue. */
  lemma ClaimPays(j: Job, sec: int, fan: nat)
    requires Waiting(j) && j.attempts >= 0
    ensures RowCost(Claimed(j, sec), fan) + Weight(j.kind, fan) <= RowCost(j, fan)
  {
    var k, after := Weight(j.kind, fan), Tries(Claimed(j, sec));
    assert after + 1 <= Tries(j);
    assert k * (after + 1) == k * after + k;
    ScaleMonotone(k, after + 1, Tries(j));
  }

  lemma ClaimCosts(s: State, e: Event, s': State)
    requires Step(s, e, s') && e.Claim?
    ensures RowCosts(s') == RowCosts(s)[e.id := RowCost(Claimed(s.rows[e.id], Seconds(s.now)), s.fan)]
  {
  }

  lemma ClaimCredits(s: State, e: Event, s': State)
    requires Step(s, e, s') && e.Claim?
    ensures HoldCosts(s') == HoldCosts(s)[e.w := Weight(s.rows[e.id].kind, s.fan) - 1]
  {
  }

  lemma PotentialClaim(s: State, e: Event, s': State)
    requires Step(s, e, s') && DrainInv(s) && e.Claim?
    ensures Potential(s') + 1 <= Potential(s)
  {
    var j := s.rows[e.id];
    var cost, credit: nat := RowCost(Claimed(j, Seconds(s.now)), s.fan), Weight(j.kind, s.fan) - 1;
    ClaimPays(j, Seconds(s.now), s.fan);
    ClaimCosts(s, e, s');
    ClaimCredits(s, e, s');
    TotalUpdate(RowCosts(s), e.id, cost);
    TotalUpdate(HoldCosts(s), e.w, credit);
  }

  lemma SpawnCosts(s: State, e: Event, s': State)
    requires Step(s, e, s') && e.Spawn?
    ensures RowCosts(s') == RowCosts(s)[e.id := MAX_ATTEMPTS]
  {
    FanoutHasTwoLevels(s.holds[e.w].kind);
    assert RowCost(s'.rows[e.id], s.fan) == MAX_ATTEMPTS;
  }

  lemma SpawnCredits(s: State, e: Event, s': State)
    requires Step(s, e, s') && e.Spawn?
    ensures HoldCosts(s') == HoldCosts(s)[e.w := MAX_ATTEMPTS * (s.holds[e.w].left - 1)]
  {
  }

  lemma PotentialSpawn(s: State, e: Event, s': State)
    requires Step(s, e, s') && DrainInv(s) && e.Spawn?
    ensures Potential(s') <= Potential(s)
  {
    SpawnCosts(s, e, s');
    SpawnCredits(s, e, s');
    TotalUpdate(RowCosts(s), e.id, MAX_ATTEMPTS);
    TotalUpdate(HoldCosts(s), e.w, MAX_ATTEMPTS * (s.holds[e.w].left - 1));
  }

  /** The queue drains: in a run that keeps the lease and sees no new request, Retry, panic or
      sweep with a failed first statement, the number of Claims is bounded by the potential of the state it starts in, whatever is
      left over from earlier runs and however workers crash and sweepers interleave. */
  lemma {:induction false} QueueDrains(ss: seq<State>, es: seq<Event>)
    requires Trace(ss, es) && Disciplined(ss, es) && DrainInv(ss[0])
    requires forall i :: 0 <= i < |es| ==> Unattended(es[i])
    ensures AllClaims(es) <= Potential(ss[0])
    decreases |es|
  {
    if es != [] {
      assert Step(ss[0], es[0], ss[1]);
      assert Prompt(ss[0]) && Courteous(ss[0], es[0]);
      DrainInvStep(ss[0], es[0], ss[1]);
      PotentialStep(ss[0], es[0], ss[1]);
      QueueDrains(ss[1..], es[1..]);
    }
  }
}
