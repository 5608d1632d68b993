/** The worker's goroutine pool: the serve loop with its adaptive semaphore, and the batch. */
module Pool {
  import opened Prelude
  import opened JobTable
  import opened Lease

  const DEFAULT_MIN: int := 8
  const DEFAULT_MAX: int := 32
  const DEFAULT_RETENTION: int := 7
  const REEVALUATE_EVERY: int := 10

  // ---------------------------------------------------------------- configuration

  /** What the end of an execution leaves of its row: done after success; after an error dead from the
      fifth attempt on, and before that waiting for 30, 60, 120 and 240 s; after a panic waiting for
      30 s, whichever attempt it was. */
  ghost predicate Settled(was: Job, row: Job, outcome: Outcome, attempts: int, now: int) {
    match outcome
    case Succeeded => IsCompleted(was, row, Seconds(now))
    case Panicked(msg) => IsPostponed(was, row, Seconds(now) + 30, "panic: " + msg)
    case Errored(msg) =>
      && (attempts >= 5 ==> IsBuried(was, row, Seconds(now), "max attempts (5) reached: " + msg))
      && (attempts < 5 ==> exists sec :: IsPostponed(was, row, sec, msg))
      && (attempts == 1 ==> IsPostponed(was, row, Seconds(now) + 30, msg))
      && (attempts == 2 ==> IsPostponed(was, row, Seconds(now) + 60, msg))
      && (attempts == 3 ==> IsPostponed(was, row, Seconds(now) + 120, msg))
      && (attempts == 4 ==> IsPostponed(was, row, Seconds(now) + 240, msg))
  }

  lemma FourDelays()
    ensures Delay(1) == 30 && Delay(2) == 60 && Delay(3) == 120 && Delay(4) == 240
  {
    assert Delay(2) == 2 * Delay(1) && Delay(3) == 2 * Delay(2) && Delay(4) == 2 * Delay(3);
  }

  class Worker {
    const queue: JobQueue
    const minConcurrency: int
    const maxConcurrency: int
    const retentionDays: int

    /** Zero or less asks for a default; the upper bound is raised to the lower one. */
    constructor (q: JobQueue, minC: int, maxC: int, days: int)
      ensures queue == q
      ensures 1 <= minConcurrency <= maxConcurrency && retentionDays >= 1
      ensures minConcurrency == if minC > 0 then minC else 8
      ensures var asked := if maxC > 0 then maxC else 32;
              maxConcurrency == if asked < minConcurrency then minConcurrency else asked
      ensures retentionDays == if days > 0 then days else 7
    {
      var lo := if minC <= 0 then DEFAULT_MIN else minC;
      var hi := if maxC <= 0 then DEFAULT_MAX else maxC;
      if hi < lo { hi := lo; }
      queue := q;
      minConcurrency := lo;
      maxConcurrency := hi;
      retentionDays := if days <= 0 then DEFAULT_RETENTION else days;
    }

    /** One claimed job from the start of its handler to what is written about it. The handler
        itself is the parameter outcome; a kind without a handler is completed. */
    method Execute(id: Id, job: Job, outcome: Outcome, now: int)
      modifies queue
      ensures queue.rows == AfterSettle(old(queue.rows), id, job.attempts,
                                        if job.kind.UnknownKind? then Succeeded else outcome, now)
      ensures id !in old(queue.rows) ==> queue.rows == old(queue.rows)
      ensures id in old(queue.rows) ==>
                && OnlyRow(old(queue.rows), queue.rows, id)
                && Settled(old(queue.rows)[id], queue.rows[id], if job.kind.UnknownKind? then Succeeded else outcome, job.attempts, now)
    {
      if job.kind.UnknownKind? {
        queue.Complete(id, now);
        return;
      }
      match outcome
      case Errored(msg) =>
        if job.attempts >= MAX_ATTEMPTS {
          queue.Bury(id, now, "max attempts (5) reached: " + msg);
        } else {
          FourDelays();
          SecondsLaws(now, now, Delay(job.attempts));
          queue.Fail(id, now + Delay(job.attempts) * SECOND, msg);
        }
      case Panicked(msg) =>
        SecondsLaws(now, now, 30);
        queue.Fail(id, now + PANIC_DELAY, "panic: " + msg);
      case Succeeded =>
        queue.Complete(id, now);
    }
  }

  /** The level for a number of pending jobs; None stands for a failed statistics query. */
  function Decide(lo: int, hi: int, pending: Option<int>): (c: int)
    requires lo <= hi
    ensures lo <= c <= hi
    ensures pending.None? || pending.value < 100 ==> c == lo
    ensures pending.Some? && 100 <= pending.value < 500 ==> c - lo <= hi - c <= c - lo + 1   // the middle, rounded down
    ensures pending.Some? && pending.value >= 500 ==> c == hi
  {
    match pending
    case None => lo
    case Some(p) => if p >= 500 then hi else if p >= 100 then (lo + hi) / 2 else lo
  }

  // ---------------------------------------------------------------- the pool as a state machine

  type Gid = nat

  /** A job goroutine holds a token of the channel it was started under until it gives one back;
      after that it only has to report to the wait group. */
  datatype Life = Busy(channel: nat) | Released

  datatype Mode = Serve | Batch(limit: int)

  /** Where the dispatching loop stands. */
  datatype Point =
    | Top                          // about to claim
    | Evaluate(haveJob: bool)      // about to query the statistics
    | Draining(next: int, haveJob: bool)  // waiting for the group before it swaps the semaphore
    | Acquire                      // holding a job, about to send on the semaphore
    | Launch                       // token sent, goroutine not yet started
    | Rest                         // between polls
    | Stopping                     // waiting for the group before it returns
    | Returned(count: int)

  datatype Pool = Pool(
    mode: Mode,
    lo: int,
    hi: int,
    cap: int,                      // capacity of the current channel
    channel: nat,                  // the channel the variable sem refers to
    tokens: map<nat, nat>,         // tokens in each channel made so far
    group: map<Gid, Life>,         // goroutines the wait group counts
    point: Point,
    sinceEval: int,
    processed: int,                // counter of the batch
    claims: nat)                   // jobs claimed so far

  datatype Action =
    | Claim(found: bool)
    | GiveUp                       // the batch's context has expired
    | Stats(pending: Option<int>)
    | Swap
    | Send
    | Go(g: Gid)
    | Receive(g: Gid)              // a goroutine takes a token from the channel sem refers to now
    | Done(g: Gid)
    | Wake
    | Stop
    | Return

  function Tokens(p: Pool): nat {
    if p.channel in p.tokens then p.tokens[p.channel] else 0
  }

  predicate Able(p: Pool, a: Action) {
    match a
    case Claim(_) => p.point.Top? && (p.mode.Batch? ==> p.processed < p.mode.limit)
    case GiveUp => p.point.Top? && p.mode.Batch?
    case Stats(_) => p.point.Evaluate?
    case Swap => p.point.Draining? && p.group == map[]
    case Send => p.point.Acquire? && Tokens(p) < p.cap
    case Go(g) => p.point.Launch? && g !in p.group
    case Receive(g) => g in p.group && p.group[g].Busy? && Tokens(p) > 0
    case Done(g) => g in p.group && p.group[g].Released?
    case Wake => p.point.Rest?
    case Stop => p.point.Rest?
    case Return => p.group == map[] && (p.point.Stopping? || (p.point.Top? && p.mode.Batch? && p.processed >= p.mode.limit))
  }

  function Next(p: Pool, a: Action): Pool
    requires Able(p, a) && p.lo <= p.hi
  {
    match a
    case Claim(found) =>
      if p.mode.Batch? then
        if found then p.(point := Acquire, processed := p.processed + 1, claims := p.claims + 1)
        else p.(point := Stopping)
      else if !found then p.(point := Evaluate(false), sinceEval := 0)
      else if p.sinceEval + 1 >= REEVALUATE_EVERY then
        p.(point := Evaluate(true), sinceEval := 0, claims := p.claims + 1)
      else p.(point := Acquire, sinceEval := p.sinceEval + 1, claims := p.claims + 1)
    case GiveUp => p.(point := Stopping)
    case Stats(pending) =>
      var c := Decide(p.lo, p.hi, pending);
      if c != p.cap then p.(point := Draining(c, p.point.haveJob))
      else p.(point := if p.point.haveJob then Acquire else Rest)
    case Swap =>
      p.(cap := p.point.next, channel := p.channel + 1, tokens := p.tokens[p.channel + 1 := 0],
         point := if p.point.haveJob then Acquire else Rest)
    case Send => p.(tokens := p.tokens[p.channel := Tokens(p) + 1], point := Launch)
    case Go(g) => p.(group := p.group[g := Busy(p.channel)], point := Top)
    case Receive(g) => p.(tokens := p.tokens[p.channel := Tokens(p) - 1], group := p.group[g := Released])
    case Done(g) => p.(group := p.group - {g})
    case Wake => p.(point := Top)
    case Stop => p.(point := Stopping)
    case Return => p.(point := Returned(p.processed))
  }

  /** Run starts at its lower bound, RunBatch at the level the queue asks for. */
  predicate Start(p: Pool) {
    && 1 <= p.lo <= p.hi && p.lo <= p.cap <= p.hi
    && p.channel == 0 && p.tokens == map[0 := 0] && p.group == map[]
    && p.point == Top && p.sinceEval == 0 && p.processed == 0 && p.claims == 0
  }

  ghost predicate Run(ps: seq<Pool>, acts: seq<Action>) {
    && |ps| == |acts| + 1 && Start(ps[0])
    && forall i :: 0 <= i < |acts| ==>
         ps[i].lo <= ps[i].hi && Able(ps[i], acts[i]) && ps[i + 1] == Next(ps[i], acts[i])
  }

  /** The goroutines that hold a token: those whose job is not finished. */
  function Working(group: map<Gid, Life>): set<Gid> {
    set g | g in group && group[g].Busy?
  }

  /** The level stays between the bounds, also the one about to be taken. */
  ghost predicate LevelInv(p: Pool) {
    && 1 <= p.lo <= p.hi && p.lo <= p.cap <= p.hi
    && (p.point.Draining? ==> p.lo <= p.point.next <= p.hi)
  }

  /** Only the current channel has tokens, and every token holder sent to it. */
  ghost predicate ChannelInv(p: Pool) {
    && p.channel in p.tokens
    && (forall c :: c in p.tokens ==> c <= p.channel && (c != p.channel ==> p.tokens[c] == 0))
    && (forall g :: g in p.group && p.group[g].Busy? ==> p.group[g].channel == p.channel)
  }

  /** One token for each goroutine at work, and one for the goroutine about to start. */
  ghost predicate TokenInv(p: Pool) {
    Tokens(p) == |Working(p.group)| + (if p.point.Launch? then 1 else 0) <= p.cap
  }

  ghost predicate BatchInv(p: Pool) {
    && (p.mode.Serve? ==> p.processed == 0)
    && (p.mode.Batch? ==> p.claims == p.processed <= (if p.mode.limit > 0 then p.mode.limit else 0)
                          && !p.point.Evaluate? && !p.point.Draining? && !p.point.Rest?)
    && (p.point.Returned? ==> p.point.count == p.processed && p.group == map[])
  }

  ghost predicate PoolInv(p: Pool) {
    LevelInv(p) && ChannelInv(p) && TokenInv(p) && BatchInv(p)
  }

  lemma WorkingChanges(p: Pool, a: Action)
    requires LevelInv(p) && Able(p, a)
    ensures a.Go? ==> Working(Next(p, a).group) == Working(p.group) + {a.g} && a.g !in Working(p.group)
    ensures a.Receive? ==> Working(Next(p, a).group) == Working(p.group) - {a.g} && a.g in Working(p.group)
    ensures !a.Go? && !a.Receive? ==> Working(Next(p, a).group) == Working(p.group)
    ensures a.Swap? ==> Working(p.group) == {}
  {
  }

  lemma TokenStep(p: Pool, a: Action)
    requires PoolInv(p) && Able(p, a)
    ensures TokenInv(Next(p, a))
  {
    WorkingChanges(p, a);
  }

  lemma ChannelStep(p: Pool, a: Action)
    requires PoolInv(p) && Able(p, a)
    ensures ChannelInv(Next(p, a))
  {
    WorkingChanges(p, a);
  }

  lemma PoolStep(p: Pool, a: Action)
    requires PoolInv(p) && Able(p, a)
    ensures PoolInv(Next(p, a))
  {
    TokenStep(p, a);
    ChannelStep(p, a);
  }

  lemma {:induction false} PoolHolds(ps: seq<Pool>, acts: seq<Action>, i: nat)
    requires Run(ps, acts) && i < |ps|
    ensures PoolInv(ps[i])
  {
    if i == 0 {
      assert Working(ps[0].group) == {};
    } else {
      PoolHolds(ps, acts, i - 1);
      PoolStep(ps[i - 1], acts[i - 1]);
    }
  }

  /** Concurrency cap over every run: the jobs being worked on never outnumber the current level,
      and the level stays between the configured bounds. */
  lemma ConcurrencyCap(ps: seq<Pool>, acts: seq<Action>, i: nat)
    requires Run(ps, acts) && i < |ps|
    ensures |Working(ps[i].group)| <= ps[i].cap
    ensures ps[i].lo <= ps[i].cap <= ps[i].hi
  {
    PoolHolds(ps, acts, i);
  }

  /** Although the goroutine reads the variable sem only when it finishes, it always finds there
      the channel it sent to, and a token in it: its release never blocks. */
  lemma ReleaseMatchesAcquire(ps: seq<Pool>, acts: seq<Action>, i: nat, g: Gid)
    requires Run(ps, acts) && i < |ps|
    requires g in ps[i].group && ps[i].group[g].Busy?
    ensures ps[i].group[g].channel == ps[i].channel
    ensures Able(ps[i], Receive(g))
  {
    PoolHolds(ps, acts, i);
    assert g in Working(ps[i].group);
    assert |Working(ps[i].group)| > 0;
  }

  /** A semaphore is replaced only when nothing holds a token of any channel. */
  lemma SwapFindsChannelsEmpty(ps: seq<Pool>, acts: seq<Action>, i: nat)
    requires Run(ps, acts) && i < |acts| && acts[i].Swap?
    ensures ps[i].group == map[]
    ensures forall c :: c in ps[i].tokens ==> ps[i].tokens[c] == 0
  {
    PoolHolds(ps, acts, i);
    assert Working(ps[i].group) == {};
  }

  /** A batch claims at most limit jobs, none when the limit is not positive, and returns exactly
      the number it claimed, after the last of them has reported. */
  lemma BatchReturnsItsClaims(ps: seq<Pool>, acts: seq<Action>, i: nat)
    requires Run(ps, acts) && i < |ps| && ps[i].mode.Batch? && ps[i].point.Returned?
    ensures ps[i].point.count == ps[i].claims
    ensures ps[i].claims <= if ps[i].mode.limit > 0 then ps[i].mode.limit else 0
    ensures ps[i].group == map[]
  {
    PoolHolds(ps, acts, i);
  }

  // ---------------------------------------------------------------- the level follows the queue

  /** While the loop waits for the group, nothing changes the level it is going to take. */
  lemma {:induction false} NextLevelStays(ps: seq<Pool>, acts: seq<Action>, i: nat, k: nat)
    requires Run(ps, acts) && i < k < |ps| && forall j :: i < j <= k ==> ps[j].point.Draining?
    ensures ps[k].point.next == ps[i + 1].point.next && ps[k].lo == ps[i + 1].lo && ps[k].hi == ps[i + 1].hi
    decreases k
  {
    if k > i + 1 { NextLevelStays(ps, acts, i, k - 1); }
  }

  /** A look at the queue takes effect: when the loop goes on after it, at once or after waiting for the
      goroutines, the level is the lower bound for fewer than 100 pending jobs or without statistics, the
      middle below 500 and the upper bound from there on. */
  lemma EvaluationTakesEffect(ps: seq<Pool>, acts: seq<Action>, i: nat, k: nat)
    requires Run(ps, acts) && i < k < |ps| && acts[i].Stats?
    requires (forall j :: i < j < k ==> ps[j].point.Draining?) && !ps[k].point.Draining?
    ensures var pending, lo, hi := acts[i].pending, ps[i].lo, ps[i].hi;
            && (pending.None? || pending.value < 100 ==> ps[k].cap == lo)
            && (pending.Some? && 100 <= pending.value < 500 ==> 2 * ps[k].cap <= lo + hi < 2 * ps[k].cap + 2)
            && (pending.Some? && pending.value >= 500 ==> ps[k].cap == hi)
  {
    if k > i + 1 {
      NextLevelStays(ps, acts, i, k - 1);
      assert acts[k - 1].Swap? || ps[k].point == ps[k - 1].point;
    }
  }

  lemma {:induction false} ModeStays(ps: seq<Pool>, acts: seq<Action>, i: nat)
    requires Run(ps, acts) && i < |ps|
    ensures ps[i].mode == ps[0].mode && (ps[0].mode.Serve? ==> 0 <= ps[i].sinceEval <= 9)
  {
    if i > 0 { ModeStays(ps, acts, i - 1); }
  }

  /** Nor can the loop go on for long without a look: of ten jobs claimed in a row at least the last
      leads to one, and so does every poll that finds nothing. */
  lemma {:induction false} LooksAtTheQueue(ps: seq<Pool>, acts: seq<Action>, i: nat, k: nat)
    requires Run(ps, acts) && ps[0].mode.Serve? && i <= k < |ps|
    requires forall j :: i < j <= k ==> !ps[j].point.Evaluate?
    ensures ps[k].claims - ps[i].claims == ps[k].sinceEval - ps[i].sinceEval
    ensures ps[i].claims <= ps[k].claims <= ps[i].claims + 9
    ensures forall j :: i <= j < k ==> acts[j] != Action.Claim(false)
    decreases k
  {
    ModeStays(ps, acts, i);
    ModeStays(ps, acts, k);
    if k > i {
      ModeStays(ps, acts, k - 1);
      LooksAtTheQueue(ps, acts, i, k - 1);
    }
  }

  // ---------------------------------------------------------------- progress

  /** A goroutine of the group can always move: it finds its token, or it reports. */
  lemma GoroutinesMove(p: Pool, g: Gid)
    requires PoolInv(p) && g in p.group
    ensures Able(p, Receive(g)) || Able(p, Action.Done(g))
  {
    if p.group[g].Busy? {
      assert g in Working(p.group);
      assert |Working(p.group)| > 0;
    }
  }

  /** While no goroutine is left, the dispatching loop itself can move. */
  lemma LoopMovesAlone(p: Pool) returns (a: Action)
    requires PoolInv(p) && p.group == map[] && !p.point.Returned?
    ensures Able(p, a)
  {
    assert Working(p.group) == {};
    match p.point
    case Top => a := if p.mode.Batch? && p.processed >= p.mode.limit then Return else Action.Claim(false);
    case Evaluate(_) => a := Stats(None);
    case Draining(_, _) => a := Swap;
    case Acquire => a := Send;
    case Launch => a := Go(0);
    case Rest => a := Wake;
    case Stopping => a := Return;
  }

  /** The pool never gets stuck: in every reachable state in which the loop has not returned, some
      goroutine or the loop can take a step. */
  lemma NeverStuck(ps: seq<Pool>, acts: seq<Action>, i: nat)
    requires Run(ps, acts) && i < |ps| && !ps[i].point.Returned?
    ensures exists a :: Able(ps[i], a)
  {
    PoolHolds(ps, acts, i);
    if ps[i].group == map[] {
      var a := LoopMovesAlone(ps[i]);
    } else {
      var g :| g in ps[i].group;
      GoroutinesMove(ps[i], g);
    }
  }

  // ---------------------------------------------------------------- jobs, not goroutines

  function Crowd(i: nat): Pool
    requires i <= 7
  {
    match i
    case 0 => Pool(Serve, 1, 1, 1, 0, map[0 := 0], map[], Top, 0, 0, 0)
    case 1 => Crowd(0).(point := Acquire, sinceEval := 1, claims := 1)
    case 2 => Crowd(1).(tokens := map[0 := 1], point := Launch)
    case 3 => Crowd(2).(group := map[5 := Busy(0)], point := Top)
    case 4 => Crowd(3).(tokens := map[0 := 0], group := map[5 := Released])
    case 5 => Crowd(4).(point := Acquire, sinceEval := 2, claims := 2)
    case 6 => Crowd(5).(tokens := map[0 := 1], point := Launch)
    case 7 => Crowd(6).(group := map[5 := Released, 6 := Busy(0)], point := Top)
  }

  const CROWD_ACTIONS: seq<Action> :=
    [Action.Claim(true), Send, Go(5), Receive(5), Action.Claim(true), Send, Go(6)]

  lemma CrowdStep(i: nat)
    requires i < 7
    ensures Crowd(i).lo <= Crowd(i).hi && Able(Crowd(i), CROWD_ACTIONS[i])
    ensures Next(Crowd(i), CROWD_ACTIONS[i]) == Crowd(i + 1)
  {
    match i
    case 0 => case 1 => case 2 => case 3 => case 4 => case 5 => case 6 =>
  }

  /** The cap is on jobs, not on goroutines: with a level of one, a goroutine that has given its
      token back but not yet reported is still there when the next one starts. */
  lemma GoroutinesMayExceedCap() returns (ps: seq<Pool>)
    ensures Run(ps, CROWD_ACTIONS)
    ensures |ps[7].group| > ps[7].cap
  {
    ps := seq(8, i requires 0 <= i < 8 => Crowd(i));
    forall i | 0 <= i < 7
      ensures ps[i].lo <= ps[i].hi && Able(ps[i], CROWD_ACTIONS[i]) && ps[i + 1] == Next(ps[i], CROWD_ACTIONS[i])
    {
      CrowdStep(i);
    }
    assert ps[7].group.Keys == {5, 6};
    assert |ps[7].group| == |ps[7].group.Keys|;
  }
}
