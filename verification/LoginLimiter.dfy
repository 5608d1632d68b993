/** Login attempts are counted by address; from the fifth failure on, each one locks for 300 s. */
module LoginLimiter {
  import opened Prelude

  const MAX_ATTEMPTS: nat := 5
  const LOCK: int := 300

  /** A row of login_attempts; the end of the lock is a whole second, or absent. */
  datatype Entry = Entry(fails: nat, lockedUntil: Option<int>)

  type Attempts = map<string, Entry>

  /** Which of the store calls of a request fail: the read of the lock, the read of the count, the record
      of a failure, the clearing after a success. The handler looks at none of these errors; a failed
      read gives zero and no lock. */
  datatype Faults = Faults(check: bool, count: bool, record: bool, clear: bool)

  const NO_FAULTS: Faults := Faults(false, false, false, false)

  /** What a request brings and what checking it would find. The lock is read at start, and a failure
      is recorded at done. */
  datatype Request = Request(
    ip: string, password: string, available: bool, passwordRight: bool,
    codeWanted: bool, code: string, codeRight: bool, start: int, done: int, faults: Faults)

  datatype Answer = PasswordRequired | TooMany | Unavailable | WrongPassword | CodeRequired | WrongCode | LoggedIn

  predicate Locked(a: Attempts, r: Request) {
    !r.faults.check && r.ip in a && a[r.ip].lockedUntil.Some? && r.start < a[r.ip].lockedUntil.value * SECOND
  }

  function AnswerTo(a: Attempts, r: Request): Answer {
    if r.password == "" then PasswordRequired
    else if Locked(a, r) then TooMany
    else if !r.available then Unavailable
    else if !r.passwordRight then WrongPassword
    else if r.codeWanted && r.code == "" then CodeRequired
    else if r.codeWanted && !r.codeRight then WrongCode
    else LoggedIn
  }

  function FailsOf(a: Attempts, ip: string): nat {
    if ip in a then a[ip].fails else 0
  }

  /** One failure more; the lock is decided by the count as it was read. */
  function Recorded(a: Attempts, ip: string, done: int, f: Faults): Attempts {
    var read := if f.count then 0 else FailsOf(a, ip);
    if f.record then a
    else a[ip := Entry(FailsOf(a, ip) + 1, if read + 1 >= MAX_ATTEMPTS then Some(Seconds(done + LOCK * SECOND)) else None)]
  }

  predicate Failure(x: Answer) {
    x.WrongPassword? || x.WrongCode?
  }

  function AfterLogin(a: Attempts, r: Request): Attempts {
    var x := AnswerTo(a, r);
    if r.ip == "" then a
    else if Failure(x) then Recorded(a, r.ip, r.done, r.faults)
    else if x.LoggedIn? && !r.faults.clear then a - {r.ip}
    else a
  }

  /** The address is locked, and the lock can be read. */
  predicate MustWait(a: Attempts, r: Request) {
    r.ip != "" && !r.faults.check && r.ip in a && a[r.ip].lockedUntil.Some? && r.start < a[r.ip].lockedUntil.value * 1_000_000_000
  }

  /** When each answer is given. */
  predicate Answered(a: Attempts, r: Request, x: Answer) {
    var asked := r.password != "" && !MustWait(a, r) && r.available;
    && (x.LoggedIn? <==> asked && r.passwordRight && (r.codeWanted ==> r.code != "" && r.codeRight))
    && (x.PasswordRequired? <==> r.password == "")
    && (x.TooMany? <==> r.password != "" && MustWait(a, r))
    && (x.Unavailable? <==> r.password != "" && !MustWait(a, r) && !r.available)
    && (x.WrongPassword? <==> asked && !r.passwordRight)
    && (x.CodeRequired? <==> asked && r.passwordRight && r.codeWanted && r.code == "")
    && (x.WrongCode? <==> asked && r.passwordRight && r.codeWanted && r.code != "" && !r.codeRight)
  }

  /** A wrong password or code adds one to the count of the address, and from the fifth counted on
      locks it for 300 s; a login clears it; every other answer, and a store call that fails, leaves all
      records as they were. Other addresses keep theirs. */
  ghost predicate Accounted(a: Attempts, b: Attempts, r: Request, x: Answer) {
    var before := if r.ip in a then a[r.ip].fails else 0;
    if (x.WrongPassword? || x.WrongCode?) && r.ip != "" && !r.faults.record then
      && b.Keys == a.Keys + {r.ip} && (forall k :: k in a && k != r.ip ==> b[k] == a[k])
      && b[r.ip].fails == before + 1
      && b[r.ip].lockedUntil == if before >= 4 && !r.faults.count then Some(r.done / 1_000_000_000 + 300) else None
    else if x.LoggedIn? && r.ip != "" && !r.faults.clear then
      b.Keys == a.Keys - {r.ip} && forall k :: k in b ==> b[k] == a[k]
    else b == a
  }

  class Limiter {
    var attempts: Attempts

    constructor ()
      ensures attempts == map[]
    {
      attempts := map[];
    }

    method GetLoginAttempt(ip: string, fault: bool) returns (fails: nat, lockedUntil: Option<int>)
      ensures fails == if fault then 0 else FailsOf(attempts, ip)
      ensures lockedUntil == if !fault && ip in attempts then attempts[ip].lockedUntil else None
    {
      if fault || ip !in attempts { return 0, None; }
      return attempts[ip].fails, attempts[ip].lockedUntil;
    }

    /** One more failure; the lock is replaced, also by none. */
    method RecordLoginFailure(ip: string, lockedUntil: Option<int>, fault: bool)
      modifies this
      ensures attempts == if fault then old(attempts) else
                old(attempts)[ip := Entry(FailsOf(old(attempts), ip) + 1,
                  match lockedUntil { case None => None case Some(t) => Some(Seconds(t)) })]
    {
      if fault { return; }
      var stored := match lockedUntil { case None => None case Some(t) => Some(Seconds(t)) };
      if ip in attempts {
        attempts := attempts[ip := Entry(attempts[ip].fails + 1, stored)];
      } else {
        attempts := attempts[ip := Entry(1, stored)];
      }
    }

    method ClearLoginAttempts(ip: string, fault: bool)
      modifies this
      ensures attempts == if fault then old(attempts) else old(attempts) - {ip}
    {
      if !fault { attempts := attempts - {ip}; }
    }

    method NoteFailure(ip: string, done: int, f: Faults)
      requires ip != ""
      modifies this
      ensures attempts == Recorded(old(attempts), ip, done, f)
    {
      var failCount, _ := GetLoginAttempt(ip, f.count);
      var lockUntil: Option<int> := None;
      if failCount + 1 >= MAX_ATTEMPTS { lockUntil := Some(done + LOCK * SECOND); }
      RecordLoginFailure(ip, lockUntil, f.record);
    }

    method Login(r: Request) returns (x: Answer)
      modifies this
      ensures r.ip != "" ==> x == AnswerTo(old(attempts), r)
      ensures r.ip == "" ==> x == AnswerTo(map[], r)
      ensures attempts == AfterLogin(old(attempts), r)
      ensures Answered(old(attempts), r, x) && Accounted(old(attempts), attempts, r, x)
    {
      SecondsLaws(r.done, r.done, LOCK);
      if r.password == "" { return PasswordRequired; }
      if r.ip != "" {
        var _, lockedUntil := GetLoginAttempt(r.ip, r.faults.check);
        if lockedUntil.Some? && r.start < lockedUntil.value * SECOND { return TooMany; }
      }
      if !r.available { return Unavailable; }
      if !r.passwordRight {
        if r.ip != "" { NoteFailure(r.ip, r.done, r.faults); }
        return WrongPassword;
      }
      if r.codeWanted {
        if r.code == "" { return CodeRequired; }
        if !r.codeRight {
          if r.ip != "" { NoteFailure(r.ip, r.done, r.faults); }
          return WrongCode;
        }
      }
      if r.ip != "" { ClearLoginAttempts(r.ip, r.faults.clear); }
      return LoggedIn;
    }
  }

  // ---------------------------------------------------------------- runs

  function Run(rs: seq<Request>): Attempts {
    if rs == [] then map[] else AfterLogin(Run(rs[..|rs| - 1]), rs[|rs| - 1])
  }

  /** The answer to request i of a run. */
  function AnswerAt(rs: seq<Request>, i: nat): Answer
    requires i < |rs|
  {
    AnswerTo(Run(rs[..i]), rs[i])
  }

  /** The requests from one address come one after the other; those from others may overlap them. */
  ghost predicate SequentialFor(rs: seq<Request>, ip: string) {
    && (forall i :: 0 <= i < |rs| && rs[i].ip == ip ==> rs[i].start <= rs[i].done)
    && (forall i, j :: 0 <= i < j < |rs| && rs[i].ip == ip == rs[j].ip ==> rs[i].done <= rs[j].start)
  }

  /** The requests from an address whose attempt was checked and found wrong. */
  function Rejections(rs: seq<Request>, ip: string): seq<Request> {
    if rs == [] then []
    else
      var front := rs[..|rs| - 1];
      var r := rs[|rs| - 1];
      if r.ip == ip && Failure(AnswerTo(Run(front), r)) then Rejections(front, ip) + [r] else Rejections(front, ip)
  }

  /** The second of a rejection. */
  function Stamp(r: Request): int {
    Seconds(r.done)
  }

  ghost predicate NoSuccess(rs: seq<Request>, ip: string) {
    forall i :: 0 <= i < |rs| && rs[i].ip == ip ==> !AnswerAt(rs, i).LoggedIn?
  }

  /** How many rejections went into the record. */
  function RecordedIn(t: seq<Request>): nat {
    if t == [] then 0 else RecordedIn(t[..|t| - 1]) + if t[|t| - 1].faults.record then 0 else 1
  }

  predicate Faulty(r: Request) {
    r.faults.check || r.faults.count || r.faults.record
  }

  /** How many rejections had a store call fail. */
  function FaultsIn(t: seq<Request>): nat {
    if t == [] then 0 else FaultsIn(t[..|t| - 1]) + if Faulty(t[|t| - 1]) then 1 else 0
  }

  /** The lock after a recorded rejection. */
  function LockAfter(t: seq<Request>): Option<int>
    requires t != []
  {
    var last := t[|t| - 1];
    if !last.faults.count && RecordedIn(t) >= MAX_ATTEMPTS then Some(Stamp(last) + LOCK) else None
  }

  lemma FrontHasNoSuccess(rs: seq<Request>, ip: string)
    requires rs != [] && NoSuccess(rs, ip)
    ensures NoSuccess(rs[..|rs| - 1], ip)
  {
    var front := rs[..|rs| - 1];
    forall i | 0 <= i < |front| && front[i].ip == ip ensures !AnswerAt(front, i).LoggedIn? {
      assert front[..i] == rs[..i];
      assert !AnswerAt(rs, i).LoggedIn?;
    }
  }

  lemma OneMoreIn(t: seq<Request>, r: Request)
    ensures RecordedIn(t + [r]) == RecordedIn(t) + if r.faults.record then 0 else 1
    ensures FaultsIn(t + [r]) == FaultsIn(t) + if Faulty(r) then 1 else 0
  {
    assert (t + [r])[..|t|] == t;
  }

  /** The record of an address agrees with its rejections t. */
  ghost predicate Agrees(a: Attempts, t: seq<Request>, ip: string) {
    && FailsOf(a, ip) == RecordedIn(t) && (ip in a <==> RecordedIn(t) > 0)
    && (t != [] && !t[|t| - 1].faults.record ==> ip in a && a[ip].lockedUntil == LockAfter(t))
  }

  lemma RejectionAgrees(a: Attempts, t: seq<Request>, r: Request)
    requires r.ip != "" && Agrees(a, t, r.ip) && Failure(AnswerTo(a, r))
    ensures Agrees(AfterLogin(a, r), t + [r], r.ip)
  {
    OneMoreIn(t, r);
    SecondsLaws(r.done, r.done, LOCK);
  }

  lemma OthersAgree(a: Attempts, t: seq<Request>, r: Request, ip: string)
    requires Agrees(a, t, ip) && (r.ip == ip ==> !Failure(AnswerTo(a, r)) && !AnswerTo(a, r).LoggedIn?)
    ensures Agrees(AfterLogin(a, r), t, ip)
  {
  }

  /** The record of an address: the count of its recorded rejections and, if the last one was recorded,
      a lock of 300 s behind it from the fifth on, unless the count could not be read. */
  lemma {:induction false} RecordOf(rs: seq<Request>, ip: string)
    requires ip != "" && NoSuccess(rs, ip)
    ensures Agrees(Run(rs), Rejections(rs, ip), ip)
  {
    if rs != [] {
      var front, r := rs[..|rs| - 1], rs[|rs| - 1];
      FrontHasNoSuccess(rs, ip);
      RecordOf(front, ip);
      assert !(r.ip == ip && AnswerAt(rs, |rs| - 1).LoggedIn?);
      if r.ip == ip && Failure(AnswerTo(Run(front), r)) {
        RejectionAgrees(Run(front), Rejections(front, ip), r);
      } else {
        OthersAgree(Run(front), Rejections(front, ip), r, ip);
      }
    }
  }

  lemma {:induction false} RejectionsAreRequests(rs: seq<Request>, ip: string, k: nat) returns (i: nat)
    requires k < |Rejections(rs, ip)|
    ensures i < |rs| && rs[i] == Rejections(rs, ip)[k] && rs[i].ip == ip
  {
    var front := rs[..|rs| - 1];
    if k < |Rejections(front, ip)| {
      i := RejectionsAreRequests(front, ip, k);
    } else {
      i := |rs| - 1;
    }
  }

  /** The lock of the rejection before k was set, and k has read it. */
  ghost predicate Guarded(t: seq<Request>, k: nat)
    requires 1 <= k < |t|
  {
    !t[k - 1].faults.count && !t[k - 1].faults.record && RecordedIn(t[..k]) >= MAX_ATTEMPTS && !t[k].faults.check
  }

  ghost predicate SpacedOut(t: seq<Request>) {
    forall k: nat :: 1 <= k < |t| ==>
      Stamp(t[k - 1]) <= Stamp(t[k]) && (Guarded(t, k) ==> Stamp(t[k]) >= Stamp(t[k - 1]) + LOCK)
  }

  /** The next rejection comes no earlier than the one before, and at least 300 s later if that one set a
      lock. */
  lemma NextIsSpaced(front: seq<Request>, r: Request, ip: string)
    requires ip != "" && SequentialFor(front + [r], ip) && NoSuccess(front, ip)
    requires r.ip == ip && Failure(AnswerTo(Run(front), r)) && Rejections(front, ip) != []
    ensures var t := Rejections(front, ip);
            var last := t[|t| - 1];
            && Stamp(last) <= Stamp(r)
            && (!last.faults.count && !last.faults.record && RecordedIn(t) >= MAX_ATTEMPTS && !r.faults.check ==>
                  Stamp(r) >= Stamp(last) + LOCK)
  {
    var t := Rejections(front, ip);
    var rs := front + [r];
    var i := RejectionsAreRequests(front, ip, |t| - 1);
    assert rs[i] == t[|t| - 1] && rs[|front|] == r;
    assert rs[i].done <= rs[|front|].start <= rs[|front|].done;
    SecondsLaws(rs[i].done, r.done, 0);
    RecordOf(front, ip);
  }

  lemma SpacingGrows(t: seq<Request>, r: Request)
    requires SpacedOut(t)
    requires t != [] ==>
               && Stamp(t[|t| - 1]) <= Stamp(r)
               && (Guarded(t + [r], |t|) ==> Stamp(r) >= Stamp(t[|t| - 1]) + LOCK)
    ensures SpacedOut(t + [r])
  {
    var u := t + [r];
    forall k: nat | 1 <= k < |u|
      ensures Stamp(u[k - 1]) <= Stamp(u[k]) && (Guarded(u, k) ==> Stamp(u[k]) >= Stamp(u[k - 1]) + LOCK)
    {
      if k < |t| { assert u[..k] == t[..k] && (Guarded(u, k) <==> Guarded(t, k)); }
    }
  }

  /** Once five rejections are recorded, the next one comes at least 300 whole seconds after one that
      could set its lock, if it could read it. */
  lemma {:induction false} RejectionsAreSpaced(rs: seq<Request>, ip: string)
    requires ip != "" && SequentialFor(rs, ip) && NoSuccess(rs, ip)
    ensures SpacedOut(Rejections(rs, ip))
  {
    if rs != [] {
      var front, r := rs[..|rs| - 1], rs[|rs| - 1];
      FrontHasNoSuccess(rs, ip);
      RejectionsAreSpaced(front, ip);
      if r.ip == ip && Failure(AnswerTo(Run(front), r)) {
        var t := Rejections(front, ip);
        assert rs == front + [r];
        if t != [] {
          NextIsSpaced(front, r, ip);
          assert (t + [r])[..|t|] == t;
        }
        SpacingGrows(t, r);
      }
    }
  }

  // ---------------------------------------------------------------- the limit

  /** Gaps that may still turn out short: while fewer than five rejections are recorded, and after a
      rejection with a failed call. */
  function Pending(t: seq<Request>): nat {
    (if RecordedIn(t) < MAX_ATTEMPTS then MAX_ATTEMPTS - RecordedIn(t) else 0) +
    (if t != [] && Faulty(t[|t| - 1]) then 1 else 0)
  }

  lemma {:induction false} FaultsExplainTheRest(t: seq<Request>)
    ensures RecordedIn(t) <= |t| <= RecordedIn(t) + FaultsIn(t)
  {
    if t != [] { FaultsExplainTheRest(t[..|t| - 1]); }
  }

  /** Every failed call can make up to three gaps short. */
  lemma {:induction false} Budget(t: seq<Request>)
    requires |t| >= MAX_ATTEMPTS && SpacedOut(t)
    ensures LOCK * (|t| - MAX_ATTEMPTS + Pending(t) - 3 * FaultsIn(t)) <= Stamp(t[|t| - 1]) - Stamp(t[4])
  {
    FaultsExplainTheRest(t);
    var n := |t| - 1;
    if |t| > MAX_ATTEMPTS {
      var front := t[..n];
      forall k: nat | 1 <= k < |front|
        ensures Stamp(front[k - 1]) <= Stamp(front[k]) && (Guarded(front, k) ==> Stamp(front[k]) >= Stamp(front[k - 1]) + LOCK)
      {
        assert front[..k] == t[..k] && (Guarded(front, k) <==> Guarded(t, k));
      }
      Budget(front);
      assert Guarded(t, n) ==> Stamp(t[n]) >= Stamp(t[n - 1]) + LOCK;
    }
  }

  /** The limit: without a success, at most 5 + (t_last - t_5) / 300 attempts from an address are checked
      and rejected, and three more for each of them that had a failing store call. */
  lemma LimitHolds(rs: seq<Request>, ip: string)
    requires ip != "" && SequentialFor(rs, ip) && NoSuccess(rs, ip)
    ensures var t := Rejections(rs, ip);
            |t| > MAX_ATTEMPTS ==>
              |t| <= MAX_ATTEMPTS + (Stamp(t[|t| - 1]) - Stamp(t[4])) / LOCK + 3 * FaultsIn(t)
  {
    var t := Rejections(rs, ip);
    RejectionsAreSpaced(rs, ip);
    if |t| > MAX_ATTEMPTS { Budget(t); }
  }

  // ---------------------------------------------------------------- the limit is reached

  /** Five wrong passwords at once, then one each time the lock ends. */
  function PatientSecond(i: nat): int {
    if i < MAX_ATTEMPTS then 0 else LOCK * (i - 4)
  }

  function PatientRequest(i: nat): Request {
    var t := PatientSecond(i) * SECOND;
    Request("ip", "x", true, false, false, "", false, t, t, NO_FAULTS)
  }

  ghost predicate Patient(rs: seq<Request>) {
    forall i :: 0 <= i < |rs| ==> rs[i] == PatientRequest(i)
  }

  ghost predicate AllChecked(rs: seq<Request>) {
    Rejections(rs, "ip") == rs && NoSuccess(rs, "ip")
  }

  lemma {:induction false} NoneFaulty(t: seq<Request>)
    requires Patient(t)
    ensures RecordedIn(t) == |t| && FaultsIn(t) == 0
  {
    if t != [] { NoneFaulty(t[..|t| - 1]); }
  }

  lemma PatientStamp(i: nat)
    ensures Stamp(PatientRequest(i)) == PatientSecond(i)
  {
  }

  /** The lock has just ended. */
  lemma LockIsOver(a: Attempts, t: seq<Request>, n: nat)
    requires Agrees(a, t, "ip") && |t| == n == RecordedIn(t) && (n > 0 ==> t[n - 1] == PatientRequest(n - 1))
    ensures !Locked(a, PatientRequest(n))
  {
    if n >= MAX_ATTEMPTS {
      PatientStamp(n - 1);
      assert PatientSecond(n - 1) + LOCK <= PatientSecond(n);
    }
  }

  lemma NextIsChecked(rs: seq<Request>)
    requires Patient(rs) && AllChecked(rs)
    ensures AnswerTo(Run(rs), PatientRequest(|rs|)).WrongPassword?
  {
    RecordOf(rs, "ip");
    NoneFaulty(rs);
    LockIsOver(Run(rs), rs, |rs|);
  }

  lemma OneMore(rs: seq<Request>, r: Request, ip: string)
    requires NoSuccess(rs, ip) && r.ip == ip && Failure(AnswerTo(Run(rs), r))
    ensures Rejections(rs + [r], ip) == Rejections(rs, ip) + [r]
    ensures NoSuccess(rs + [r], ip)
  {
    var more := rs + [r];
    assert more[..|rs|] == rs;
    forall i | 0 <= i < |more| && more[i].ip == ip ensures !AnswerAt(more, i).LoggedIn? {
      if i < |rs| {
        assert more[..i] == rs[..i];
        assert !AnswerAt(rs, i).LoggedIn?;
      }
    }
  }

  /** Every one of these attempts is checked. */
  lemma {:induction false} PatientIsChecked(n: nat) returns (rs: seq<Request>)
    ensures |rs| == n && Patient(rs) && AllChecked(rs)
  {
    if n == 0 { return []; }
    var front := PatientIsChecked(n - 1);
    NextIsChecked(front);
    OneMore(front, PatientRequest(n - 1), "ip");
    rs := front + [PatientRequest(n - 1)];
  }

  /** So the bound cannot be lowered. */
  lemma LimitIsReached(n: nat) returns (rs: seq<Request>)
    requires n > MAX_ATTEMPTS
    ensures SequentialFor(rs, "ip") && NoSuccess(rs, "ip")
    ensures var t := Rejections(rs, "ip");
            |t| == n == MAX_ATTEMPTS + (Stamp(t[n - 1]) - Stamp(t[4])) / LOCK && FaultsIn(t) == 0
  {
    rs := PatientIsChecked(n);
    NoneFaulty(rs);
    PatientStamp(n - 1);
    PatientStamp(4);
  }
}
