/** The table behind the background job queue, one function for each SQL statement,
    and the queue object whose methods run those statements. */
module JobTable {
  import opened Prelude

  /** Identifiers are only compared for equality here. */
  type Id = nat

  datatype Kind =
    | AcceptFollow | RejectFollow
    | DeliverPost | DeliverNote
    | UpdatePost | DeliverUpdateNote
    | SendFollow
    | UpdateActor | DeliverUpdate
    | DeliverDelete | DeliverDeleteNote
    | SendUndoFollow | SendLike | SendUndoLike
    | SendAnnounce | SendUndoAnnounce | DeliverAnnounce
    | SendBlock | SendUndoBlock
    | FetchRemoteActor
    | UnknownKind(code: int)

  datatype Status = Pending | Running | Done | Failed | Dead

  /** A row. Times are whole seconds, as stored; completed is None while the column is ''. */
  datatype Job = Job(
    kind: Kind,
    payload: string,
    status: Status,
    attempts: int,
    lastError: string,
    nextRun: int,
    created: int,
    completed: Option<int>)

  type Table = map<Id, Job>

  const MAX_ATTEMPTS: int := 5

  // ---------------------------------------------------------------- statements

  /** The WHERE clause shared by HasPending and Claim. */
  predicate Claimable(j: Job, sec: int) {
    (j.status.Pending? || j.status.Failed?) && j.nextRun <= sec
  }

  /** id is a row that ORDER BY next_run_at LIMIT 1 may pick; ties are left open. */
  predicate Earliest(t: Table, id: Id, sec: int) {
    id in t && Claimable(t[id], sec) &&
    forall k :: k in t && Claimable(t[k], sec) ==> t[id].nextRun <= t[k].nextRun
  }

  function Claimed(j: Job, sec: int): Job {
    j.(status := Running, attempts := j.attempts + 1, nextRun := sec)
  }

  function Completed(j: Job, sec: int): Job {
    j.(status := Done, completed := Some(sec), payload := "", lastError := "")
  }

  function Buried(j: Job, sec: int, why: string): Job {
    j.(status := Dead, lastError := why, completed := Some(sec))
  }

  function Postponed(j: Job, nextRun: int, why: string): Job {
    j.(status := Failed, nextRun := nextRun, lastError := why)
  }

  function Retried(j: Job, sec: int): Job {
    j.(status := Pending, nextRun := sec, lastError := "")
  }

  // UPDATE ... WHERE id = ? changes nothing when there is no such row.

  function AfterComplete(t: Table, id: Id, sec: int): Table {
    if id in t then t[id := Completed(t[id], sec)] else t
  }

  function AfterDead(t: Table, id: Id, sec: int, why: string): Table {
    if id in t then t[id := Buried(t[id], sec, why)] else t
  }

  function AfterFail(t: Table, id: Id, nextRun: int, why: string): Table {
    if id in t then t[id := Postponed(t[id], nextRun, why)] else t
  }

  function AfterRetry(t: Table, id: Id, sec: int): Table {
    if id in t then t[id := Retried(t[id], sec)] else t
  }

  /** A running row whose stamp lies before the cutoff. */
  predicate Stale(j: Job, cutoff: int) {
    j.status.Running? && j.nextRun < cutoff
  }

  const STALE_DEAD: string := "recovered: stale + max attempts"
  const STALE_FAILED: string := "recovered: stale running job"

  /** First statement of RecoverStale: stale rows out of attempts die. */
  function AfterBuryStale(t: Table, cutoff: int, sec: int): Table {
    map id | id in t ::
      if Stale(t[id], cutoff) && t[id].attempts >= MAX_ATTEMPTS
      then Buried(t[id], sec, STALE_DEAD) else t[id]
  }

  /** Second statement of RecoverStale: every stale row left fails, ready at once. */
  function AfterFailStale(t: Table, cutoff: int, sec: int): Table {
    map id | id in t ::
      if Stale(t[id], cutoff) then Postponed(t[id], sec, STALE_FAILED) else t[id]
  }

  predicate Finished(j: Job) {
    j.status.Done? || j.status.Dead?
  }

  function AfterCleanup(t: Table, olderThan: int): Table {
    map id | id in t && !(Finished(t[id]) && t[id].created < olderThan) :: t[id]
  }

  // ---------------------------------------------------------------- LIKE

  /** ASCII case folding, as SQLite's LIKE does. */
  function Fold(c: char): char {
    if 'A' <= c <= 'Z' then (c as int + 32) as char else c
  }

  /** SQL pattern matching: % is any run of characters, _ any single one. */
  predicate Like(p: string, s: string)
    decreases |p| + |s|
  {
    if p == "" then s == ""
    else if p[0] == '%' then Like(p[1..], s) || (s != "" && Like(p, s[1..]))
    else s != "" && (p[0] == '_' || Fold(p[0]) == Fold(s[0])) && Like(p[1..], s[1..])
  }

  predicate MentionsDomain(payload: string, domain: string) {
    Like("%://" + domain + "/%", payload) || Like("%://" + domain + ":%", payload)
  }

  predicate Cancellable(j: Job, domain: string) {
    (j.status.Pending? || j.status.Failed?) && MentionsDomain(j.payload, domain)
  }

  function AfterCancel(t: Table, domain: string): Table {
    map id | id in t && !Cancellable(t[id], domain) :: t[id]
  }

  predicate NoWildcard(s: string) {
    forall i :: 0 <= i < |s| ==> s[i] != '%' && s[i] != '_'
  }

  /** lit stands at position i of s, letters compared without case. */
  predicate FoldAt(lit: string, s: string, i: int) {
    0 <= i && i + |lit| <= |s| && forall k :: 0 <= k < |lit| ==> Fold(lit[k]) == Fold(s[i + k])
  }

  lemma {:induction false} LikePrefix(lit: string, s: string)
    requires NoWildcard(lit)
    ensures Like(lit + "%", s) <==> FoldAt(lit, s, 0)
    decreases |lit|
  {
    if lit == "" {
      LikeAnything(s);
      assert lit + "%" == "%";
    } else {
      var p := lit + "%";
      assert p[0] == lit[0] && p[1..] == lit[1..] + "%";
      if s != "" {
        LikePrefix(lit[1..], s[1..]);
        if FoldAt(lit[1..], s[1..], 0) && Fold(lit[0]) == Fold(s[0]) {
          forall k | 0 <= k < |lit| ensures Fold(lit[k]) == Fold(s[0 + k]) {
            if k > 0 { assert Fold(lit[1..][k - 1]) == Fold(s[1..][0 + (k - 1)]); }
          }
        }
        if FoldAt(lit, s, 0) {
          forall k | 0 <= k < |lit[1..]| ensures Fold(lit[1..][k]) == Fold(s[1..][0 + k]) {
            assert Fold(lit[k + 1]) == Fold(s[0 + (k + 1)]);
          }
          assert Fold(lit[0]) == Fold(s[0 + 0]);
        }
      }
    }
  }

  lemma {:induction false} LikeAnything(s: string)
    ensures Like("%", s)
    decreases |s|
  {
    if s != "" { LikeAnything(s[1..]); }
  }

  /** A wildcard-free text between two % matches exactly the strings that contain it. */
  lemma {:induction false} LikeContains(lit: string, s: string)
    requires NoWildcard(lit)
    ensures Like("%" + lit + "%", s) <==> exists i :: FoldAt(lit, s, i)
    decreases |s|
  {
    var p := "%" + lit + "%";
    assert p[0] == '%' && p[1..] == lit + "%";
    LikePrefix(lit, s);
    if s != "" {
      LikeContains(lit, s[1..]);
      if exists i :: FoldAt(lit, s[1..], i) {
        var i :| FoldAt(lit, s[1..], i);
        forall k | 0 <= k < |lit| ensures Fold(lit[k]) == Fold(s[i + 1 + k]) {
          assert s[1..][i + k] == s[i + 1 + k];
        }
        assert FoldAt(lit, s, i + 1);
      }
      if exists i :: FoldAt(lit, s, i) {
        var i :| FoldAt(lit, s, i);
        if i > 0 {
          forall k | 0 <= k < |lit| ensures Fold(lit[k]) == Fold(s[1..][i - 1 + k]) {
            assert s[1..][i - 1 + k] == s[i + k];
          }
          assert FoldAt(lit, s[1..], i - 1);
        }
      }
    } else {
      if exists i :: FoldAt(lit, s, i) {
        var i :| FoldAt(lit, s, i);
        assert FoldAt(lit, s, 0);
      }
    }
  }

  /** CancelByDomain for a plain host name: it deletes exactly the waiting jobs whose payload
      has the host right after a scheme separator and right before a slash or a port. */
  lemma CancelExact(t: Table, domain: string, id: Id)
    requires NoWildcard(domain)
    requires id in t
    ensures id !in AfterCancel(t, domain) <==>
              && (t[id].status.Pending? || t[id].status.Failed?)
              && exists i :: FoldAt("://" + domain + "/", t[id].payload, i) || FoldAt("://" + domain + ":", t[id].payload, i)
  {
    var slash, port := "://" + domain + "/", "://" + domain + ":";
    LikeContains(slash, t[id].payload);
    LikeContains(port, t[id].payload);
    assert "%://" + domain + "/%" == "%" + slash + "%";
    assert "%://" + domain + ":%" == "%" + port + "%";
  }

  // ---------------------------------------------------------------- Claim

  /** Whenever a row is ready there is an earliest one. */
  lemma {:induction false} EarliestExists(t: Table, ready: set<Id>, sec: int) returns (id: Id)
    requires ready != {}
    requires forall k :: k in ready ==> k in t && Claimable(t[k], sec)
    ensures id in ready
    ensures forall k :: k in ready ==> t[id].nextRun <= t[k].nextRun
    decreases |ready|
  {
    id :| id in ready;
    var rest := ready - {id};
    if rest != {} {
      var best := EarliestExists(t, rest, sec);
      assert forall k :: k in ready ==> k == id || k in rest;
      if t[best].nextRun < t[id].nextRun { id := best; }
    } else {
      assert ready == {id};
    }
  }

  lemma DueHasEarliest(t: Table, sec: int)
    ensures (set id | id in t && Claimable(t[id], sec)) != {} <==> exists id :: Earliest(t, id, sec)
  {
    var due := set id | id in t && Claimable(t[id], sec);
    if due != {} {
      var id := EarliestExists(t, due, sec);
      assert Earliest(t, id, sec);
    }
    if id :| Earliest(t, id, sec) { assert id in due; }
  }

  /** What one batch insert leaves: all rows or, when an id is taken, none. */
  function Inserted(t: Table, jobs: seq<(Id, Job)>): (r: Option<Table>)
    decreases |jobs|
  {
    if jobs == [] then Some(t)
    else if jobs[0].0 in t then None
    else Inserted(t[jobs[0].0 := jobs[0].1], jobs[1..])
  }

  predicate FreshBatch(t: Table, jobs: seq<(Id, Job)>) {
    (forall i :: 0 <= i < |jobs| ==> jobs[i].0 !in t) &&
    (forall i, k :: 0 <= i < k < |jobs| ==> jobs[i].0 != jobs[k].0)
  }

  /** The batch goes in exactly when its ids are new and distinct; then every job is a row and
      every other row is as before. */
  lemma {:induction false} InsertedExact(t: Table, jobs: seq<(Id, Job)>)
    ensures Inserted(t, jobs).Some? <==> FreshBatch(t, jobs)
    ensures Inserted(t, jobs).Some? ==>
              var t' := Inserted(t, jobs).value;
              && (forall i :: 0 <= i < |jobs| ==> jobs[i].0 in t' && t'[jobs[i].0] == jobs[i].1)
              && (forall k :: k in t ==> k in t' && t'[k] == t[k])
              && (forall k :: k in t' ==> k in t || exists i :: 0 <= i < |jobs| && jobs[i].0 == k)
    decreases |jobs|
  {
    if jobs != [] {
      var t1 := t[jobs[0].0 := jobs[0].1];
      if jobs[0].0 !in t {
        InsertedExact(t1, jobs[1..]);
        if FreshBatch(t, jobs) {
          forall i | 0 <= i < |jobs[1..]| ensures jobs[1..][i].0 !in t1 {
            assert jobs[1..][i] == jobs[i + 1];
          }
          assert FreshBatch(t1, jobs[1..]);
        }
        if FreshBatch(t1, jobs[1..]) {
          forall i | 0 <= i < |jobs| ensures jobs[i].0 !in t {
            if i > 0 { assert jobs[1..][i - 1] == jobs[i]; }
          }
          forall i, k | 0 <= i < k < |jobs| ensures jobs[i].0 != jobs[k].0 {
            assert jobs[1..][k - 1] == jobs[k];
            if i > 0 { assert jobs[1..][i - 1] == jobs[i]; }
          }
        }
        if Inserted(t1, jobs[1..]).Some? {
          var t' := Inserted(t, jobs).value;
          forall i | 0 <= i < |jobs| ensures jobs[i].0 in t' && t'[jobs[i].0] == jobs[i].1 {
            if i > 0 { assert jobs[1..][i - 1] == jobs[i]; }
            else { assert jobs[0].0 in t1; }
          }
          forall k | k in t' ensures k in t || exists i :: 0 <= i < |jobs| && jobs[i].0 == k {
            if k !in t1 {
              var i :| 0 <= i < |jobs[1..]| && jobs[1..][i].0 == k;
              assert jobs[i + 1].0 == k;
            } else if k !in t {
              assert jobs[0].0 == k;
            }
          }
        }
      }
    }
  }

  // ---------------------------------------------------------------- one row changes

  /** No row but that of id has changed, and none has come or gone. */
  ghost predicate OnlyRow(was: Table, now: Table, id: Id) {
    now.Keys == was.Keys && forall k :: k in was && k != id ==> now[k] == was[k]
  }

  /** The columns no statement ever writes. */
  predicate SameJob(was: Job, now: Job) {
    now.kind == was.kind && now.created == was.created
  }

  ghost predicate IsCompleted(was: Job, now: Job, sec: int) {
    && now.status.Done? && now.completed == Some(sec) && now.payload == "" && now.lastError == ""
    && SameJob(was, now) && now.attempts == was.attempts && now.nextRun == was.nextRun
  }

  ghost predicate IsBuried(was: Job, now: Job, sec: int, why: string) {
    && now.status.Dead? && now.completed == Some(sec) && now.lastError == why
    && SameJob(was, now) && now.payload == was.payload && now.attempts == was.attempts && now.nextRun == was.nextRun
  }

  ghost predicate IsPostponed(was: Job, now: Job, sec: int, why: string) {
    && now.status.Failed? && now.nextRun == sec && now.lastError == why
    && SameJob(was, now) && now.payload == was.payload && now.attempts == was.attempts && now.completed == was.completed
  }

  ghost predicate IsRetried(was: Job, now: Job, sec: int) {
    && now.status.Pending? && now.nextRun == sec && now.lastError == ""
    && SameJob(was, now) && now.payload == was.payload && now.attempts == was.attempts && now.completed == was.completed
  }

  ghost predicate IsClaimed(was: Job, now: Job, sec: int) {
    && now.status.Running? && now.nextRun == sec && now.attempts == was.attempts + 1
    && SameJob(was, now) && now.payload == was.payload && now.lastError == was.lastError && now.completed == was.completed
  }

  // ---------------------------------------------------------------- the queue object

  class JobQueue {
    var rows: Table

    constructor ()
      ensures rows == map[]
    {
      rows := map[];
    }

    /** True exactly if a Claim at this instant would find a row to take. */
    method HasPending(now: int) returns (ready: bool)
      ensures ready <==> exists id :: Earliest(rows, id, Seconds(now))
      ensures ready <==> exists id :: id in rows && rows[id].status in {Pending, Failed} && rows[id].nextRun <= Seconds(now)
    {
      var due := set id | id in rows && Claimable(rows[id], Seconds(now));
      ready := |due| > 0;
      if ready {
        var id :| id in due;
        assert rows[id].status in {Pending, Failed};
      }
      assert forall id :: id in rows && rows[id].status in {Pending, Failed} && rows[id].nextRun <= Seconds(now) ==> id in due;
      DueHasEarliest(rows, Seconds(now));
    }

    /** Fails when the primary key is taken. */
    method Enqueue(id: Id, job: Job) returns (stored: bool)
      modifies this
      ensures stored <==> id !in old(rows)
      ensures rows == if stored then old(rows)[id := job] else old(rows)
    {
      stored := id !in rows;
      if stored { rows := rows[id := job]; }
    }

    /** One transaction: the working copy replaces the table only if every insert went through. */
    method EnqueueBatch(jobs: seq<(Id, Job)>) returns (stored: bool)
      modifies this
      ensures stored <==> FreshBatch(old(rows), jobs)
      ensures !stored ==> rows == old(rows)
      ensures stored ==> Inserted(old(rows), jobs) == Some(rows)
    {
      var work: Table := rows;
      var i := 0;
      while i < |jobs|
        invariant 0 <= i <= |jobs|
        invariant Inserted(work, jobs[i..]) == Inserted(rows, jobs)
        invariant rows == old(rows)
      {
        assert jobs[i..][1..] == jobs[i + 1..];
        if jobs[i].0 in work {
          InsertedExact(rows, jobs);
          return false;
        }
        work := work[jobs[i].0 := jobs[i].1];
        i := i + 1;
      }
      InsertedExact(rows, jobs);
      rows := work;
      stored := true;
    }

    /** Takes an earliest ready row, marks it running under a stamp of the claim time and
        counts the attempt; returns None, and writes nothing, when no row is ready. */
    method Claim(now: int) returns (r: Option<(Id, Job)>)
      modifies this
      ensures r.Some? <==> exists id :: Earliest(old(rows), id, Seconds(now))
      ensures r.None? ==> forall id :: id in old(rows) ==> !Claimable(old(rows)[id], Seconds(now))
      ensures r.None? ==> rows == old(rows)
      ensures r.Some? ==>
                && Earliest(old(rows), r.value.0, Seconds(now))
                && old(rows)[r.value.0].status in {Pending, Failed} && old(rows)[r.value.0].nextRun <= Seconds(now)
                && (forall k :: k in old(rows) && old(rows)[k].status in {Pending, Failed} ==>
                      old(rows)[r.value.0].nextRun <= old(rows)[k].nextRun)
                && OnlyRow(old(rows), rows, r.value.0) && rows[r.value.0] == r.value.1
                && IsClaimed(old(rows)[r.value.0], r.value.1, Seconds(now))
      ensures r.Some? ==> rows == old(rows)[r.value.0 := Claimed(old(rows)[r.value.0], Seconds(now))]
    {
      var sec := Seconds(now);
      var ready := set id | id in rows && Claimable(rows[id], sec);
      DueHasEarliest(rows, sec);
      if ready == {} {
        assert forall id :: id in rows && Claimable(rows[id], sec) ==> id in ready;
        return None;
      }
      var id :| id in rows && Earliest(rows, id, sec);
      rows := rows[id := Claimed(rows[id], sec)];
      r := Some((id, rows[id]));
    }

    method Complete(id: Id, now: int)
      modifies this
      ensures id !in old(rows) ==> rows == old(rows)
      ensures id in old(rows) ==> OnlyRow(old(rows), rows, id) && IsCompleted(old(rows)[id], rows[id], Seconds(now))
      ensures rows == AfterComplete(old(rows), id, Seconds(now))
    {
      if id in rows { rows := rows[id := Completed(rows[id], Seconds(now))]; }
    }

    method Bury(id: Id, now: int, why: string)
      modifies this
      ensures id !in old(rows) ==> rows == old(rows)
      ensures id in old(rows) ==> OnlyRow(old(rows), rows, id) && IsBuried(old(rows)[id], rows[id], Seconds(now), why)
      ensures rows == AfterDead(old(rows), id, Seconds(now), why)
    {
      if id in rows { rows := rows[id := Buried(rows[id], Seconds(now), why)]; }
    }

    method Fail(id: Id, nextRun: int, why: string)
      modifies this
      ensures id !in old(rows) ==> rows == old(rows)
      ensures id in old(rows) ==> OnlyRow(old(rows), rows, id) && IsPostponed(old(rows)[id], rows[id], Seconds(nextRun), why)
      ensures rows == AfterFail(old(rows), id, Seconds(nextRun), why)
    {
      if id in rows { rows := rows[id := Postponed(rows[id], Seconds(nextRun), why)]; }
    }

    method Retry(id: Id, now: int)
      modifies this
      ensures id !in old(rows) ==> rows == old(rows)
      ensures id in old(rows) ==> OnlyRow(old(rows), rows, id) && IsRetried(old(rows)[id], rows[id], Seconds(now))
      ensures rows == AfterRetry(old(rows), id, Seconds(now))
    {
      if id in rows { rows := rows[id := Retried(rows[id], Seconds(now))]; }
    }

    /** Two statements back to back. An error of the first is passed over; an error of the second is
        returned, and otherwise the count of rows put back. */
    method RecoverStale(now: int, staleAfter: int, firstFails: bool, secondFails: bool) returns (recovered: Option<int>)
      modifies this
      ensures var cutoff, sec := Seconds(now - staleAfter), Seconds(now);
              var first := if firstFails then old(rows) else AfterBuryStale(old(rows), cutoff, sec);
              && rows == (if secondFails then first else AfterFailStale(first, cutoff, sec))
              && (recovered.None? <==> secondFails)
      ensures recovered.Some? ==>
                recovered.value == |set id: Id | id in old(rows) && Stale(old(rows)[id], Seconds(now - staleAfter))
                                      && (firstFails || old(rows)[id].attempts < MAX_ATTEMPTS)|
    {
      var cutoff := Seconds(now - staleAfter);
      ghost var was := rows;
      if !firstFails { rows := AfterBuryStale(rows, cutoff, Seconds(now)); }
      if secondFails { return None; }
      var hit := set id: Id | id in rows && Stale(rows[id], cutoff);
      assert hit == set id: Id | id in was && Stale(was[id], cutoff) && (firstFails || was[id].attempts < MAX_ATTEMPTS);
      rows := AfterFailStale(rows, cutoff, Seconds(now));
      recovered := Some(|hit|);
    }

    /** Just the finished rows created before the given second go; the others stay as they are. */
    method Cleanup(olderThan: int) returns (deleted: int)
      modifies this
      ensures forall id :: id in rows <==>
                id in old(rows) && (old(rows)[id].status in {Pending, Running, Failed} || old(rows)[id].created >= Seconds(olderThan))
      ensures forall id :: id in rows ==> rows[id] == old(rows)[id]
      ensures rows == AfterCleanup(old(rows), Seconds(olderThan)) && deleted == |old(rows)| - |rows|
    {
      var kept := AfterCleanup(rows, Seconds(olderThan));
      deleted := |rows| - |kept|;
      rows := kept;
    }

    method CancelByDomain(domain: string) returns (deleted: int)
      modifies this
      ensures rows == AfterCancel(old(rows), domain)
      ensures rows.Keys <= old(rows).Keys && forall id :: id in rows ==> rows[id] == old(rows)[id]
      ensures deleted == |old(rows)| - |rows|
    {
      var kept := AfterCancel(rows, domain);
      deleted := |rows| - |kept|;
      rows := kept;
    }
  }

  /** Two statements of RecoverStale with no step between them: a stale row dies when it is out
      of attempts and otherwise waits again at once; every other row is untouched. */
  lemma RecoverStaleOutcome(t: Table, cutoff: int, sec: int, id: Id)
    requires id in t
    ensures var t' := AfterFailStale(AfterBuryStale(t, cutoff, sec), cutoff, sec);
            var stale := t[id].status.Running? && t[id].nextRun < cutoff;
            && t'.Keys == t.Keys
            && (!stale ==> t'[id] == t[id])
            && (stale && t[id].attempts >= 5 ==> IsBuried(t[id], t'[id], sec, "recovered: stale + max attempts"))
            && (stale && t[id].attempts < 5 ==> IsPostponed(t[id], t'[id], sec, "recovered: stale running job"))
            && (stale && t[id].attempts < 5 && cutoff <= sec ==> Claimable(t'[id], sec))
    ensures var one, two := AfterBuryStale(t, cutoff, sec), AfterFailStale(t, cutoff, sec);
            var stale := t[id].status.Running? && t[id].nextRun < cutoff;
            && one.Keys == t.Keys == two.Keys
            && (if stale && t[id].attempts >= 5 then IsBuried(t[id], one[id], sec, "recovered: stale + max attempts") else one[id] == t[id])
            && (if stale then IsPostponed(t[id], two[id], sec, "recovered: stale running job") else two[id] == t[id])
  {
  }
}
