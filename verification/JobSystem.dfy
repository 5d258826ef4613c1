/** Many workers over one job table, one atomic step at a time: claims, heartbeats,
    terminal writes, cancels, sweeps, rerenders and crashes in any order
    (backend/jobs/queue.py, backend/worker.py, backend/app.py). */
module JobSystem {
  import opened Wrappers
  import opened JobRecords

  // ---------- the step system ----------

  /** `attempt` is the row that the worker's claim appended.  The program knows only the job:
      the field is history, used to say whose attempt a later write touches. */
  datatype WorkerState = Idle | Executing(job: JobId, attempt: nat) | Dead

  datatype System = System(db: Db, workers: map<WorkerId, WorkerState>, now: int)

  datatype Event =
    | Tick(seconds: nat)
    | EnqueueNew(j: JobId, maxAttempts: int)
    | StartWorker(w: WorkerId)
    | ClaimJob(w: WorkerId, j: JobId)
    | Beat(w: WorkerId)
    | CompleteRun(w: WorkerId)
    | HoldRun(w: WorkerId)
    | FailRun(w: WorkerId, message: string)
    | Abandon(w: WorkerId)
    | Crash(w: WorkerId)
    | AskCancel(j: JobId)
    | SweepOrphans(leaseSeconds: int)
    | ApproveJob(j: JobId)
    | RejectJob(j: JobId, reason: string)
    | RerenderRequest(j: JobId)

  predicate IsExecuting(s: System, w: WorkerId) {
    w in s.workers && s.workers[w].Executing?
  }

  /** A step of worker w in the middle of a job. */
  predicate RunEvent(e: Event) {
    e.Beat? || e.CompleteRun? || e.HoldRun? || e.FailRun? || e.Abandon?
  }

  predicate Enabled(s: System, e: Event) {
    match e
    case Tick(_) => true
    case EnqueueNew(j, maxAttempts) => j !in s.db.jobs && maxAttempts >= 1
    case StartWorker(w) => w !in s.workers
    case ClaimJob(w, j) =>
      w in s.workers && s.workers[w].Idle? && j in s.db.jobs && Claimable(s.db.jobs[j], s.now)
    case Crash(w) => w in s.workers
    case AskCancel(j) => j in s.db.jobs && !IsTerminal(s.db.jobs[j].status)
    case SweepOrphans(_) => true
    case ApproveJob(j) => j in s.db.jobs
    case RejectJob(j, _) => j in s.db.jobs
    case RerenderRequest(j) => j in s.db.jobs
    case _ => IsExecuting(s, e.w)
  }

  function Next(s: System, e: Event): System
    requires Enabled(s, e)
  {
    match e
    case Tick(seconds) => s.(now := s.now + seconds)
    case EnqueueNew(j, maxAttempts) => s.(db := Enqueue(s.db, j, maxAttempts, s.now))
    case StartWorker(w) => s.(workers := s.workers[w := Idle])
    case ClaimJob(w, j) =>
      s.(db := Claim(s.db, j, w, s.now), workers := s.workers[w := Executing(j, |s.db.attempts|)])
    case Beat(w) =>
      var j := s.workers[w].job;
      // LeaseLost leaves the row alone; Stop raises JobCanceled, whose handler writes the row;
      // the handler's write and the check it follows are one step.
      (match HeartbeatResultOf(s.db, j, w)
       case LeaseLost => s.(workers := s.workers[w := Idle])
       case Stop => s.(db := CancelRow(s.db, j, s.now), workers := s.workers[w := Idle])
       case Continue => s.(db := Heartbeat(s.db, j, w, s.now)))
    case CompleteRun(w) =>
      s.(db := Complete(s.db, s.workers[w].job, w, s.now), workers := s.workers[w := Idle])
    case HoldRun(w) =>
      s.(db := Hold(s.db, s.workers[w].job, w, s.now), workers := s.workers[w := Idle])
    case FailRun(w, message) =>
      s.(db := Fail(s.db, s.workers[w].job, w, message, s.now), workers := s.workers[w := Idle])
    case Abandon(w) => s.(workers := s.workers[w := Idle])
    case Crash(w) => s.(workers := s.workers[w := Dead])
    case AskCancel(j) => s.(db := RequestCancel(s.db, j))
    case SweepOrphans(leaseSeconds) => s.(db := Sweep(s.db, s.now, leaseSeconds))
    case ApproveJob(j) => s.(db := Approve(s.db, j))
    case RejectJob(j, reason) => s.(db := Reject(s.db, j, reason))
    case RerenderRequest(j) => s.(db := Rerender(s.db, j, s.now))
  }

  ghost predicate IsRun(s: System, events: seq<Event>, t: System)
    decreases |events|
  {
    if events == [] then s == t
    else Enabled(s, events[0]) && IsRun(Next(s, events[0]), events[1..], t)
  }

  function Initial(now: int): System {
    System(Db(map[], []), map[], now)
  }

  ghost predicate Reachable(s: System) {
    exists start, events :: IsRun(Initial(start), events, s)
  }

  // ---------- the invariant ----------

  /** Lock, status and attempt count of one row agree. */
  predicate RowOk(row: JobRow) {
    && 0 <= row.attempts <= row.maxAttempts && 1 <= row.maxAttempts
    && (row.status == Running <==> row.lockedBy.Some?)
    && (row.status == Running <==> row.lockedAt.Some?)
    && (row.status == Running ==> 1 <= row.attempts)
    && (row.status == Queued ==> row.attempts < row.maxAttempts)
  }

  /** An open attempt row is the running state of its job, and there is one per running job. */
  ghost predicate AuditOk(db: Db) {
    && (forall j, k :: OpenFor(db.attempts, j, k) ==>
          && j in db.jobs && db.jobs[j].status == Running
          && db.jobs[j].lockedBy == Some(db.attempts[k].worker)
          && db.jobs[j].attempts == db.attempts[k].number)
    && (forall j :: j in db.jobs && db.jobs[j].status == Running ==> exists k :: OpenFor(db.attempts, j, k))
    && (forall j, k, l :: OpenFor(db.attempts, j, k) && OpenFor(db.attempts, j, l) ==> k == l)
  }

  predicate RowsOk(db: Db) {
    forall j :: j in db.jobs ==> RowOk(db.jobs[j])
  }

  /** A worker remembers an attempt of its own, and holds the lock only while that attempt is open. */
  predicate WorkerOk(db: Db, w: WorkerId, j: JobId, a: nat) {
    && j in db.jobs
    && a < |db.attempts| && db.attempts[a].job == j && db.attempts[a].worker == w
    && (db.jobs[j].lockedBy == Some(w) ==> db.attempts[a].finishedAt.None?)
  }

  ghost predicate Inv(s: System) {
    && RowsOk(s.db)
    && AuditOk(s.db)
    && forall w :: IsExecuting(s, w) ==> WorkerOk(s.db, w, s.workers[w].job, s.workers[w].attempt)
  }

  // ---------- closing the attempt of a running job ----------

  lemma LatestOpenIsTheOpenOne(db: Db, j: JobId, k: int)
    requires AuditOk(db) && OpenFor(db.attempts, j, k)
    ensures LatestOpen(db.attempts, j) == Some(k)
  {
  }

  /** A job that stops running with its one open attempt closed keeps rows and audit trail in step. */
  lemma StopRunning(db: Db, j: JobId, row: JobRow, now: int, outcome: Outcome, error: Option<string>, db': Db)
    requires RowsOk(db) && AuditOk(db) && j in db.jobs && db.jobs[j].status == Running
    requires RowOk(row) && row.status != Running
    requires db' == Db(db.jobs[j := row], CloseAttempt(db.attempts, j, now, outcome, error))
    ensures RowsOk(db') && AuditOk(db')
    ensures forall k :: OpenFor(db.attempts, j, k) ==>
              db'.attempts == db.attempts[k := Closed(db.attempts[k], now, outcome, error)]
  {
    var k :| OpenFor(db.attempts, j, k);
    LatestOpenIsTheOpenOne(db, j, k);
    assert db'.attempts == db.attempts[k := Closed(db.attempts[k], now, outcome, error)];
    assert forall i, l :: OpenFor(db'.attempts, i, l) <==> OpenFor(db.attempts, i, l) && l != k;
    forall i | i in db'.jobs && db'.jobs[i].status == Running
      ensures exists l :: OpenFor(db'.attempts, i, l)
    {
      var l :| OpenFor(db.attempts, i, l);
      assert OpenFor(db'.attempts, i, l);
    }
  }

  /** A row that is not running before or after may change freely. */
  lemma RowChangeKeepsAudit(db: Db, j: JobId, row: JobRow)
    requires RowsOk(db) && AuditOk(db) && RowOk(row)
    requires j in db.jobs ==> db.jobs[j].status != Running
    requires row.status != Running
    ensures RowsOk(db.(jobs := db.jobs[j := row])) && AuditOk(db.(jobs := db.jobs[j := row]))
  {
  }

  lemma ClaimKeepsDb(db: Db, j: JobId, w: WorkerId, now: int)
    requires RowsOk(db) && AuditOk(db) && j in db.jobs && db.jobs[j].status == Queued
    ensures RowsOk(Claim(db, j, w, now)) && AuditOk(Claim(db, j, w, now))
  {
    var db' := Claim(db, j, w, now);
    var n := |db.attempts|;
    assert forall i, l :: OpenFor(db'.attempts, i, l) <==> OpenFor(db.attempts, i, l) || (i == j && l == n);
    forall i | i in db'.jobs && db'.jobs[i].status == Running
      ensures exists l :: OpenFor(db'.attempts, i, l)
    {
      if i == j {
        assert OpenFor(db'.attempts, j, n);
      } else {
        var l :| OpenFor(db.attempts, i, l);
        assert OpenFor(db'.attempts, i, l);
      }
    }
  }

  /** With at most one open attempt per job, the sweep closes every open attempt of a stale job. */
  lemma SweptAttempt(db: Db, now: int, leaseSeconds: int, k: int)
    requires AuditOk(db) && 0 <= k < |db.attempts|
    ensures Sweep(db, now, leaseSeconds).attempts[k] ==
            if db.attempts[k].finishedAt.None? && db.attempts[k].job in StaleJobs(db, now - leaseSeconds)
            then OrphanedAttempt(db.attempts[k], now) else db.attempts[k]
  {
    if db.attempts[k].finishedAt.None? {
      assert OpenFor(db.attempts, db.attempts[k].job, k);
      LatestOpenIsTheOpenOne(db, db.attempts[k].job, k);
    }
  }

  lemma SweepOpen(db: Db, now: int, leaseSeconds: int, i: JobId, l: int)
    requires AuditOk(db)
    ensures OpenFor(Sweep(db, now, leaseSeconds).attempts, i, l)
            <==> OpenFor(db.attempts, i, l) && i !in StaleJobs(db, now - leaseSeconds)
  {
    if 0 <= l < |db.attempts| {
      SweptAttempt(db, now, leaseSeconds, l);
    }
  }

  lemma SweptRows(db: Db, now: int, leaseSeconds: int)
    ensures Sweep(db, now, leaseSeconds).jobs.Keys == db.jobs.Keys
    ensures |Sweep(db, now, leaseSeconds).attempts| == |db.attempts|
    ensures forall i :: i in db.jobs ==>
              Sweep(db, now, leaseSeconds).jobs[i]
              == if Stale(db.jobs[i], now - leaseSeconds) then Recovered(db.jobs[i], now) else db.jobs[i]
    ensures forall i ::
              i in StaleJobs(db, now - leaseSeconds) <==> i in db.jobs && Stale(db.jobs[i], now - leaseSeconds)
  {
    hide LatestOpen, Stale, Recovered;
  }

  /** Stopping the jobs of a set and closing all their open attempts keeps the audit. */
  lemma SweptAudit(db: Db, db': Db, stale: set<JobId>)
    requires AuditOk(db) && db'.jobs.Keys == db.jobs.Keys && |db'.attempts| == |db.attempts|
    requires forall i :: i in db.jobs && i !in stale ==> db'.jobs[i] == db.jobs[i]
    requires forall i :: i in db.jobs && i in stale ==> db'.jobs[i].status != Running
    requires forall i, l :: OpenFor(db'.attempts, i, l) <==> OpenFor(db.attempts, i, l) && i !in stale
    requires forall k :: 0 <= k < |db.attempts| && db.attempts[k].job !in stale ==> db'.attempts[k] == db.attempts[k]
    ensures AuditOk(db')
  {
    forall i | i in db'.jobs && db'.jobs[i].status == Running
      ensures exists l :: OpenFor(db'.attempts, i, l)
    {
      assert i !in stale;
      var l :| OpenFor(db.attempts, i, l);
      assert OpenFor(db'.attempts, i, l);
    }
  }

  lemma SweepKeepsDb(db: Db, now: int, leaseSeconds: int)
    requires RowsOk(db) && AuditOk(db)
    ensures RowsOk(Sweep(db, now, leaseSeconds)) && AuditOk(Sweep(db, now, leaseSeconds))
  {
    hide LatestOpen, Sweep, StaleJobs, OpenFor, OrphanedAttempt, AuditOk;
    var stale, db' := StaleJobs(db, now - leaseSeconds), Sweep(db, now, leaseSeconds);
    SweptRows(db, now, leaseSeconds);
    forall i, l
      ensures OpenFor(db'.attempts, i, l) <==> OpenFor(db.attempts, i, l) && i !in stale
    {
      SweepOpen(db, now, leaseSeconds, i, l);
    }
    forall k | 0 <= k < |db.attempts| && db.attempts[k].job !in stale
      ensures db'.attempts[k] == db.attempts[k]
    {
      SweptAttempt(db, now, leaseSeconds, k);
    }
    SweptAudit(db, db', stale);
  }

  // ---------- every step keeps the invariant ----------

  /** The only row a step of an executing worker may write is its own job's, and only while it
      holds the lock; the only attempt it may close is the one its own claim opened. */
  ghost predicate OwnWriteOnly(s: System, w: WorkerId, db': Db)
    requires IsExecuting(s, w)
  {
    var j, a := s.workers[w].job, s.workers[w].attempt;
    && db'.jobs.Keys == s.db.jobs.Keys
    && |db'.attempts| == |s.db.attempts|
    && (forall i :: i in s.db.jobs && i != j ==> db'.jobs[i] == s.db.jobs[i])
    && (forall k :: 0 <= k < |s.db.attempts| && k != a ==> db'.attempts[k] == s.db.attempts[k])
    && (db' != s.db ==> Owns(s.db, j, w) && OpenFor(s.db.attempts, j, a))
  }

  lemma StopRunningByOwner(s: System, w: WorkerId, row: JobRow, outcome: Outcome, error: Option<string>, db': Db)
    requires Inv(s) && IsExecuting(s, w)
    requires Owns(s.db, s.workers[w].job, w) && RowOk(row) && row.status != Running
    requires var j := s.workers[w].job;
             db' == Db(s.db.jobs[j := row], CloseAttempt(s.db.attempts, j, s.now, outcome, error))
    ensures RowsOk(db') && AuditOk(db') && OwnWriteOnly(s, w, db')
    ensures db'.attempts[s.workers[w].attempt]
            == Closed(s.db.attempts[s.workers[w].attempt], s.now, outcome, error)
  {
    var j, a := s.workers[w].job, s.workers[w].attempt;
    assert WorkerOk(s.db, w, j, a);
    assert OpenFor(s.db.attempts, j, a);
    StopRunning(s.db, j, row, s.now, outcome, error, db');
  }

  /** Stale workers are harmless: a run step of w keeps the tables in step and writes nothing
      that is not w's own current attempt. */
  lemma RunStepIsFenced(s: System, e: Event)
    requires Inv(s) && RunEvent(e) && Enabled(s, e)
    ensures RowsOk(Next(s, e).db) && AuditOk(Next(s, e).db)
    ensures OwnWriteOnly(s, e.w, Next(s, e).db)
  {
    hide LatestOpen, CloseAttempt, Closed;
    var w := e.w;
    var j := s.workers[w].job;
    assert WorkerOk(s.db, w, j, s.workers[w].attempt);
    if s.db.jobs[j].lockedBy == Some(w) {
      assert RowOk(s.db.jobs[j]) && Owns(s.db, j, w);
      var row := Unlocked(s.db.jobs[j]);
      match e
      case Beat(_) =>
        if s.db.jobs[j].cancelRequested {
          StopRunningByOwner(s, w, row.(status := Canceled), Cancellation, None, Next(s, e).db);
        }
      case CompleteRun(_) =>
        StopRunningByOwner(s, w, row.(status := Succeeded, progress := 100), Success, None, Next(s, e).db);
      case HoldRun(_) =>
        StopRunningByOwner(s, w, row.(status := NeedsReview, progress := 100), Review, None, Next(s, e).db);
      case FailRun(_, message) =>
        var row' := row.(error := Some(message));
        StopRunningByOwner(s, w,
                           if row'.attempts < row'.maxAttempts
                           then row'.(status := Queued, availableAt := s.now + RETRY_BACKOFF_SECONDS)
                           else row'.(status := Failed),
                           Failure, Some(message), Next(s, e).db);
      case Abandon(_) =>
    }
  }

  lemma RunStepKeepsInv(s: System, e: Event)
    requires Inv(s) && RunEvent(e) && Enabled(s, e)
    ensures Inv(Next(s, e))
  {
    hide LatestOpen, CloseAttempt, Closed, AuditOk, RowsOk;
    RunStepIsFenced(s, e);
    var t := Next(s, e);
    forall v | IsExecuting(t, v)
      ensures WorkerOk(t.db, v, t.workers[v].job, t.workers[v].attempt)
    {
      assert IsExecuting(s, v) && WorkerOk(s.db, v, s.workers[v].job, s.workers[v].attempt);
    }
  }

  lemma ClaimKeepsInv(s: System, w: WorkerId, j: JobId)
    requires Inv(s) && Enabled(s, ClaimJob(w, j))
    ensures Inv(Next(s, ClaimJob(w, j)))
  {
    ClaimKeepsDb(s.db, j, w, s.now);
    var t := Next(s, ClaimJob(w, j));
    forall v | IsExecuting(t, v)
      ensures WorkerOk(t.db, v, t.workers[v].job, t.workers[v].attempt)
    {
      if v != w {
        assert IsExecuting(s, v) && WorkerOk(s.db, v, s.workers[v].job, s.workers[v].attempt);
      }
    }
  }

  lemma SweepKeepsInv(s: System, leaseSeconds: int)
    requires Inv(s)
    ensures Inv(Next(s, SweepOrphans(leaseSeconds)))
  {
    SweepKeepsDb(s.db, s.now, leaseSeconds);
    var t := Next(s, SweepOrphans(leaseSeconds));
    forall v | IsExecuting(t, v)
      ensures WorkerOk(t.db, v, t.workers[v].job, t.workers[v].attempt)
    {
      assert IsExecuting(s, v) && WorkerOk(s.db, v, s.workers[v].job, s.workers[v].attempt);
      SweptAttempt(s.db, s.now, leaseSeconds, s.workers[v].attempt);
    }
  }

  /** The steps of users: they touch the status of one job that is not running, or a flag. */
  lemma UserStepKeepsInv(s: System, e: Event)
    requires Inv(s) && Enabled(s, e)
    requires e.EnqueueNew? || e.AskCancel? || e.ApproveJob? || e.RejectJob? || e.RerenderRequest?
    ensures Inv(Next(s, e))
  {
    hide LatestOpen, CloseAttempt, Closed, Sweep, StaleJobs, Fail, Finish, Heartbeat, HeartbeatResultOf, CancelRow,
      Claim;
    var j, t := e.j, Next(s, e);
    var row := t.db.jobs[j];
    assert t.db == s.db.(jobs := s.db.jobs[j := row]);
    if j in s.db.jobs && s.db.jobs[j].status == Running {
      assert row == s.db.jobs[j] || row == s.db.jobs[j].(cancelRequested := true);
    } else {
      RowChangeKeepsAudit(s.db, j, row);
    }
    forall v | IsExecuting(t, v)
      ensures WorkerOk(t.db, v, t.workers[v].job, t.workers[v].attempt)
    {
      assert IsExecuting(s, v) && WorkerOk(s.db, v, s.workers[v].job, s.workers[v].attempt);
    }
  }

  lemma StepKeepsInv(s: System, e: Event)
    requires Inv(s) && Enabled(s, e)
    ensures Inv(Next(s, e))
  {
    match e
    case Tick(_) => assert forall v :: IsExecuting(Next(s, e), v) ==> IsExecuting(s, v);
    case StartWorker(_) => assert forall v :: IsExecuting(Next(s, e), v) ==> IsExecuting(s, v);
    case Crash(_) => assert forall v :: IsExecuting(Next(s, e), v) ==> IsExecuting(s, v);
    case ClaimJob(w, j) => ClaimKeepsInv(s, w, j);
    case SweepOrphans(leaseSeconds) => SweepKeepsInv(s, leaseSeconds);
    case Beat(_) => RunStepKeepsInv(s, e);
    case CompleteRun(_) => RunStepKeepsInv(s, e);
    case HoldRun(_) => RunStepKeepsInv(s, e);
    case FailRun(_, _) => RunStepKeepsInv(s, e);
    case Abandon(_) => RunStepKeepsInv(s, e);
    case _ => UserStepKeepsInv(s, e);
  }

  lemma {:induction false} RunKeepsInv(s: System, events: seq<Event>, t: System)
    requires Inv(s) && IsRun(s, events, t)
    ensures Inv(t)
    decreases |events|
  {
    if events != [] {
      StepKeepsInv(s, events[0]);
      RunKeepsInv(Next(s, events[0]), events[1..], t);
    }
  }

  lemma ReachableInv(s: System)
    requires Reachable(s)
    ensures Inv(s)
  {
    var start, events :| IsRun(Initial(start), events, s);
    RunKeepsInv(Initial(start), events, s);
  }

  // ---------- fencing and audit, in every reachable state ----------

  /** Fencing by worker id alone is sound: a worker whose ownership check passes is executing the
      job's current attempt, which carries its id and the job's attempt number. */
  lemma FencingIsSound(s: System, w: WorkerId)
    requires Reachable(s)
    requires IsExecuting(s, w) && Owns(s.db, s.workers[w].job, w)
    ensures
      var j, a := s.workers[w].job, s.workers[w].attempt;
      && (forall k :: OpenFor(s.db.attempts, j, k) <==> k == a)
      && OpenFor(s.db.attempts, j, a)
      && s.db.attempts[a].worker == w
      && s.db.attempts[a].number == s.db.jobs[j].attempts
  {
    ReachableInv(s);
    var j, a := s.workers[w].job, s.workers[w].attempt;
    assert WorkerOk(s.db, w, j, a);
    assert OpenFor(s.db.attempts, j, a);
  }

  /** A worker whose attempt was taken away changes no row of any table, whatever it does next. */
  lemma StaleWorkerWritesNothing(s: System, e: Event)
    requires Reachable(s) && RunEvent(e) && Enabled(s, e)
    requires !OpenFor(s.db.attempts, s.workers[e.w].job, s.workers[e.w].attempt)
    ensures Next(s, e).db == s.db
  {
    ReachableInv(s);
    RunStepIsFenced(s, e);
  }

  /** Completing, holding, failing or cancelling closes exactly the caller's own attempt row. */
  lemma TerminalStepClosesOwnAttempt(s: System, e: Event)
    requires Reachable(s) && RunEvent(e) && Enabled(s, e)
    requires Owns(s.db, s.workers[e.w].job, e.w)
    requires e.Beat? ==> s.db.jobs[s.workers[e.w].job].cancelRequested
    requires !e.Abandon?
    ensures
      var a, t := s.workers[e.w].attempt, Next(s, e);
      && a < |s.db.attempts| == |t.db.attempts|
      && t.db.attempts == s.db.attempts[a := t.db.attempts[a]]
      && s.db.attempts[a].finishedAt.None? && t.db.attempts[a].finishedAt == Some(s.now)
      && t.db.attempts[a].worker == e.w
      && t.db.jobs[s.workers[e.w].job].status != Running
  {
    ReachableInv(s);
    RunStepIsFenced(s, e);
    var w, j, a, t := e.w, s.workers[e.w].job, s.workers[e.w].attempt, Next(s, e);
    assert WorkerOk(s.db, w, j, a);
    assert OpenFor(s.db.attempts, j, a);
    LatestOpenIsTheOpenOne(s.db, j, a);
  }

  /** The audit trail matches the state: one open attempt when running, with the lock holder's id and
      the job's attempt number; none otherwise. */
  lemma AuditMatchesState(s: System, j: JobId)
    requires Reachable(s) && j in s.db.jobs
    ensures s.db.jobs[j].status != Running ==> forall k :: !OpenFor(s.db.attempts, j, k)
    ensures s.db.jobs[j].status == Running ==>
              exists k :: && (forall l :: OpenFor(s.db.attempts, j, l) <==> l == k)
                          && 0 <= k < |s.db.attempts|
                          && s.db.jobs[j].lockedBy == Some(s.db.attempts[k].worker)
                          && s.db.jobs[j].attempts == s.db.attempts[k].number
  {
    ReachableInv(s);
    if s.db.jobs[j].status == Running {
      var k :| OpenFor(s.db.attempts, j, k);
      assert forall l :: OpenFor(s.db.attempts, j, l) <==> l == k;
    }
  }

  // ---------- bounded retry ----------

  function Claims(events: seq<Event>, j: JobId): nat {
    if events == [] then 0
    else (if events[0].ClaimJob? && events[0].j == j then 1 else 0) + Claims(events[1..], j)
  }

  lemma RunStepAttempts(s: System, e: Event, j: JobId)
    requires RunEvent(e) && Enabled(s, e) && j in s.db.jobs && s.workers[e.w].job in s.db.jobs
    ensures j in Next(s, e).db.jobs
    ensures Next(s, e).db.jobs[j].maxAttempts == s.db.jobs[j].maxAttempts
    ensures Next(s, e).db.jobs[j].attempts == s.db.jobs[j].attempts
  {
    hide LatestOpen, CloseAttempt;
  }

  lemma StepAttempts(s: System, e: Event, j: JobId)
    requires Inv(s) && Enabled(s, e) && j in s.db.jobs && e != RerenderRequest(j)
    ensures j in Next(s, e).db.jobs
    ensures Next(s, e).db.jobs[j].maxAttempts == s.db.jobs[j].maxAttempts
    ensures Next(s, e).db.jobs[j].attempts == s.db.jobs[j].attempts + Claims([e], j)
  {
    hide LatestOpen, AuditOk, RowsOk, Sweep, StaleJobs, Stale, CloseAttempt;
    assert [e][1..] == [];
    if e.SweepOrphans? {
      SweptRows(s.db, s.now, e.leaseSeconds);
    }
    if RunEvent(e) {
      hide Next;
      var w := e.w;
      assert WorkerOk(s.db, w, s.workers[w].job, s.workers[w].attempt);
      RunStepAttempts(s, e, j);
    }
  }

  /** Between two rerenders every claim uses up one of the remaining attempts, so a job is claimed
      at most `maxAttempts - attempts` times. */
  lemma {:induction false} ClaimsAreBounded(s: System, events: seq<Event>, t: System, j: JobId)
    requires Inv(s) && IsRun(s, events, t) && j in s.db.jobs
    requires RerenderRequest(j) !in events
    ensures j in t.db.jobs
    ensures t.db.jobs[j].attempts == s.db.jobs[j].attempts + Claims(events, j)
    ensures Claims(events, j) <= s.db.jobs[j].maxAttempts - s.db.jobs[j].attempts
    decreases |events|
  {
    if events == [] {
      assert RowOk(s.db.jobs[j]);
    } else {
      var e := events[0];
      StepAttempts(s, e, j);
      assert [e][1..] == [];
      StepKeepsInv(s, e);
      ClaimsAreBounded(Next(s, e), events[1..], t, j);
    }
  }

  // ---------- sticky cancel ----------

  /** Chapters of j that some heartbeat of the run lets a worker start. */
  function ChapterStarts(s: System, events: seq<Event>, j: JobId): nat
    decreases |events|
  {
    if events == [] || !Enabled(s, events[0]) then 0
    else
      var e := events[0];
      (if e.Beat? && s.workers[e.w].job == j && HeartbeatResultOf(s.db, j, e.w) == Continue then 1 else 0)
      + ChapterStarts(Next(s, e), events[1..], j)
  }

  lemma StepKeepsCancelFlag(s: System, e: Event, j: JobId)
    requires Enabled(s, e) && j in s.db.jobs && s.db.jobs[j].cancelRequested
    requires forall w :: IsExecuting(s, w) ==> s.workers[w].job in s.db.jobs
    ensures j in Next(s, e).db.jobs && Next(s, e).db.jobs[j].cancelRequested
    ensures e.Beat? && s.workers[e.w].job == j ==> HeartbeatResultOf(s.db, j, e.w) != Continue
  {
    hide LatestOpen, CloseAttempt, Closed;
  }

  /** Once a cancel is requested, no later heartbeat lets a chapter of the job start, in any run,
      rerenders included: the flag is never cleared. */
  lemma {:induction false} CancelIsSticky(s: System, events: seq<Event>, t: System, j: JobId)
    requires Inv(s) && IsRun(s, events, t)
    requires j in s.db.jobs && s.db.jobs[j].cancelRequested
    ensures j in t.db.jobs && t.db.jobs[j].cancelRequested
    ensures ChapterStarts(s, events, j) == 0
    decreases |events|
  {
    hide Next, Enabled, HeartbeatResultOf, RowsOk, AuditOk;
    if events != [] {
      StepKeepsInv(s, events[0]);
      assert forall w :: IsExecuting(s, w) ==> WorkerOk(s.db, w, s.workers[w].job, s.workers[w].attempt);
      StepKeepsCancelFlag(s, events[0], j);
      CancelIsSticky(Next(s, events[0]), events[1..], t, j);
    }
  }

  /** The documented lifecycle, with the sweep and the rerender edges. */
  predicate LifecycleEdge(a: JobStatus, b: JobStatus) {
    match a
    case Queued => b in {Running, Canceled}
    case Running => b in {Succeeded, NeedsReview, Failed, Queued, Canceled}
    case NeedsReview => b in {Succeeded, Failed, Queued}
    case Succeeded => b == Queued
    case Failed => b == Queued
    case Canceled => false
  }

  lemma StepFollowsLifecycle(s: System, e: Event, j: JobId)
    requires Inv(s) && Enabled(s, e) && j in s.db.jobs
    ensures j in Next(s, e).db.jobs
    ensures Next(s, e).db.jobs[j].status == s.db.jobs[j].status
            || LifecycleEdge(s.db.jobs[j].status, Next(s, e).db.jobs[j].status)
  {
    hide LatestOpen, CloseAttempt, AuditOk, Closed, OpenFor, Sweep, StaleJobs;
    assert RowOk(s.db.jobs[j]);
    if e.SweepOrphans? {
      SweptRows(s.db, s.now, e.leaseSeconds);
    }
    if RunEvent(e) {
      var w := e.w;
      assert WorkerOk(s.db, w, s.workers[w].job, s.workers[w].attempt);
    }
  }

  /** A canceled job stays canceled for good: rerender refuses it and nobody can claim it. */
  lemma {:induction false} CanceledIsFinal(s: System, events: seq<Event>, t: System, j: JobId)
    requires Inv(s) && IsRun(s, events, t) && j in s.db.jobs && s.db.jobs[j].status == Canceled
    ensures j in t.db.jobs && t.db.jobs[j].status == Canceled
    decreases |events|
  {
    if events != [] {
      StepKeepsInv(s, events[0]);
      StepFollowsLifecycle(s, events[0], j);
      CanceledIsFinal(Next(s, events[0]), events[1..], t, j);
    }
  }

  // ---------- sweep ----------

  /** After a sweep no running row has an expired lease, every swept job can still be retried or has
      used its attempts up, and rows within their lease are untouched. */
  lemma SweepLeavesNoExpiredLease(s: System, leaseSeconds: int, j: JobId)
    requires Reachable(s) && j in s.db.jobs
    ensures
      var row, t := s.db.jobs[j], Next(s, SweepOrphans(leaseSeconds));
      && (t.db.jobs[j].status == Running ==> t.db.jobs[j].lockedAt.Some?
                                             && t.db.jobs[j].lockedAt.value >= s.now - leaseSeconds)
      && (Stale(row, s.now - leaseSeconds) ==>
            t.db.jobs[j].status == if row.attempts < row.maxAttempts then Queued else Failed)
      && (!Stale(row, s.now - leaseSeconds) ==> t.db.jobs[j] == row)
  {
    ReachableInv(s);
    assert RowOk(s.db.jobs[j]);
  }

  // ---------- two writes outside the fence ----------

  /** The JobCanceled handler writes without re-checking ownership.  Taken apart from the heartbeat
      that preceded it, the write of any executing worker stays within what that worker may write
      exactly when it still owns the row or the row is canceled already.  Otherwise it cancels a job
      the worker does not hold, and closes the attempt of whoever is running it. */
  lemma LateCancelWriteIsOwnIffStillOwner(s: System, w: WorkerId)
    requires Reachable(s) && IsExecuting(s, w)
    ensures s.workers[w].job in s.db.jobs
    ensures
      var j := s.workers[w].job;
      var after, owns := CancelRow(s.db, j, s.now), Owns(s.db, j, w);
      && (OwnWriteOnly(s, w, after) <==> owns || s.db.jobs[j].status == Canceled)
      && (after == s.db <==> s.db.jobs[j].status == Canceled)
      && (!owns && s.db.jobs[j].status != Canceled ==>
            && after.jobs[j].status == Canceled
            && forall k :: OpenFor(s.db.attempts, j, k) ==>
                 s.db.attempts[k].worker != w && after.attempts[k].finishedAt == Some(s.now))
  {
    hide LatestOpen;
    ReachableInv(s);
    var j, a := s.workers[w].job, s.workers[w].attempt;
    assert WorkerOk(s.db, w, j, a) && RowOk(s.db.jobs[j]);
    if Owns(s.db, j, w) {
      assert OpenFor(s.db.attempts, j, a);
      StopRunningByOwner(s, w, Unlocked(s.db.jobs[j]).(status := Canceled), Cancellation, None,
          CancelRow(s.db, j, s.now));
    } else if s.db.jobs[j].status == Running {
      var k :| OpenFor(s.db.attempts, j, k);
      LatestOpenIsTheOpenOne(s.db, j, k);
    } else {
      NoOpenAttempt(s.db, j);
      assert s.db.jobs[j].status == Canceled ==> s.db.jobs[j := s.db.jobs[j]] == s.db.jobs;
    }
  }

  lemma NoOpenAttempt(db: Db, j: JobId)
    requires AuditOk(db) && j in db.jobs && db.jobs[j].status != Running
    ensures forall k :: !OpenFor(db.attempts, j, k)
    ensures LatestOpen(db.attempts, j) == None
  {
    hide LatestOpen;
  }

  /** Worker a's running job j with a cancel request: the heartbeat says Stop. */
  function CancelPending(j: JobId, a: WorkerId, b: WorkerId): System {
    System(Db(map[j := JobRow(Running, Some(a), Some(0), 1, 3, 0, true, 0, None)],
              [AttemptRow(j, 1, a, 0, None, None, None)]),
           map[a := Executing(j, 0), b := Idle], 0)
  }

  /** The same job 901 seconds later, swept and claimed by b; a is still about to write. */
  function TakenOver(j: JobId, a: WorkerId, b: WorkerId): System {
    System(Db(map[j := JobRow(Running, Some(b), Some(901), 2, 3, 901, true, 0, None)],
              [AttemptRow(j, 1, a, 0, Some(901), Some(Outcome.Orphaned), None),
               AttemptRow(j, 2, b, 901, None, None, None)]),
           map[a := Executing(j, 0), b := Executing(j, 1)], 901)
  }

  /** In between: swept and queued again, not yet claimed. */
  function Requeued(j: JobId, a: WorkerId, b: WorkerId): System {
    System(Db(map[j := JobRow(Queued, None, None, 1, 3, 901, true, 0, None)],
              [AttemptRow(j, 1, a, 0, Some(901), Some(Outcome.Orphaned), None)]),
           map[a := Executing(j, 0), b := Idle], 901)
  }

  /** The two workers have started and the job is queued. */
  function BothIdle(j: JobId, a: WorkerId, b: WorkerId): System {
    System(Db(map[j := NewRow(3, 0)], []), map[a := Idle, b := Idle], 0)
  }

  lemma BothIdleIsReachable(j: JobId, a: WorkerId, b: WorkerId)
    requires a != b
    ensures Reachable(BothIdle(j, a, b))
  {
    hide IsRun, LatestOpen, CloseAttempt, Reachable;
    var s := Initial(0);
    StartIsReachable(0);
    ReachNext(s, EnqueueNew(j, 3), s.(db := Enqueue(s.db, j, 3, 0)));
    s := s.(db := Enqueue(s.db, j, 3, 0));
    ReachNext(s, StartWorker(a), s.(workers := map[a := Idle]));
    s := s.(workers := map[a := Idle]);
    ReachNext(s, StartWorker(b), BothIdle(j, a, b));
  }

  lemma CancelPendingIsReachable(j: JobId, a: WorkerId, b: WorkerId)
    requires a != b
    ensures Reachable(CancelPending(j, a, b))
  {
    hide IsRun, LatestOpen, CloseAttempt, Reachable;
    BothIdleIsReachable(j, a, b);
    var s := CancelPending(j, a, b);
    var claimed := s.(db := s.db.(jobs := map[j := s.db.jobs[j].(cancelRequested := false)]));
    ReachNext(BothIdle(j, a, b), ClaimJob(a, j), claimed);
    ReachNext(claimed, AskCancel(j), s);
  }

  lemma RequeuedIsReachable(j: JobId, a: WorkerId, b: WorkerId)
    requires a != b
    ensures Reachable(Requeued(j, a, b))
  {
    hide IsRun, CloseAttempt, Reachable;
    CancelPendingIsReachable(j, a, b);
    var s := CancelPending(j, a, b);
    var t1 := s.(now := 901);
    ReachNext(s, Tick(901), t1);
    var swept := Requeued(j, a, b);
    assert OpenFor(t1.db.attempts, j, 0);
    assert LatestOpen(t1.db.attempts, j) == Some(0);
    assert Sweep(t1.db, 901, 900).jobs == swept.db.jobs;
    assert Sweep(t1.db, 901, 900).attempts == swept.db.attempts;
    ReachNext(t1, SweepOrphans(900), swept);
  }

  lemma TakenOverIsReachable(j: JobId, a: WorkerId, b: WorkerId)
    requires a != b
    ensures Reachable(TakenOver(j, a, b))
  {
    hide IsRun, CloseAttempt, Reachable, LatestOpen;
    RequeuedIsReachable(j, a, b);
    ReachNext(Requeued(j, a, b), ClaimJob(b, j), TakenOver(j, a, b));
  }

  /** Before anyone claims the job again, the late write turns the queued row, which the worker does not
      hold, into a canceled one. */
  lemma LateCancelWriteCanHitAQueuedJob(j: JobId, a: WorkerId, b: WorkerId)
    requires a != b
    ensures
      var s, t := CancelPending(j, a, b), Requeued(j, a, b);
      && Reachable(s) && Reachable(t) && s.workers[a] == t.workers[a] == Executing(j, 0)
      && HeartbeatResultOf(s.db, j, a) == Stop
      && !Owns(t.db, j, a) && t.db.jobs[j].status == Queued
      && CancelRow(t.db, j, t.now).jobs[j].status == Canceled
      && IsExecuting(t, a) && !OwnWriteOnly(t, a, CancelRow(t.db, j, t.now))
  {
    hide Reachable, IsRun, LatestOpen, CloseAttempt, OwnWriteOnly;
    CancelPendingIsReachable(j, a, b);
    RequeuedIsReachable(j, a, b);
    LateCancelWriteIsOwnIffStillOwner(Requeued(j, a, b), a);
  }

  /** And it can fail: between the heartbeat that said Stop and the write, the lease may expire, the
      sweep requeue the job and another worker claim it, whose attempt the late write then closes. */
  lemma LateCancelWriteCanHitAnotherWorker(j: JobId, a: WorkerId, b: WorkerId)
    requires a != b
    ensures
      var s, t := CancelPending(j, a, b), TakenOver(j, a, b);
      && Reachable(s) && Reachable(t) && s.workers[a] == t.workers[a] == Executing(j, 0)
      && HeartbeatResultOf(s.db, j, a) == Stop
      && Owns(t.db, j, b) && t.workers[b] == Executing(j, 1)
      && CancelRow(t.db, j, t.now).attempts
         == t.db.attempts[1 := Closed(t.db.attempts[1], t.now, Cancellation, None)]
  {
    CancelPendingIsReachable(j, a, b);
    TakenOverIsReachable(j, a, b);
    ReachableInv(TakenOver(j, a, b));
    assert OpenFor(TakenOver(j, a, b).db.attempts, j, 1);
    LatestOpenIsTheOpenOne(TakenOver(j, a, b).db, j, 1);
  }

  lemma {:induction false} RunsCompose(s: System, events: seq<Event>, t: System, e: Event)
    requires IsRun(s, events, t) && Enabled(t, e)
    ensures IsRun(s, events + [e], Next(t, e))
    decreases |events|
  {
    if events == [] {
      assert [e][1..] == [];
    } else {
      RunsCompose(Next(s, events[0]), events[1..], t, e);
      assert (events + [e])[1..] == events[1..] + [e];
    }
  }

  lemma StartIsReachable(now: int)
    ensures Reachable(Initial(now))
  {
    assert IsRun(Initial(now), [], Initial(now));
  }

  lemma ReachNext(s: System, e: Event, t: System)
    requires Reachable(s) && Enabled(s, e) && Next(s, e) == t
    ensures Reachable(t)
  {
    var start, events :| IsRun(Initial(start), events, s);
    RunsCompose(Initial(start), events, s, e);
  }

  /** The MCP cancel tool writes the status without releasing the lock or closing the attempt: it keeps
      the tables in step exactly when the job is not running. */
  lemma McpCancelIsSafeIffNotRunning(s: System, j: JobId)
    requires Reachable(s) && j in s.db.jobs
    ensures Inv(s.(db := McpCancel(s.db, j))) <==> s.db.jobs[j].status != Running
  {
    ReachableInv(s);
    var t := s.(db := McpCancel(s.db, j));
    if s.db.jobs[j].status == Running {
      assert !RowOk(t.db.jobs[j]);
    } else {
      RowChangeKeepsAudit(s.db, j, s.db.jobs[j].(status := Canceled, cancelRequested := true));
      forall v | IsExecuting(t, v)
        ensures WorkerOk(t.db, v, t.workers[v].job, t.workers[v].attempt)
      {
        assert IsExecuting(s, v) && WorkerOk(s.db, v, s.workers[v].job, s.workers[v].attempt);
      }
    }
  }
}
