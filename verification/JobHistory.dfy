/** What each step does to the columns of a job that users and later steps see
    (backend/jobs/queue.py, backend/worker.py, backend/app.py): the status by the documented lifecycle, the
    recorded error, when a retry may start, and what the closed attempt says. */
module JobHistory {
  import opened Wrappers
  import opened JobRecords
  import opened JobSystem

  // ---------- three columns, event by event ----------

  /** The step is a run step of the worker that holds the lock of j. */
  predicate ByOwner(s: System, e: Event, j: JobId) {
    RunEvent(e) && IsExecuting(s, e.w) && s.workers[e.w].job == j && Owns(s.db, j, e.w)
  }

  predicate Expired(s: System, e: Event, j: JobId)
    requires j in s.db.jobs
  {
    var row := s.db.jobs[j];
    e.SweepOrphans? && row.status == Running && row.lockedAt.Some? && s.now > row.lockedAt.value + e.leaseSeconds
  }

  function RetryOrFail(row: JobRow): JobStatus {
    if row.attempts < row.maxAttempts then Queued else Failed
  }

  /** The lifecycle: which event moves a job where. */
  function StatusAfter(s: System, e: Event, j: JobId): JobStatus
    requires j in s.db.jobs
  {
    var row := s.db.jobs[j];
    if ByOwner(s, e, j) then
      if e.CompleteRun? then Succeeded
      else if e.HoldRun? then NeedsReview
      else if e.FailRun? then RetryOrFail(row)
      else if e.Beat? && row.cancelRequested then Canceled
      else Running
    else if Expired(s, e, j) then RetryOrFail(row)
    else
      match e
      case ClaimJob(_, i) => if i == j then Running else row.status
      case AskCancel(i) => if i == j && row.status == Queued then Canceled else row.status
      case ApproveJob(i) => if i == j && row.status == NeedsReview then Succeeded else row.status
      case RejectJob(i, _) => if i == j && row.status == NeedsReview then Failed else row.status
      case RerenderRequest(i) =>
        if i == j && row.status in {Succeeded, NeedsReview, Failed} then Queued else row.status
      case _ => row.status
  }

  function ErrorAfter(s: System, e: Event, j: JobId): Option<string>
    requires j in s.db.jobs
  {
    var row := s.db.jobs[j];
    if ByOwner(s, e, j) && e.FailRun? then Some(e.message)
    else if Expired(s, e, j) && row.attempts >= row.maxAttempts then Some("worker died and max attempts exhausted")
    else if e.RejectJob? && e.j == j && row.status == NeedsReview then
      Some(if e.reason == "" then "rejected after QC review" else e.reason)
    else if e.RerenderRequest? && e.j == j && StatusAfter(s, e, j) != row.status then None
    else row.error
  }

  /** A retry waits thirty seconds; a swept or rerendered job is available at once. */
  function AvailableAfter(s: System, e: Event, j: JobId): int
    requires j in s.db.jobs
  {
    var row := s.db.jobs[j];
    if StatusAfter(s, e, j) != Queued || row.status == Queued then row.availableAt
    else if e.FailRun? then s.now + 30 else s.now
  }

  lemma RunStepColumns(s: System, e: Event, j: JobId)
    requires Inv(s) && Enabled(s, e) && j in s.db.jobs && RunEvent(e)
    ensures j in Next(s, e).db.jobs
    ensures
      var row := Next(s, e).db.jobs[j];
      && row.status == StatusAfter(s, e, j) && row.error == ErrorAfter(s, e, j)
      && row.availableAt == AvailableAfter(s, e, j)
  {
    hide LatestOpen, CloseAttempt, Inv, Closed, OpenFor;
    InvOf(s, e.w, j);
  }

  lemma InvOf(s: System, w: WorkerId, j: JobId)
    requires Inv(s)
    ensures j in s.db.jobs ==> RowOk(s.db.jobs[j])
    ensures IsExecuting(s, w) ==> WorkerOk(s.db, w, s.workers[w].job, s.workers[w].attempt)
  {
  }

  lemma SweptRow(s: System, e: Event, j: JobId)
    requires Inv(s) && e.SweepOrphans? && j in s.db.jobs
    ensures j in Next(s, e).db.jobs
    ensures
      var row := s.db.jobs[j];
      Next(s, e).db.jobs[j] == if Expired(s, e, j) then Recovered(row, s.now) else row
  {
    hide LatestOpen, AuditOk, OpenFor, Sweep, RowsOk, Recovered;
    SweptRows(s.db, s.now, e.leaseSeconds);
  }

  lemma SweepIsNobodys(s: System, e: Event, j: JobId)
    requires e.SweepOrphans?
    ensures !ByOwner(s, e, j) && !RunEvent(e)
  {
  }

  lemma SweepColumns(s: System, e: Event, j: JobId)
    requires Inv(s) && e.SweepOrphans? && j in s.db.jobs
    ensures j in Next(s, e).db.jobs
    ensures
      var row := Next(s, e).db.jobs[j];
      && row.status == StatusAfter(s, e, j) && row.error == ErrorAfter(s, e, j)
      && row.availableAt == AvailableAfter(s, e, j)
  {
    hide Next, Inv, ByOwner, IsExecuting;
    InvOf(s, "", j);
    SweptRow(s, e, j);
    SweepIsNobodys(s, e, j);
  }

  /** In every reachable state every step moves the status, the error and the availability of every job as
      the lifecycle says. */
  lemma ColumnsFollowTheLifecycle(s: System, e: Event, j: JobId)
    requires Reachable(s) && Enabled(s, e) && j in s.db.jobs
    ensures j in Next(s, e).db.jobs
    ensures
      var row := Next(s, e).db.jobs[j];
      && row.status == StatusAfter(s, e, j) && row.error == ErrorAfter(s, e, j)
      && row.availableAt == AvailableAfter(s, e, j)
  {
    hide LatestOpen, CloseAttempt, AuditOk, Closed, OpenFor, Sweep, StaleJobs;
    ReachableInv(s);
    assert RowOk(s.db.jobs[j]);
    if RunEvent(e) {
      RunStepColumns(s, e, j);
    } else if e.SweepOrphans? {
      SweepColumns(s, e, j);
    }
  }

  // ---------- the other columns ----------

  function AttemptsAfter(s: System, e: Event, j: JobId): int
    requires j in s.db.jobs
  {
    var row := s.db.jobs[j];
    if e.ClaimJob? && e.j == j then row.attempts + 1
    else if e.RerenderRequest? && e.j == j && row.status in {Succeeded, NeedsReview, Failed} then 0
    else row.attempts
  }

  /** The lock is taken by a claim, renewed by a heartbeat that goes on, and given up with the status. */
  function LockAfter(s: System, e: Event, j: JobId): Option<(WorkerId, int)>
    requires j in s.db.jobs
  {
    var row := s.db.jobs[j];
    if StatusAfter(s, e, j) != Running then None
    else if (e.ClaimJob? && e.j == j) || (ByOwner(s, e, j) && e.Beat?) then Some((e.w, s.now))
    else if row.lockedBy.Some? && row.lockedAt.Some? then Some((row.lockedBy.value, row.lockedAt.value))
    else None
  }

  predicate CountersAre(s: System, e: Event, j: JobId, after: JobRow)
    requires j in s.db.jobs
  {
    var row := s.db.jobs[j];
    && after.attempts == AttemptsAfter(s, e, j) && after.maxAttempts == row.maxAttempts
    && (after.cancelRequested <==> row.cancelRequested || e == AskCancel(j))
    && (after.lockedBy, after.lockedAt)
       == match LockAfter(s, e, j) { case Some((w, at)) => (Some(w), Some(at)) case None => (None, None) }
  }

  lemma RunStepCounters(s: System, e: Event, j: JobId)
    requires Inv(s) && Enabled(s, e) && j in s.db.jobs && RunEvent(e)
    ensures j in Next(s, e).db.jobs && CountersAre(s, e, j, Next(s, e).db.jobs[j])
  {
    hide LatestOpen, CloseAttempt, Inv, Closed, OpenFor;
    InvOf(s, e.w, j);
  }

  lemma SweepCounters(s: System, e: Event, j: JobId)
    requires Inv(s) && e.SweepOrphans? && j in s.db.jobs
    ensures j in Next(s, e).db.jobs && CountersAre(s, e, j, Next(s, e).db.jobs[j])
  {
    hide Next, Inv, ByOwner, IsExecuting;
    InvOf(s, "", j);
    SweptRow(s, e, j);
    SweepIsNobodys(s, e, j);
  }

  /** And every step moves the attempt count, the cancel flag and the lock of every job like this. */
  lemma CountersFollowTheLifecycle(s: System, e: Event, j: JobId)
    requires Reachable(s) && Enabled(s, e) && j in s.db.jobs
    ensures j in Next(s, e).db.jobs && CountersAre(s, e, j, Next(s, e).db.jobs[j])
  {
    hide LatestOpen, CloseAttempt, AuditOk, Closed, OpenFor, Sweep, StaleJobs;
    ReachableInv(s);
    assert RowOk(s.db.jobs[j]);
    if RunEvent(e) {
      RunStepCounters(s, e, j);
    } else if e.SweepOrphans? {
      SweepCounters(s, e, j);
    }
  }

  // ---------- retries wait ----------

  lemma ReachableNext(s: System, e: Event)
    requires Reachable(s) && Enabled(s, e)
    ensures Reachable(Next(s, e))
  {
    ReachNext(s, e, Next(s, e));
  }

  /** Until it is claimed again, a job that waits for `from` is not claimable before. */
  lemma {:induction false} NotBefore(s: System, events: seq<Event>, t: System, j: JobId, from: int)
    requires Reachable(s) && IsRun(s, events, t) && j in s.db.jobs
    requires s.db.jobs[j].status in {Queued, Canceled} && s.db.jobs[j].availableAt >= from
    requires forall w :: ClaimJob(w, j) !in events
    ensures j in t.db.jobs && t.db.jobs[j].status in {Queued, Canceled} && t.db.jobs[j].availableAt >= from
    decreases |events|
  {
    hide Next, Enabled, Reachable;
    if events != [] {
      var e := events[0];
      ColumnsFollowTheLifecycle(s, e, j);
      ReachableNext(s, e);
      WaitingStays(s, e, j);
      NotBefore(Next(s, e), events[1..], t, j, from);
    }
  }

  lemma WaitingStays(s: System, e: Event, j: JobId)
    requires Reachable(s) && Enabled(s, e) && j in s.db.jobs && s.db.jobs[j].status in {Queued, Canceled}
    requires e.ClaimJob? ==> e.j != j
    ensures StatusAfter(s, e, j) in {Queued, Canceled} && AvailableAfter(s, e, j) == s.db.jobs[j].availableAt
  {
    hide Next, Reachable;
  }

  /** A failed attempt that is retried is claimed again thirty seconds later at the earliest. */
  lemma RetryWaits(s: System, w: WorkerId, message: string, events: seq<Event>, t: System)
    requires Reachable(s) && IsExecuting(s, w) && Owns(s.db, s.workers[w].job, w)
    requires
      var row := s.db.jobs[s.workers[w].job];
      row.attempts < row.maxAttempts
    requires IsRun(Next(s, FailRun(w, message)), events, t)
    requires forall v :: ClaimJob(v, s.workers[w].job) !in events
    ensures
      var j := s.workers[w].job;
      j in t.db.jobs && (Claimable(t.db.jobs[j], t.now) ==> t.now >= s.now + 30)
  {
    hide Next, Enabled, Reachable, IsRun;
    var e, j := FailRun(w, message), s.workers[w].job;
    FailIsEnabled(s, w, message);
    ColumnsFollowTheLifecycle(s, e, j);
    ReachableNext(s, e);
    NotBefore(Next(s, e), events, t, j, s.now + 30);
  }

  lemma FailIsEnabled(s: System, w: WorkerId, message: string)
    requires IsExecuting(s, w)
    ensures Enabled(s, FailRun(w, message))
  {
  }

  // ---------- finished jobs are complete, failed jobs say why ----------

  predicate Told(row: JobRow) {
    && (row.status in {Succeeded, NeedsReview} ==> row.progress == 100)
    && (row.status == Failed ==> row.error.Some?)
  }

  predicate AllTold(db: Db) {
    forall j :: j in db.jobs ==> Told(db.jobs[j])
  }

  /** Completing or holding sets the progress to 100; nothing else touches it. */
  lemma ProgressStep(s: System, e: Event, j: JobId)
    requires Inv(s) && Enabled(s, e) && j in s.db.jobs
    ensures j in Next(s, e).db.jobs
    ensures Next(s, e).db.jobs[j].progress
            == if ByOwner(s, e, j) && (e.CompleteRun? || e.HoldRun?) then 100 else s.db.jobs[j].progress
  {
    hide LatestOpen, CloseAttempt, AuditOk, Closed, OpenFor, Sweep, StaleJobs, Expired;
    assert RowOk(s.db.jobs[j]);
    if e.SweepOrphans? {
      SweepIsNobodys(s, e, j);
      SweptRow(s, e, j);
    } else if RunEvent(e) {
      assert WorkerOk(s.db, e.w, s.workers[e.w].job, s.workers[e.w].attempt);
    }
  }

  lemma StepKeepsTold(s: System, e: Event)
    requires Reachable(s) && Enabled(s, e) && AllTold(s.db)
    ensures AllTold(Next(s, e).db)
  {
    hide Next, Enabled, Reachable, Inv;
    ReachableInv(s);
    forall j | j in Next(s, e).db.jobs ensures Told(Next(s, e).db.jobs[j]) {
      if j in s.db.jobs {
        assert Told(s.db.jobs[j]);
        ColumnsFollowTheLifecycle(s, e, j);
        ProgressStep(s, e, j);
      } else {
        NewJobIsClaimable(s, e, j);
      }
    }
  }

  /** A new job is there because it was enqueued, and can be claimed at once. */
  lemma NewJobIsClaimable(s: System, e: Event, j: JobId)
    requires Inv(s) && Enabled(s, e) && j !in s.db.jobs && j in Next(s, e).db.jobs
    ensures
      var row := Next(s, e).db.jobs[j];
      && e.EnqueueNew? && e.j == j && Claimable(row, s.now) && row.attempts == 0 && row.maxAttempts == e.maxAttempts
      && !row.cancelRequested && row.error.None? && row.progress == 0
  {
    hide LatestOpen, CloseAttempt, AuditOk, Closed, OpenFor, Sweep, StaleJobs;
    assert forall w :: IsExecuting(s, w) ==> WorkerOk(s.db, w, s.workers[w].job, s.workers[w].attempt);
    if e.SweepOrphans? {
      SweptRows(s.db, s.now, e.leaseSeconds);
    }
  }

  /** In every run from the empty table a finished job has progress 100, and a failed one an error. */
  lemma {:induction false} FinishedJobsAreTold(s: System, events: seq<Event>, t: System)
    requires Reachable(s) && AllTold(s.db) && IsRun(s, events, t)
    ensures AllTold(t.db)
    decreases |events|
  {
    hide Next, Enabled, Reachable, AllTold;
    if events != [] {
      StepKeepsTold(s, events[0]);
      ReachableNext(s, events[0]);
      FinishedJobsAreTold(Next(s, events[0]), events[1..], t);
    }
  }

  lemma ReachableIsTold(s: System)
    requires Reachable(s)
    ensures AllTold(s.db)
  {
    hide IsRun;
    var start, events :| IsRun(Initial(start), events, s);
    StartIsReachable(start);
    FinishedJobsAreTold(Initial(start), events, s);
  }

  // ---------- the audit trail ----------

  /** What a step writes into the attempt it closes. */
  function OutcomeOf(e: Event): Outcome {
    if e.CompleteRun? then Success
    else if e.HoldRun? then Review
    else if e.FailRun? then Failure
    else if e.SweepOrphans? then Outcome.Orphaned
    else Cancellation
  }

  /** A step of the owner that ends the attempt writes its own outcome into its own attempt, with the error of a
      failure. */
  lemma AttemptTellsTheOutcome(s: System, e: Event)
    requires Reachable(s) && RunEvent(e) && Enabled(s, e) && !e.Abandon?
    requires Owns(s.db, s.workers[e.w].job, e.w)
    requires e.Beat? ==> s.db.jobs[s.workers[e.w].job].cancelRequested
    ensures
      var a, t := s.workers[e.w].attempt, Next(s, e);
      && a < |s.db.attempts| == |t.db.attempts|
      && t.db.attempts[a] == s.db.attempts[a].(finishedAt := Some(s.now), outcome := Some(OutcomeOf(e)),
                                               error := if e.FailRun? then Some(e.message) else None)
  {
    hide LatestOpen;
    ReachableInv(s);
    var w, j, a := e.w, s.workers[e.w].job, s.workers[e.w].attempt;
    assert WorkerOk(s.db, w, j, a);
    assert OpenFor(s.db.attempts, j, a);
    LatestOpenIsTheOpenOne(s.db, j, a);
  }

  /** A sweep marks exactly the open attempts of expired jobs as orphaned, now. */
  lemma SweepTellsTheOutcome(s: System, leaseSeconds: int, k: nat)
    requires Reachable(s) && k < |s.db.attempts|
    ensures
      var a, t := s.db.attempts[k], Next(s, SweepOrphans(leaseSeconds));
      && |t.db.attempts| == |s.db.attempts|
      && t.db.attempts[k]
         == if a.finishedAt.None? && a.job in s.db.jobs && Expired(s, SweepOrphans(leaseSeconds), a.job)
            then a.(finishedAt := Some(s.now), outcome := Some(Outcome.Orphaned)) else a
  {
    hide LatestOpen, Sweep;
    ReachableInv(s);
    SweptRows(s.db, s.now, leaseSeconds);
    SweptAttempt(s.db, s.now, leaseSeconds, k);
  }

  /** A claim opens one attempt, started now, and no other step opens any. */
  lemma ClaimOpensTheAttempt(s: System, e: Event)
    requires Reachable(s) && Enabled(s, e)
    ensures
      var t := Next(s, e);
      if e.ClaimJob? then
        && |t.db.attempts| == |s.db.attempts| + 1 && s.db.attempts <= t.db.attempts
        && var a := t.db.attempts[|s.db.attempts|];
           a.startedAt == s.now && a.worker == e.w && a.job == e.j && a.number == s.db.jobs[e.j].attempts + 1
           && OpenFor(t.db.attempts, e.j, |s.db.attempts|) && t.db.jobs[e.j].lockedAt == Some(s.now)
      else |t.db.attempts| == |s.db.attempts|
  {
    hide LatestOpen, Sweep;
    ReachableInv(s);
    if e.SweepOrphans? {
      SweptRows(s.db, s.now, e.leaseSeconds);
    }
  }
}
