/** The rows of the durable job queue and what each queue primitive does to them
    (backend/jobs/queue.py, backend/db/models.py).  The functions are the
    specification that the imperative store refines and the step system uses. */
module JobRecords {
  import opened Wrappers

  type JobId = string
  type WorkerId = string

  const RETRY_BACKOFF_SECONDS := 30

  datatype JobStatus = Queued | Running | Succeeded | NeedsReview | Failed | Canceled

  datatype JobRow = JobRow(
    status: JobStatus,
    lockedBy: Option<WorkerId>,
    lockedAt: Option<int>,
    attempts: int,
    maxAttempts: int,
    availableAt: int,
    cancelRequested: bool,
    progress: int,
    error: Option<string>)

  datatype Outcome = Success | Review | Failure | Cancellation | Orphaned

  datatype AttemptRow = AttemptRow(
    job: JobId,
    number: int,
    worker: WorkerId,
    startedAt: int,
    finishedAt: Option<int>,
    outcome: Option<Outcome>,
    error: Option<string>)

  datatype Db = Db(jobs: map<JobId, JobRow>, attempts: seq<AttemptRow>)

  // ---------- attempts ----------

  predicate OpenFor(attempts: seq<AttemptRow>, j: JobId, k: int) {
    0 <= k < |attempts| && attempts[k].job == j && attempts[k].finishedAt.None?
  }

  /** The row of "unfinished attempts of j, highest attempt number first, limit 1". */
  function LatestOpen(attempts: seq<AttemptRow>, j: JobId): (r: Option<nat>)
    ensures r.Some? ==>
              && OpenFor(attempts, j, r.value)
              && forall k :: OpenFor(attempts, j, k) ==> attempts[k].number <= attempts[r.value].number
    ensures r.None? ==> forall k :: !OpenFor(attempts, j, k)
  {
    if attempts == [] then None
    else
      var n := |attempts| - 1;
      var init := attempts[..n];
      var best := LatestOpen(init, j);
      assert forall k :: 0 <= k < n ==> OpenFor(attempts, j, k) == OpenFor(init, j, k);
      if OpenFor(attempts, j, n) && (best.None? || attempts[best.value].number < attempts[n].number)
      then Some(n)
      else best
  }

  function Closed(a: AttemptRow, now: int, outcome: Outcome, error: Option<string>): AttemptRow {
    a.(finishedAt := Some(now), outcome := Some(outcome), error := error)
  }

  /** `_close_attempt`: note that no worker id takes part in the choice of the row. */
  function CloseAttempt(attempts: seq<AttemptRow>, j: JobId, now: int, outcome: Outcome, error: Option<string>)
    : seq<AttemptRow>
  {
    match LatestOpen(attempts, j)
    case None => attempts
    case Some(k) => attempts[k := Closed(attempts[k], now, outcome, error)]
  }

  // ---------- rows ----------

  predicate Claimable(row: JobRow, now: int) {
    row.status == Queued && row.availableAt <= now
  }

  predicate Owns(db: Db, j: JobId, w: WorkerId) {
    j in db.jobs && db.jobs[j].lockedBy == Some(w) && db.jobs[j].status == Running
  }

  function Unlocked(row: JobRow): JobRow {
    row.(lockedBy := None, lockedAt := None)
  }

  predicate IsTerminal(status: JobStatus) {
    status in {Succeeded, NeedsReview, Failed, Canceled}
  }

  // ---------- queue primitives ----------

  function NewRow(maxAttempts: int, now: int): JobRow {
    JobRow(Queued, None, None, 0, maxAttempts, now, false, 0, None)
  }

  function Enqueue(db: Db, j: JobId, maxAttempts: int, now: int): Db {
    db.(jobs := db.jobs[j := NewRow(maxAttempts, now)])
  }

  function Claim(db: Db, j: JobId, w: WorkerId, now: int): Db
    requires j in db.jobs
  {
    var n := db.jobs[j].attempts + 1;
    Db(db.jobs[j := db.jobs[j].(status := Running, lockedBy := Some(w), lockedAt := Some(now), attempts := n)],
       db.attempts + [AttemptRow(j, n, w, now, None, None, None)])
  }

  datatype HeartbeatResult = LeaseLost | Stop | Continue

  function HeartbeatResultOf(db: Db, j: JobId, w: WorkerId): HeartbeatResult {
    if !Owns(db, j, w) then LeaseLost
    else if db.jobs[j].cancelRequested then Stop
    else Continue
  }

  function Heartbeat(db: Db, j: JobId, w: WorkerId, now: int): Db {
    if HeartbeatResultOf(db, j, w) == Continue
    then db.(jobs := db.jobs[j := db.jobs[j].(lockedAt := Some(now))])
    else db
  }

  /** The common shape of `complete_job` and `hold_for_review`; a lost lease writes nothing. */
  function Finish(db: Db, j: JobId, w: WorkerId, status: JobStatus, outcome: Outcome, now: int): Db {
    if Owns(db, j, w)
    then Db(db.jobs[j := Unlocked(db.jobs[j]).(status := status, progress := 100)],
            CloseAttempt(db.attempts, j, now, outcome, None))
    else db
  }

  function Complete(db: Db, j: JobId, w: WorkerId, now: int): Db {
    Finish(db, j, w, Succeeded, Success, now)
  }

  function Hold(db: Db, j: JobId, w: WorkerId, now: int): Db {
    Finish(db, j, w, NeedsReview, Review, now)
  }

  /** `fail_job` checks the lock only, not the status. */
  function Fail(db: Db, j: JobId, w: WorkerId, error: string, now: int): Db {
    if j !in db.jobs || db.jobs[j].lockedBy != Some(w) then db
    else
      var row := Unlocked(db.jobs[j]).(error := Some(error));
      var row' := if row.attempts < row.maxAttempts
                  then row.(status := Queued, availableAt := now + RETRY_BACKOFF_SECONDS)
                  else row.(status := Failed);
      Db(db.jobs[j := row'], CloseAttempt(db.attempts, j, now, Failure, Some(error)))
  }

  /** What the worker writes on JobCanceled: no ownership check at all (backend/worker.py:91-96). */
  function CancelRow(db: Db, j: JobId, now: int): Db
    requires j in db.jobs
  {
    Db(db.jobs[j := Unlocked(db.jobs[j]).(status := Canceled)],
       CloseAttempt(db.attempts, j, now, Cancellation, None))
  }

  function RequestCancel(db: Db, j: JobId): Db
    requires j in db.jobs
  {
    var row := db.jobs[j].(cancelRequested := true);
    db.(jobs := db.jobs[j := if row.status == Queued then Unlocked(row).(status := Canceled) else row])
  }

  /** The direct status write of the MCP cancel tool (backend/mcp_server.py:232-243). */
  function McpCancel(db: Db, j: JobId): Db
    requires j in db.jobs
  {
    if db.jobs[j].status in {Succeeded, Failed, Canceled} then db
    else db.(jobs := db.jobs[j := db.jobs[j].(status := Canceled, cancelRequested := true)])
  }

  function Approve(db: Db, j: JobId): Db
    requires j in db.jobs
  {
    if db.jobs[j].status != NeedsReview then db
    else db.(jobs := db.jobs[j := db.jobs[j].(status := Succeeded)])
  }

  function Reject(db: Db, j: JobId, reason: string): Db
    requires j in db.jobs
  {
    if db.jobs[j].status != NeedsReview then db
    else
      var error := if reason == "" then "rejected after QC review" else reason;
      db.(jobs := db.jobs[j := db.jobs[j].(status := Failed, error := Some(error))])
  }

  predicate Rerenderable(status: JobStatus) {
    status in {Succeeded, NeedsReview, Failed}
  }

  /** Rerender clears the lock holder and the attempt count, not the cancel flag. */
  function Rerender(db: Db, j: JobId, now: int): Db
    requires j in db.jobs
  {
    if !Rerenderable(db.jobs[j].status) then db
    else db.(jobs := db.jobs[j := db.jobs[j].(status := Queued, lockedBy := None, availableAt := now,
                                              attempts := 0, error := None)])
  }

  // ---------- orphan sweep ----------

  predicate Stale(row: JobRow, cutoff: int) {
    row.status == Running && row.lockedAt.Some? && row.lockedAt.value < cutoff
  }

  function Recovered(row: JobRow, now: int): JobRow {
    if row.attempts >= row.maxAttempts
    then Unlocked(row).(status := Failed, error := Some("worker died and max attempts exhausted"))
    else Unlocked(row).(status := Queued, availableAt := now)
  }

  function OrphanedAttempt(a: AttemptRow, now: int): AttemptRow {
    a.(finishedAt := Some(now), outcome := Some(Outcome.Orphaned))
  }

  function RecoverOne(db: Db, j: JobId, now: int): Db
    requires j in db.jobs
  {
    var last := LatestOpen(db.attempts, j);
    Db(db.jobs[j := Recovered(db.jobs[j], now)],
       if last.None? then db.attempts
       else db.attempts[last.value := OrphanedAttempt(db.attempts[last.value], now)])
  }

  /** The sweep of the jobs in `stale`, all rows at once: the loop of `recover_orphans` refines it. */
  function SweepOf(db: Db, stale: set<JobId>, now: int): Db {
    Db(map j | j in db.jobs :: if j in stale then Recovered(db.jobs[j], now) else db.jobs[j],
       seq(|db.attempts|, k requires 0 <= k < |db.attempts| =>
         if db.attempts[k].job in stale && LatestOpen(db.attempts, db.attempts[k].job) == Some(k)
         then OrphanedAttempt(db.attempts[k], now)
         else db.attempts[k]))
  }

  function StaleJobs(db: Db, cutoff: int): set<JobId> {
    set j | j in db.jobs && Stale(db.jobs[j], cutoff)
  }

  function Sweep(db: Db, now: int, leaseSeconds: int): Db {
    SweepOf(db, StaleJobs(db, now - leaseSeconds), now)
  }

  /** Which attempt is the latest open one of j depends on the attempts of j only. */
  lemma {:induction false} LatestOpenFrame(a: seq<AttemptRow>, b: seq<AttemptRow>, j: JobId)
    requires |a| == |b|
    requires forall k :: 0 <= k < |a| ==> a[k] == b[k] || (a[k].job != j && b[k].job != j)
    ensures LatestOpen(a, j) == LatestOpen(b, j)
  {
    if a != [] {
      var n := |a| - 1;
      LatestOpenFrame(a[..n], b[..n], j);
    }
  }
}
