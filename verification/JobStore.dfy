/** The queue primitives as they run: a store of job and attempt rows whose tables
    the primitives update in place (backend/jobs/queue.py).  Every method is proved
    against the functions of JobRecords; JobSystem reasons about those. */
module JobStore {
  import opened Wrappers
  import opened JobRecords

  class Store {
    var jobs: map<JobId, JobRow>
    var attempts: seq<AttemptRow>

    ghost function Tables(): Db
      reads this
    {
      Db(jobs, attempts)
    }

    constructor ()
      ensures Tables() == Db(map[], [])
    {
      jobs, attempts := map[], [];
    }

    method EnqueueJob(j: JobId, maxAttempts: int, now: int)
      requires j !in jobs
      modifies this
      ensures Tables() == Enqueue(old(Tables()), j, maxAttempts, now)
    {
      jobs := jobs[j := NewRow(maxAttempts, now)];
    }

    /** The claim takes a queued, available job that no other such job precedes. */
    method ClaimNextJob(w: WorkerId, now: int) returns (claimed: Option<JobId>)
      modifies this
      ensures claimed.None? ==> Tables() == old(Tables())
                                && forall j :: j in jobs ==> !Claimable(jobs[j], now)
      ensures claimed.Some? ==>
                var j := claimed.value;
                && j in old(jobs) && Claimable(old(jobs)[j], now)
                && (forall i :: i in old(jobs) && Claimable(old(jobs)[i], now)
                     ==> old(jobs)[j].availableAt <= old(jobs)[i].availableAt)
                && Tables() == Claim(old(Tables()), j, w, now)
    {
      claimed := None;
      var rest := jobs.Keys;
      while rest != {}
        invariant rest <= jobs.Keys
        invariant Tables() == old(Tables())
        invariant claimed.None? ==> forall i :: i in jobs && i !in rest ==> !Claimable(jobs[i], now)
        invariant claimed.Some? ==>
                    && claimed.value in jobs && Claimable(jobs[claimed.value], now)
                    && forall i :: i in jobs && i !in rest && Claimable(jobs[i], now)
                         ==> jobs[claimed.value].availableAt <= jobs[i].availableAt
        decreases rest
      {
        var i :| i in rest;
        rest := rest - {i};
        if Claimable(jobs[i], now) && (claimed.None? || jobs[i].availableAt < jobs[claimed.value].availableAt) {
          claimed := Some(i);
        }
      }
      if claimed.Some? {
        var j := claimed.value;
        var n := jobs[j].attempts + 1;
        jobs := jobs[j := jobs[j].(status := Running, lockedBy := Some(w), lockedAt := Some(now), attempts := n)];
        attempts := attempts + [AttemptRow(j, n, w, now, None, None, None)];
      }
    }

    method RefreshHeartbeat(j: JobId, w: WorkerId, now: int) returns (r: HeartbeatResult)
      requires j in jobs
      modifies this
      ensures r == HeartbeatResultOf(old(Tables()), j, w)
      ensures Tables() == Heartbeat(old(Tables()), j, w, now)
    {
      if jobs[j].lockedBy != Some(w) || jobs[j].status != Running {
        return LeaseLost;
      }
      if jobs[j].cancelRequested {
        return Stop;
      }
      jobs := jobs[j := jobs[j].(lockedAt := Some(now))];
      return Continue;
    }

    /** The query for the latest open attempt row, as a scan. */
    method FindLatestOpen(j: JobId) returns (best: Option<nat>)
      ensures best == LatestOpen(attempts, j)
    {
      best := None;
      for i := 0 to |attempts|
        invariant best == LatestOpen(attempts[..i], j)
      {
        assert attempts[..i+1][..i] == attempts[..i];
        if attempts[i].job == j && attempts[i].finishedAt.None?
           && (best.None? || attempts[best.value].number < attempts[i].number) {
          best := Some(i);
        }
      }
      assert attempts[..|attempts|] == attempts;
    }

    method CloseAttemptOf(j: JobId, now: int, outcome: Outcome, error: Option<string>)
      modifies this`attempts
      ensures attempts == CloseAttempt(old(attempts), j, now, outcome, error)
    {
      var last := FindLatestOpen(j);
      if last.Some? {
        attempts := attempts[last.value := Closed(attempts[last.value], now, outcome, error)];
      }
    }

    method CompleteJob(j: JobId, w: WorkerId, now: int) returns (owned: bool)
      requires j in jobs
      modifies this
      ensures owned == Owns(old(Tables()), j, w)
      ensures Tables() == Complete(old(Tables()), j, w, now)
    {
      if jobs[j].lockedBy != Some(w) || jobs[j].status != Running {
        return false;
      }
      jobs := jobs[j := jobs[j].(status := Succeeded, progress := 100)];
      jobs := jobs[j := jobs[j].(lockedBy := None, lockedAt := None)];
      CloseAttemptOf(j, now, Success, None);
      return true;
    }

    method HoldForReview(j: JobId, w: WorkerId, now: int) returns (owned: bool)
      requires j in jobs
      modifies this
      ensures owned == Owns(old(Tables()), j, w)
      ensures Tables() == Hold(old(Tables()), j, w, now)
    {
      if jobs[j].lockedBy != Some(w) || jobs[j].status != Running {
        return false;
      }
      jobs := jobs[j := jobs[j].(status := NeedsReview, progress := 100)];
      jobs := jobs[j := jobs[j].(lockedBy := None, lockedAt := None)];
      CloseAttemptOf(j, now, Review, None);
      return true;
    }

    method FailJob(j: JobId, w: WorkerId, error: string, now: int)
      requires j in jobs
      modifies this
      ensures Tables() == Fail(old(Tables()), j, w, error, now)
    {
      if jobs[j].lockedBy != Some(w) {
        return;
      }
      jobs := jobs[j := jobs[j].(error := Some(error), lockedBy := None, lockedAt := None)];
      CloseAttemptOf(j, now, Failure, Some(error));
      if jobs[j].attempts < jobs[j].maxAttempts {
        jobs := jobs[j := jobs[j].(status := Queued, availableAt := now + RETRY_BACKOFF_SECONDS)];
      } else {
        jobs := jobs[j := jobs[j].(status := Failed)];
      }
    }

    /** The JobCanceled handler of the worker. */
    method WriteCanceled(j: JobId, now: int)
      requires j in jobs
      modifies this
      ensures Tables() == CancelRow(old(Tables()), j, now)
    {
      jobs := jobs[j := jobs[j].(status := Canceled)];
      jobs := jobs[j := jobs[j].(lockedBy := None, lockedAt := None)];
      CloseAttemptOf(j, now, Cancellation, None);
    }

    method RequestJobCancel(j: JobId)
      requires j in jobs
      modifies this
      ensures Tables() == RequestCancel(old(Tables()), j)
    {
      jobs := jobs[j := jobs[j].(cancelRequested := true)];
      if jobs[j].status == Queued {
        jobs := jobs[j := jobs[j].(status := Canceled, lockedBy := None, lockedAt := None)];
      }
    }

    /** The loop body of `recover_orphans`. */
    method RecoverRow(j: JobId, now: int)
      requires j in jobs
      modifies this
      ensures Tables() == RecoverOne(old(Tables()), j, now)
    {
      hide LatestOpen;
      var last := FindLatestOpen(j);
      if last.Some? {
        attempts := attempts[last.value := OrphanedAttempt(attempts[last.value], now)];
      }
      if jobs[j].attempts >= jobs[j].maxAttempts {
        jobs := jobs[j := jobs[j].(status := Failed, error := Some("worker died and max attempts exhausted"))];
      } else {
        jobs := jobs[j := jobs[j].(status := Queued, availableAt := now)];
      }
      jobs := jobs[j := jobs[j].(lockedBy := None, lockedAt := None)];
    }

    /** `recover_orphans`: one stale row after the other; the result is the sweep of all at once. */
    method RecoverOrphans(now: int, leaseSeconds: int) returns (count: nat)
      modifies this
      ensures Tables() == Sweep(old(Tables()), now, leaseSeconds)
      ensures count == |StaleJobs(old(Tables()), now - leaseSeconds)|
    {
      var stale := set j | j in jobs && Stale(jobs[j], now - leaseSeconds);
      ghost var all, before := stale, Tables();
      assert all == StaleJobs(before, now - leaseSeconds);
      count := 0;
      SweepOfNone(before, now);
      assert all - stale == {};
      while stale != {}
        invariant stale <= all <= before.jobs.Keys
        invariant count == |all| - |stale|
        invariant Tables() == SweepOf(before, all - stale, now)
        decreases stale
      {
        var j :| j in stale;
        SweepOneMore(before, all - stale, j, now);
        assert all - (stale - {j}) == (all - stale) + {j};
        assert j in jobs;
        RecoverRow(j, now);
        stale := stale - {j};
        count := count + 1;
      }
      assert all - stale == all;
    }

    method ApproveReviewed(j: JobId) returns (ok: bool)
      requires j in jobs
      modifies this
      ensures ok == (old(jobs)[j].status == NeedsReview)
      ensures Tables() == Approve(old(Tables()), j)
    {
      if jobs[j].status != NeedsReview {
        return false;
      }
      jobs := jobs[j := jobs[j].(status := Succeeded)];
      return true;
    }

    method RejectReviewed(j: JobId, reason: string) returns (ok: bool)
      requires j in jobs
      modifies this
      ensures ok == (old(jobs)[j].status == NeedsReview)
      ensures Tables() == Reject(old(Tables()), j, reason)
    {
      if jobs[j].status != NeedsReview {
        return false;
      }
      var error := if reason == "" then "rejected after QC review" else reason;
      jobs := jobs[j := jobs[j].(status := Failed, error := Some(error))];
      return true;
    }

    method RerenderJob(j: JobId, now: int) returns (ok: bool)
      requires j in jobs
      modifies this
      ensures ok == Rerenderable(old(jobs)[j].status)
      ensures Tables() == Rerender(old(Tables()), j, now)
    {
      if jobs[j].status !in {Succeeded, NeedsReview, Failed} {
        return false;
      }
      jobs := jobs[j := jobs[j].(status := Queued, lockedBy := None, availableAt := now, attempts := 0, error := None)];
      return true;
    }
  }

  lemma SweepOfNone(db: Db, now: int)
    ensures SweepOf(db, {}, now) == db
  {
    assert SweepOf(db, {}, now).attempts == db.attempts;
    assert SweepOf(db, {}, now).jobs == db.jobs;
  }

  /** One round of the sweep loop: recovering j after the jobs in `done` is sweeping `done + {j}`. */
  lemma SweepOneMore(db: Db, done: set<JobId>, j: JobId, now: int)
    requires j in db.jobs && j !in done
    ensures j in SweepOf(db, done, now).jobs
    ensures RecoverOne(SweepOf(db, done, now), j, now) == SweepOf(db, done + {j}, now)
  {
    hide LatestOpen;
    var mid, end := SweepOf(db, done, now), SweepOf(db, done + {j}, now);
    LatestOpenFrame(db.attempts, mid.attempts, j);
    var next := RecoverOne(mid, j, now);
    assert next.jobs == end.jobs;
    forall k | 0 <= k < |db.attempts|
      ensures end.attempts[k] == next.attempts[k]
    {
    }
    assert end.attempts == next.attempts;
  }
}
