/** The sequential worker program (backend/worker.py:56-109) among others: one claim, a heartbeat before
    every chapter, and the transition that each way out of the run maps to, while users, sweeps and other
    workers act between any two of its steps.  Its execution is a run of the step system. */
module Worker {
  import opened Wrappers
  import opened JobRecords
  import opened JobStore
  import opened JobSystem

  datatype Chapter = Rendered | Raises(message: string)

  /** How `run_job` would go by itself: it may raise before the first heartbeat (no provider), in a
      chapter, or after the last one (no audio, no output, no manifest). */
  datatype Course = Course(early: Option<string>, chapters: seq<Chapter>, late: Option<string>, gatePasses: bool)

  /** The chapters before the first that raises. */
  function Before(chapters: seq<Chapter>): (n: nat)
    ensures n <= |chapters| && (n < |chapters| ==> chapters[n].Raises?)
    ensures forall k :: 0 <= k < n ==> chapters[k].Rendered?
  {
    if chapters == [] || chapters[0].Raises? then 0 else 1 + Before(chapters[1..])
  }

  /** The heartbeats of a run that nobody stops. */
  function BeatsOf(course: Course): nat {
    var n := Before(course.chapters);
    if course.early.Some? then 0 else if n < |course.chapters| then n + 1 else n
  }

  /** The last step of a run that nobody stops. */
  function CourseEnd(w: WorkerId, course: Course): Event {
    var n := Before(course.chapters);
    if course.early.Some? then FailRun(w, course.early.value)
    else if n < |course.chapters| then FailRun(w, course.chapters[n].message)
    else if course.late.Some? then FailRun(w, course.late.value)
    else if course.gatePasses then CompleteRun(w) else HoldRun(w)
  }

  /** Where the last step of a run leaves a row that the worker owns. */
  function EndStatus(row: JobRow, last: Event): JobStatus {
    match last
    case CompleteRun(_) => Succeeded
    case HoldRun(_) => NeedsReview
    case FailRun(_, _) => if row.attempts < row.maxAttempts then Queued else Failed
    case _ => Canceled
  }

  /** Where a run that nobody disturbs leaves the claimed row. */
  function FinalStatus(w: WorkerId, row: JobRow, course: Course): JobStatus {
    if row.cancelRequested && BeatsOf(course) > 0 then Canceled else EndStatus(row, CourseEnd(w, course))
  }

  // ---------- the others ----------

  /** A step that is not worker w's. */
  predicate Foreign(e: Event, w: WorkerId) {
    e.StartWorker? || e.ClaimJob? || e.Crash? || RunEvent(e) ==> e.w != w
  }

  /** In the run from s some sweep found the lock of j too old. */
  ghost predicate SweptIn(s: System, events: seq<Event>, j: JobId)
    decreases |events|
  {
    && events != [] && Enabled(s, events[0])
    && (|| (events[0].SweepOrphans? && j in StaleJobs(s.db, s.now - events[0].leaseSeconds))
        || SweptIn(Next(s, events[0]), events[1..], j))
  }

  /** Of all that others may do, only a sweep that finds its lock too old takes the job away from a worker,
      nothing gives it back while it works, and only a cancel request changes its row otherwise. */
  lemma ForeignStep(s: System, e: Event, w: WorkerId, j: JobId)
    requires Enabled(s, e) && Foreign(e, w) && w in s.workers && j in s.db.jobs
    ensures
      var t := Next(s, e);
      var swept := e.SweepOrphans? && j in StaleJobs(s.db, s.now - e.leaseSeconds);
      && w in t.workers && t.workers[w] == s.workers[w] && j in t.db.jobs
      && (Owns(t.db, j, w) <==> Owns(s.db, j, w) && !swept)
      && (Owns(s.db, j, w) && !swept && e != AskCancel(j) ==> t.db.jobs[j] == s.db.jobs[j])
      && (Owns(s.db, j, w) && !swept ==> t.db.jobs[j].lockedAt == s.db.jobs[j].lockedAt)
      && t.now >= s.now
  {
    hide LatestOpen, CloseAttempt, Sweep, StaleJobs, OpenFor;
    if e.SweepOrphans? {
      SweptRows(s.db, s.now, e.leaseSeconds);
    }
  }

  /** A worker in the middle of a job has lost its lease exactly when a sweep found its lock too old. */
  lemma {:induction false} LeaseIsLostIffSwept(s: System, events: seq<Event>, t: System, w: WorkerId, j: JobId)
    requires IsRun(s, events, t) && (forall e :: e in events ==> Foreign(e, w))
    requires w in s.workers && j in s.db.jobs
    ensures w in t.workers && t.workers[w] == s.workers[w] && j in t.db.jobs
    ensures Owns(t.db, j, w) <==> Owns(s.db, j, w) && !SweptIn(s, events, j)
    ensures Owns(s.db, j, w) && !SweptIn(s, events, j) && AskCancel(j) !in events ==> t.db.jobs[j] == s.db.jobs[j]
    decreases |events|
  {
    hide Next, Enabled, Owns, Foreign, StaleJobs;
    if events != [] {
      var e := events[0];
      ForeignStep(s, e, w, j);
      LeaseIsLostIffSwept(Next(s, e), events[1..], t, w, j);
    }
  }

  // ---------- keeping the lease ----------

  /** w claimed the job or refreshed its lock at `last`, and every sweep comes within its lease of the latest
      such moment. */
  ghost predicate InTime(s: System, events: seq<Event>, w: WorkerId, last: int)
    decreases |events|
  {
    events != [] ==>
      && Enabled(s, events[0])
      && (events[0].SweepOrphans? ==> s.now - last <= events[0].leaseSeconds)
      && InTime(Next(s, events[0]), events[1..], w, if events[0] == Beat(w) then s.now else last)
  }

  /** The latest such moment. */
  function LastBeat(s: System, events: seq<Event>, w: WorkerId, last: int): int
    decreases |events|
  {
    if events == [] || !Enabled(s, events[0]) then last
    else LastBeat(Next(s, events[0]), events[1..], w, if events[0] == Beat(w) then s.now else last)
  }

  lemma StaleIsTooLate(db: Db, j: JobId, now: int, leaseSeconds: int)
    requires j in db.jobs && db.jobs[j].status == Running && db.jobs[j].lockedAt.Some?
    ensures j in StaleJobs(db, now - leaseSeconds) <==> now - db.jobs[j].lockedAt.value > leaseSeconds
  {
  }

  /** Among others' steps, the lock of a job that w refreshed at `last` is found too old exactly when some
      sweep comes later than its lease after that. */
  lemma {:induction false} SweptIffLate(s: System, events: seq<Event>, t: System, w: WorkerId, j: JobId, last: int)
    requires IsRun(s, events, t) && (forall e :: e in events ==> Foreign(e, w))
    requires w in s.workers && Owns(s.db, j, w) && s.db.jobs[j].lockedAt == Some(last)
    ensures SweptIn(s, events, j) <==> !InTime(s, events, w, last)
    ensures j in t.db.jobs && (!SweptIn(s, events, j) ==> t.db.jobs[j].lockedAt == Some(last))
    ensures LastBeat(s, events, w, last) == last
    decreases |events|
  {
    hide Next, Enabled, StaleJobs;
    if events != [] {
      var e := events[0];
      assert Foreign(e, w);
      ForeignStep(s, e, w, j);
      if e.SweepOrphans? {
        StaleIsTooLate(s.db, j, s.now, e.leaseSeconds);
      }
      if Owns(Next(s, e).db, j, w) {
        SweptIffLate(Next(s, e), events[1..], t, w, j, last);
      } else {
        LeaseIsLostIffSwept(Next(s, e), events[1..], t, w, j);
        NoBeatMoves(Next(s, e), events[1..], w, last);
      }
    }
  }

  lemma {:induction false} NoBeatMoves(s: System, events: seq<Event>, w: WorkerId, last: int)
    requires forall e :: e in events ==> Foreign(e, w)
    ensures LastBeat(s, events, w, last) == last
    decreases |events|
  {
    hide Next, Enabled;
    if events != [] && Enabled(s, events[0]) {
      assert Foreign(events[0], w);
      NoBeatMoves(Next(s, events[0]), events[1..], w, last);
    }
  }

  /** A heartbeat that says continue makes the lock as old as now: whatever others do, the worker then keeps
      the job exactly as long as no sweep comes later than its lease after that heartbeat. */
  lemma HeartbeatRenewsTheLease(s: System, w: WorkerId, events: seq<Event>, t: System)
    requires IsExecuting(s, w) && HeartbeatResultOf(s.db, s.workers[w].job, w) == Continue
    requires IsRun(Next(s, Beat(w)), events, t) && forall e :: e in events ==> Foreign(e, w)
    ensures Owns(t.db, s.workers[w].job, w) <==> InTime(Next(s, Beat(w)), events, w, s.now)
  {
    hide IsRun, SweptIn, InTime, Foreign;
    var j, next := s.workers[w].job, Next(s, Beat(w));
    assert Owns(next.db, j, w) && next.db.jobs[j].lockedAt == Some(s.now);
    SweptIffLate(next, events, t, w, j, s.now);
    LeaseIsLostIffSwept(next, events, t, w, j);
  }

  /** In particular no sweep takes the job for a whole lease after the heartbeat. */
  lemma NoSweepWithinTheLease(s: System, w: WorkerId, events: seq<Event>, t: System, leaseSeconds: int)
    requires IsExecuting(s, w) && HeartbeatResultOf(s.db, s.workers[w].job, w) == Continue
    requires IsRun(Next(s, Beat(w)), events, t) && forall e :: e in events ==> Foreign(e, w)
    requires t.now - s.now <= leaseSeconds
    requires forall e :: e in events && e.SweepOrphans? ==> e.leaseSeconds >= leaseSeconds
    ensures Owns(t.db, s.workers[w].job, w)
  {
    hide IsRun, InTime, Foreign, Next, Enabled;
    HeartbeatRenewsTheLease(s, w, events, t);
    BeatTakesNoTime(s, w);
    ShortRunIsInTime(Next(s, Beat(w)), events, t, w, s.now, leaseSeconds);
  }

  lemma BeatTakesNoTime(s: System, w: WorkerId)
    requires IsExecuting(s, w)
    ensures Enabled(s, Beat(w)) && Next(s, Beat(w)).now == s.now
  {
  }

  lemma TimeGoesOn(s: System, e: Event)
    requires Enabled(s, e)
    ensures Next(s, e).now >= s.now
  {
  }

  lemma {:induction false} ShortRunIsInTime(s: System, events: seq<Event>, t: System, w: WorkerId, last: int,
                                            leaseSeconds: int)
    requires IsRun(s, events, t) && forall e :: e in events ==> Foreign(e, w)
    requires forall e :: e in events && e.SweepOrphans? ==> e.leaseSeconds >= leaseSeconds
    requires t.now - last <= leaseSeconds
    ensures s.now <= t.now && InTime(s, events, w, last)
    decreases |events|
  {
    hide Next, Enabled;
    if events != [] {
      assert Foreign(events[0], w);
      TimeGoesOn(s, events[0]);
      ShortRunIsInTime(Next(s, events[0]), events[1..], t, w, last, leaseSeconds);
    }
  }

  lemma {:induction false} TimesJoin(s: System, a: seq<Event>, t: System, b: seq<Event>, w: WorkerId, last: int)
    requires IsRun(s, a, t)
    ensures InTime(s, a + b, w, last) <==> InTime(s, a, w, last) && InTime(t, b, w, LastBeat(s, a, w, last))
    ensures LastBeat(s, a + b, w, last) == LastBeat(t, b, w, LastBeat(s, a, w, last))
    decreases |a|
  {
    hide Next, Enabled;
    if a == [] {
      assert a + b == b;
    } else {
      TimesJoin(Next(s, a[0]), a[1..], t, b, w, if a[0] == Beat(w) then s.now else last);
      assert (a + b)[1..] == a[1..] + b && (a + b)[0] == a[0];
    }
  }

  /** The tables, the other workers and the time: what everybody shares. */
  class World {
    const store: Store
    var workers: map<WorkerId, WorkerState>
    var now: int

    ghost function State(): System
      reads this, store
    {
      System(store.Tables(), workers, now)
    }

    constructor (store: Store, now: int)
      ensures this.store == store && State() == System(store.Tables(), map[], now)
    {
      this.store, this.workers, this.now := store, map[], now;
    }

    /** Others act: whatever of these steps is theirs and possible happens. */
    method Interfere(w: WorkerId, events: seq<Event>) returns (ghost happened: seq<Event>)
      modifies this, store
      ensures IsRun(old(State()), happened, State())
      ensures forall e :: e in happened ==> Foreign(e, w)
    {
      hide Next, Enabled, IsRun, Foreign;
      happened := [];
      EmptyRun(State());
      for i := 0 to |events|
        invariant IsRun(old(State()), happened, State())
        invariant forall e :: e in happened ==> Foreign(e, w)
      {
        var s, e := System(Db(store.jobs, store.attempts), workers, now), events[i];
        if Foreign(e, w) && Enabled(s, e) {
          RunsCompose(old(State()), happened, s, e);
          happened := happened + [e];
          var t := Next(s, e);
          store.jobs, store.attempts, workers, now := t.db.jobs, t.db.attempts, t.workers, t.now;
        }
      }
    }
  }

  lemma EmptyRun(s: System)
    ensures IsRun(s, [], s)
  {
  }

  // ---------- a run in progress ----------

  function Beats(events: seq<Event>, w: WorkerId): nat {
    if events == [] then 0 else (if events[0] == Beat(w) then 1 else 0) + Beats(events[1..], w)
  }

  /** Nobody asked to cancel j, and no sweep took it away. */
  ghost predicate Undisturbed(s: System, events: seq<Event>, j: JobId) {
    AskCancel(j) !in events && !SweptIn(s, events, j)
  }

  /** From s0, where w owns j since `since`, to s, where w is still at it, n heartbeats later. */
  ghost predicate Going(s0: System, events: seq<Event>, s: System, w: WorkerId, j: JobId, since: int, n: nat) {
    && j in s0.db.jobs && IsRun(s0, events, s)
    && w in s0.workers && w in s.workers && s.workers[w] == s0.workers[w] && j in s.db.jobs
    && (Owns(s.db, j, w) <==> !SweptIn(s0, events, j))
    && (SweptIn(s0, events, j) <==> !InTime(s0, events, w, since))
    && (Owns(s.db, j, w) ==> s.db.jobs[j].lockedAt == Some(LastBeat(s0, events, w, since)))
    && (Undisturbed(s0, events, j) ==>
          && s.db.jobs[j] == s0.db.jobs[j].(lockedAt := s.db.jobs[j].lockedAt)
          && (n > 0 ==> !s0.db.jobs[j].cancelRequested))
    && Beats(events, w) == n
  }

  lemma {:induction false} RunsJoin(s: System, a: seq<Event>, t: System, b: seq<Event>, u: System, j: JobId)
    requires IsRun(s, a, t) && IsRun(t, b, u)
    ensures IsRun(s, a + b, u)
    ensures SweptIn(s, a + b, j) <==> SweptIn(s, a, j) || SweptIn(t, b, j)
    decreases |a|
  {
    hide Next, Enabled;
    if a == [] {
      assert a + b == b;
    } else {
      RunsJoin(Next(s, a[0]), a[1..], t, b, u, j);
      assert (a + b)[1..] == a[1..] + b && (a + b)[0] == a[0];
    }
  }

  lemma {:induction false} BeatsJoin(a: seq<Event>, b: seq<Event>, w: WorkerId)
    ensures Beats(a + b, w) == Beats(a, w) + Beats(b, w)
  {
    if a == [] {
      assert a + b == b;
    } else {
      BeatsJoin(a[1..], b, w);
      assert (a + b)[1..] == a[1..] + b && (a + b)[0] == a[0];
    }
  }

  lemma {:induction false} NoBeats(events: seq<Event>, w: WorkerId)
    requires forall e :: e in events ==> Foreign(e, w)
    ensures Beats(events, w) == 0
  {
    if events != [] {
      assert Foreign(events[0], w);
      NoBeats(events[1..], w);
    }
  }

  lemma GoingForeign(s0: System, events: seq<Event>, s: System, w: WorkerId, j: JobId, since: int,
                     n: nat, happened: seq<Event>, t: System)
    requires Going(s0, events, s, w, j, since, n)
    requires IsRun(s, happened, t) && forall e :: e in happened ==> Foreign(e, w)
    ensures Going(s0, events + happened, t, w, j, since, n)
    ensures w in s.workers && w in t.workers && t.workers[w] == s.workers[w] && j in t.db.jobs
  {
    hide IsRun, SweptIn, Foreign, Owns, Beats, InTime, LastBeat;
    RunsJoin(s0, events, s, happened, t, j);
    TimesJoin(s0, events, s, happened, w, since);
    if Owns(s.db, j, w) {
      SweptIffLate(s, happened, t, w, j, LastBeat(s0, events, w, since));
    }
    LeaseIsLostIffSwept(s, happened, t, w, j);
    BeatsJoin(events, happened, w);
    NoBeats(happened, w);
  }

  /** One step of w's own: it sweeps nothing and asks nothing. */
  lemma OwnStep(s0: System, events: seq<Event>, s: System, w: WorkerId, j: JobId, since: int, e: Event)
    requires IsRun(s0, events, s) && RunEvent(e) && e.w == w && Enabled(s, e)
    ensures IsRun(s0, events + [e], Next(s, e))
    ensures SweptIn(s0, events + [e], j) <==> SweptIn(s0, events, j)
    ensures AskCancel(j) in events + [e] <==> AskCancel(j) in events
    ensures Beats(events + [e], w) == Beats(events, w) + if e.Beat? then 1 else 0
    ensures InTime(s0, events + [e], w, since) <==> InTime(s0, events, w, since)
    ensures e.Beat? ==> LastBeat(s0, events + [e], w, since) == s.now
  {
    hide Next, Enabled;
    assert [e][1..] == [];
    assert IsRun(s, [e], Next(s, e)) by {
      EmptyRun(Next(s, e));
    }
    RunsJoin(s0, events, s, [e], Next(s, e), j);
    TimesJoin(s0, events, s, [e], w, since);
    BeatsJoin(events, [e], w);
  }

  lemma GoingBeat(s0: System, events: seq<Event>, s: System, w: WorkerId, j: JobId, since: int, a: nat, n: nat)
    requires Going(s0, events, s, w, j, since, n) && s.workers[w] == Executing(j, a)
    requires HeartbeatResultOf(s.db, j, w) == Continue
    ensures Enabled(s, Beat(w)) && Next(s, Beat(w)) == s.(db := Heartbeat(s.db, j, w, s.now))
    ensures Going(s0, events + [Beat(w)], Next(s, Beat(w)), w, j, since, n + 1) && j in Next(s, Beat(w)).db.jobs
  {
    hide IsRun, SweptIn, Beats, InTime, LastBeat;
    OwnStep(s0, events, s, w, j, since, Beat(w));
  }

  /** What the last step of a run means. */
  ghost predicate Ended(s0: System, events: seq<Event>, before: System, end: System, w: WorkerId, j: JobId,
      since: int, course: Course)
  {
    && events != [] && |events| - 1 >= 0
    && var last := events[|events|-1];
    && j in s0.db.jobs && j in before.db.jobs && j in end.db.jobs && w in end.workers && end.workers[w].Idle?
    && IsRun(s0, events[..|events|-1], before) && IsRun(s0, events, end)
    // either the whole course was run, or a heartbeat stopped it
    && (if last == Beat(w) then HeartbeatResultOf(before.db, j, w) != Continue && Beats(events, w) <= BeatsOf(course)
        else last == CourseEnd(w, course) && Beats(events, w) == BeatsOf(course))
    // the fence: the last step writes exactly when no sweep took the job
    && (Owns(before.db, j, w) <==> !SweptIn(s0, events, j))
    // and no sweep takes it exactly when none comes later than its lease after the last heartbeat
    && (SweptIn(s0, events, j) <==> !InTime(s0, events, w, since))
    && (Owns(before.db, j, w) ==> end.db.jobs[j].status == EndStatus(before.db.jobs[j], last))
    && (!Owns(before.db, j, w) && Inv(s0) ==> end.db == before.db)
    && !Owns(end.db, j, w)
    && (Undisturbed(s0, events, j) ==> end.db.jobs[j].status == FinalStatus(w, s0.db.jobs[j], course))
  }

  lemma LastStep(s: System, w: WorkerId, j: JobId, a: nat, e: Event)
    requires w in s.workers && s.workers[w] == Executing(j, a) && j in s.db.jobs
    requires RunEvent(e) && e.w == w && !e.Abandon?
    requires e.Beat? ==> HeartbeatResultOf(s.db, j, w) != Continue
    ensures Enabled(s, e)
    ensures
      var t := Next(s, e);
      && t.now == s.now && t.workers == s.workers[w := Idle] && j in t.db.jobs && !Owns(t.db, j, w)
      && (Owns(s.db, j, w) ==> t.db.jobs[j].status == EndStatus(s.db.jobs[j], e))
      && (Inv(s) && !Owns(s.db, j, w) ==> t.db == s.db)
      && t.db == match e
                 case CompleteRun(_) => Complete(s.db, j, w, s.now)
                 case HoldRun(_) => Hold(s.db, j, w, s.now)
                 case FailRun(_, message) => Fail(s.db, j, w, message, s.now)
                 case _ => if Owns(s.db, j, w) then CancelRow(s.db, j, s.now) else s.db
  {
    hide LatestOpen, CloseAttempt, AuditOk, OpenFor;
    if Inv(s) {
      RunStepIsFenced(s, e);
    }
  }

  lemma EndOfRun(s0: System, events: seq<Event>, s: System, w: WorkerId, j: JobId, since: int, a: nat, n: nat,
      e: Event, course: Course)
    requires Going(s0, events, s, w, j, since, n) && s.workers[w] == Executing(j, a)
    requires RunEvent(e) && e.w == w && !e.Abandon?
    requires if e.Beat? then HeartbeatResultOf(s.db, j, w) != Continue && n < BeatsOf(course)
             else e == CourseEnd(w, course) && n == BeatsOf(course)
    ensures Enabled(s, e) && Ended(s0, events + [e], s, Next(s, e), w, j, since, course)
    ensures IsRun(s0, events + [e], Next(s, e))
    ensures
      Next(s, e) == System(
        match e
        case CompleteRun(_) => Complete(s.db, j, w, s.now)
        case HoldRun(_) => Hold(s.db, j, w, s.now)
        case FailRun(_, message) => Fail(s.db, j, w, message, s.now)
        case _ => if Owns(s.db, j, w) then CancelRow(s.db, j, s.now) else s.db,
        s.workers[w := Idle], s.now)
  {
    hide IsRun, SweptIn, Beats, Next, Enabled, Inv, CourseEnd, BeatsOf, Complete, Hold, Fail, CancelRow, InTime,
      LastBeat;
    LastStep(s, w, j, a, e);
    OwnStep(s0, events, s, w, j, since, e);
    if Inv(s0) {
      RunKeepsInv(s0, events, s);
    }
    assert (events + [e])[..|events + [e]| - 1] == events;
    assert (events + [e])[|events + [e]| - 1] == e;
  }

  predicate Doing(s: System, w: WorkerId, j: JobId, a: nat) {
    w in s.workers && s.workers[w] == Executing(j, a)
  }

  lemma GoingFromClaim(s: System, w: WorkerId, j: JobId, since: int)
    requires w in s.workers && Owns(s.db, j, w) && s.db.jobs[j].lockedAt == Some(since)
    ensures Going(s, [], s, w, j, since, 0)
  {
  }

  lemma BeatIs(s: System, w: WorkerId, j: JobId)
    ensures HeartbeatResultOf(s.db, j, w) != Continue ==> Heartbeat(s.db, j, w, s.now) == s.db
    ensures HeartbeatResultOf(s.db, j, w) == Stop <==> HeartbeatResultOf(s.db, j, w) != Continue && Owns(s.db, j, w)
  {
  }

  /** i chapters into the course, `raised` is what was raised so far. */
  predicate SoFar(course: Course, i: nat, raised: Option<string>) {
    && i <= |course.chapters|
    && if course.early.Some? then i == 0 && raised == course.early
       else if raised.Some? then i == Before(course.chapters) + 1 && raised == Some(course.chapters[i-1].message)
       else i <= Before(course.chapters)
  }

  lemma CourseSoFar(course: Course, i: nat)
    ensures SoFar(course, 0, course.early)
    ensures i < |course.chapters| && SoFar(course, i, None) ==>
              && i < BeatsOf(course) && course.early.None?
              && SoFar(course, i + 1, if course.chapters[i].Raises? then Some(course.chapters[i].message) else None)
  {
  }

  lemma CourseDone(w: WorkerId, course: Course, i: nat, raised: Option<string>)
    requires SoFar(course, i, raised) && (i < |course.chapters| ==> raised.Some?)
    ensures i == BeatsOf(course)
    ensures
      var r := if raised.Some? then raised else course.late;
      CourseEnd(w, course) == if r.Some? then FailRun(w, r.value) else if course.gatePasses then CompleteRun(w)
          else HoldRun(w)
    ensures RunEvent(CourseEnd(w, course)) && CourseEnd(w, course).w == w
  {
  }

  lemma ClaimedIsOwned(s: System, w: WorkerId, j: JobId)
    requires w in s.workers && s.workers[w].Idle? && j in s.db.jobs && Claimable(s.db.jobs[j], s.now)
    ensures Enabled(s, ClaimJob(w, j)) && Owns(Claim(s.db, j, w, s.now), j, w)
    ensures Claim(s.db, j, w, s.now).jobs[j].lockedAt == Some(s.now)
  {
  }

  lemma RunAfter(s: System, e: Event, events: seq<Event>, t: System)
    requires Enabled(s, e) && IsRun(Next(s, e), events, t)
    ensures IsRun(s, [e] + events, t)
  {
    assert ([e] + events)[1..] == events;
  }

  /** The run after the claim, as the worker drives it among the others. */
  method RunClaimed(world: World, w: WorkerId, j: JobId, ghost since: int, ghost a: nat, course: Course,
                    others: nat -> seq<Event>)
      returns (ghost events: seq<Event>, ghost before: System)
    requires w in world.workers && world.workers[w] == Executing(j, a) && Owns(world.store.Tables(), j, w)
    requires world.store.jobs[j].lockedAt == Some(since)
    modifies world, world.store
    ensures Ended(old(world.State()), events, before, world.State(), w, j, since, course)
    ensures IsRun(old(world.State()), events, world.State())
  {
    hide Next, Enabled, IsRun, CancelRow, Heartbeat, HeartbeatResultOf, Fail, Complete, Hold, Owns, Going, Ended, SoFar,
      CourseEnd, BeatsOf, Foreign;
    ghost var s0, s := world.State(), world.State();
    ghost var happened;
    var store, raised, i := world.store, course.early, 0;
    events := [];
    GoingFromClaim(s0, w, j, since);
    happened := world.Interfere(w, others(0));
    GoingForeign(s0, events, s, w, j, since, 0, happened, world.State());
    events, s := events + happened, world.State();
    CourseSoFar(course, 0);
    while i < |course.chapters| && raised.None?
      invariant s == world.State() && world.store == store && SoFar(course, i, raised)
      invariant Going(s0, events, s, w, j, since, i) && Doing(s, w, j, a) && j in s.db.jobs
    {
      CourseSoFar(course, i);
      before := s;
      var beat := store.RefreshHeartbeat(j, w, world.now);
      BeatIs(s, w, j);
      if beat != Continue {
        EndOfRun(s0, events, s, w, j, since, a, i, Beat(w), course);
        events := events + [Beat(w)];
        if beat == Stop {
          store.WriteCanceled(j, world.now);
        }
        world.workers := world.workers[w := Idle];
        return;
      }
      GoingBeat(s0, events, s, w, j, since, a, i);
      events, s := events + [Beat(w)], world.State();
      happened := world.Interfere(w, others(2 * i + 1));
      GoingForeign(s0, events, s, w, j, since, i + 1, happened, world.State());
      events, s := events + happened, world.State();
      if course.chapters[i].Raises? {
        raised := Some(course.chapters[i].message);
      }
      i := i + 1;
      happened := world.Interfere(w, others(2 * i));
      GoingForeign(s0, events, s, w, j, since, i, happened, world.State());
      events, s := events + happened, world.State();
    }
    CourseDone(w, course, i, raised);
    if raised.None? {
      raised := course.late;
    }
    before := s;
    ghost var e := CourseEnd(w, course);
    EndOfRun(s0, events, s, w, j, since, a, i, e, course);
    events := events + [e];
    if raised.Some? {
      store.FailJob(j, w, raised.value, world.now);
    } else if course.gatePasses {
      var owned := store.CompleteJob(j, w, world.now);
    } else {
      var owned := store.HoldForReview(j, w, world.now);
    }
    world.workers := world.workers[w := Idle];
  }

  /** One pass of the worker loop: it claims when something can be claimed, and whatever the others do, the
      job it claimed is not its own when it is done. */
  method ProcessOne(world: World, w: WorkerId, course: Course, others: nat -> seq<Event>)
      returns (claimed: Option<JobId>, ghost events: seq<Event>, ghost before: System)
    requires w in world.workers && world.workers[w].Idle?
    modifies world, world.store
    ensures claimed.None? ==>
              && world.State() == old(world.State()) && events == []
              && forall j :: j in world.store.jobs ==> !Claimable(world.store.jobs[j], world.now)
    ensures claimed.Some? ==>
              var j, s := claimed.value, old(world.State());
              && j in s.db.jobs && Claimable(s.db.jobs[j], s.now)
              && (forall i :: i in s.db.jobs && Claimable(s.db.jobs[i], s.now) ==>
                    s.db.jobs[j].availableAt <= s.db.jobs[i].availableAt)
              && Enabled(s, ClaimJob(w, j)) && IsRun(s, [ClaimJob(w, j)] + events, world.State())
              && Ended(Next(s, ClaimJob(w, j)), events, before, world.State(), w, j, s.now, course)
  {
    hide IsRun, Ended, Owns, Claim;
    var a := |world.store.attempts|;
    ghost var s0 := world.State();
    claimed := world.store.ClaimNextJob(w, world.now);
    if claimed.None? {
      events, before := [], s0;
      return;
    }
    var j := claimed.value;
    world.workers := world.workers[w := Executing(j, a)];
    ClaimedIsOwned(s0, w, j);
    events, before := RunClaimed(world, w, j, s0.now, a, course, others);
    RunAfter(s0, ClaimJob(w, j), events, world.State());
  }
}
