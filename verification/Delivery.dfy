/** The whole pipeline: one extension that polls, executes and reports under its dispatch lock,
    and the backend it reports to. */
module Delivery {
  import opened Text
  import opened Cadence
  import opened Outreach
  import opened OutreachRuns
  import opened Dispatch

  datatype JobRef = JobRef(row: RowKey, position: nat)
  datatype Report = Report(job: JobRef, start: int, sent: bool, body: string)

  datatype Sys = Sys(
    worker: Worker,
    jobs: map<nat, JobRef>,     // the job each cycle fetched
    wire: map<nat, Report>,     // reports sent, neither handled by the backend nor lost
    db: Db)

  datatype Action =
    | Invoked
    | StorageServed
    | LockRead(pid: nat)
    | JobFetched(pid: nat, job: JobRef)
    | ReportIssued(pid: nat, sent: bool, body: string)
    | ReportDelivered(pid: nat)
    | ReportLost(pid: nat)
    | Finished(pid: nat)      // no pairing, no job, an exception, the report's response or its failure
    | Restarted
    | Backend(event: Event)   // anything else that happens to the tables

  predicate QueuedIn(db: Db, j: JobRef) {
    j.row in db.tracks && j.position in db.tracks[j.row].jobs && db.tracks[j.row].jobs[j.position].status == Queued
  }

  /** What the poll may return: the oldest queued job of a running campaign. */
  predicate NextPending(db: Db, j: JobRef) {
    && QueuedIn(db, j) && j.row.campaign in db.campaigns && db.campaigns[j.row.campaign].running
    && forall k, p ::
         (k in db.tracks && p in db.tracks[k].jobs && QueuedIn(db, JobRef(k, p))
          && k.campaign in db.campaigns && db.campaigns[k.campaign].running) ==>
         db.tracks[j.row].jobs[j.position].createdAt <= db.tracks[k].jobs[p].createdAt
  }

  function EventOf(r: Report): Event {
    if r.sent then SentReported(r.job.row, r.job.position, r.body) else FailureReported(r.job.row, r.job.position)
  }

  /** A report may be handled at any time after it was sent, whatever became of its cycle. */
  function Act(s: Sys, a: Action): Sys {
    match a
    case Invoked => s.(worker := Invoke(s.worker, s.db.now))
    case StorageServed => s.(worker := Serve(s.worker))
    case LockRead(p) => s.(worker := Gate(s.worker, p))
    case JobFetched(p, j) =>
      if p in s.worker.cycles && s.worker.cycles[p].Locked? && NextPending(s.db, j)
      then s.(worker := Fetched(s.worker, p), jobs := s.jobs[p := j]) else s
    case ReportIssued(p, sent, body) =>
      if p in s.worker.cycles && s.worker.cycles[p].Working? && p in s.jobs
      then s.(worker := Reported(s.worker, p),
              wire := s.wire[p := Report(s.jobs[p], s.worker.cycles[p].start, sent, body)]) else s
    case ReportDelivered(p) =>
      if p in s.wire then s.(db := Apply(s.db, EventOf(s.wire[p])), wire := s.wire - {p}) else s
    case ReportLost(p) => s.(wire := s.wire - {p})
    case Finished(p) => s.(worker := Finish(s.worker, p))
    case Restarted => s.(worker := Restart(s.worker))
    case Backend(e) => if IsReport(e) then s else s.(db := Apply(s.db, e))
  }

  predicate IsReport(e: Event) {
    e.SentReported? || e.FailureReported?
  }

  function NextPast(s: Sys, h: Past, a: Action): Past {
    match a
    case LockRead(p) => PastAfterGate(s.worker, h, p)
    case Finished(p) => PastAfterFinish(s.worker, h, p)
    case Restarted => PastAfterRestart(s.worker, h)
    case _ => h
  }

  // ---------- the invariant ----------

  /** Cycle p fetched job j, and its report is still to be written, handled or lost. */
  predicate Attempts(s: Sys, p: nat, j: JobRef) {
    || (p in s.worker.cycles && s.worker.cycles[p].Working? && p in s.jobs && s.jobs[p] == j)
    || (p in s.wire && s.wire[p].job == j)
  }

  ghost predicate Wired(s: Sys) {
    && (forall p :: p in s.wire ==>
          p < s.worker.nextPid && (p in s.worker.cycles ==> s.worker.cycles[p] == Reporting(s.wire[p].start)))
    && (forall p :: p in s.worker.cycles && s.worker.cycles[p].Working? ==> p in s.jobs)
  }

  ghost predicate AttemptsQueued(s: Sys) {
    forall p, j :: Attempts(s, p, j) ==> QueuedIn(s.db, j)
  }

  ghost predicate OneAttempt(s: Sys) {
    forall p, q, j :: Attempts(s, p, j) && Attempts(s, q, j) ==> p == q
  }

  /** Whatever is being attempted is queued, and no job is attempted twice at a time. */
  ghost predicate SysInvariant(s: Sys, h: Past) {
    && Disciplined(s.worker, h, s.db.now)
    && Invariant(s.db)
    && Wired(s) && AttemptsQueued(s) && OneAttempt(s)
  }

  predicate Fetches(s: Sys, a: Action) {
    a.JobFetched? && a.pid in s.worker.cycles && s.worker.cycles[a.pid].Locked? && NextPending(s.db, a.job)
  }

  /** A job is fetched while a report of it may still reach the backend. */
  predicate Refetches(s: Sys, a: Action) {
    Fetches(s, a) && exists q :: q in s.wire && s.wire[q].job == a.job
  }

  lemma JobKept(steps: seq<Step>, now: int, t: Track, e: TrackEvent, p: nat)
    requires p in t.jobs && !e.Succeeded? && !e.FailedAt?
    ensures p in TrackNext(steps, now, t, e).jobs && TrackNext(steps, now, t, e).jobs[p] == t.jobs[p]
  {
    hide Templates.RenderedWith;
  }

  lemma QueuedKept(db: Db, e: Event, j: JobRef)
    requires WellFormed(db) && QueuedIn(db, j) && !IsReport(e)
    ensures QueuedIn(Apply(db, e), j)
  {
    hide Apply, TrackNext, WellFormed, TickVisits;
    EventActsOnTracks(db, e);
    JobKept(StepsOf(db, j.row), db.now, db.tracks[j.row], EventFor(db, e, j.row), j.position);
  }

  lemma InvariantWellFormed(db: Db)
    requires Invariant(db)
    ensures WellFormed(db)
  {
  }

  lemma ReportIsTimely(s: Sys, h: Past, p: nat)
    requires SysInvariant(s, h) && p in s.wire
    ensures QueuedIn(s.db, s.wire[p].job)
    ensures !Late(s.db, EventOf(s.wire[p])) && !Undoing(s.db, EventOf(s.wire[p])) && !Reviving(s.db, EventOf(s.wire[p]))
  {
    hide Disciplined, Invariant, Wired, OneAttempt;
    assert Attempts(s, p, s.wire[p].job);
  }

  lemma OtherJobKept(steps: seq<Step>, now: int, t: Track, e: TrackEvent, p: nat)
    requires p in t.jobs && !e.Ticked? && (e.Succeeded? || e.FailedAt? ==> e.position != p)
    ensures p in TrackNext(steps, now, t, e).jobs && TrackNext(steps, now, t, e).jobs[p] == t.jobs[p]
  {
  }

  /** A report leaves every other queued job queued. */
  lemma OthersStayQueued(db: Db, r: Report, j: JobRef)
    requires WellFormed(db) && QueuedIn(db, j) && j != r.job
    ensures QueuedIn(Apply(db, EventOf(r)), j)
  {
    hide Apply, TrackNext, WellFormed, TickVisits;
    EventActsOnTracks(db, EventOf(r));
    OtherJobKept(StepsOf(db, j.row), db.now, db.tracks[j.row], EventFor(db, EventOf(r), j.row), j.position);
  }

  /** Attempts do not begin but by a fetch. */
  lemma AttemptsFrom(s: Sys, a: Action, p: nat, j: JobRef)
    requires Wired(s) && Attempts(Act(s, a), p, j)
    ensures Attempts(s, p, j) || (Fetches(s, a) && p == a.pid && j == a.job)
    ensures a.ReportDelivered? && a.pid in s.wire ==> p != a.pid
  {
    hide Apply, NextPending, GateOpen;
  }

  lemma WiredKept(s: Sys, h: Past, a: Action)
    requires Disciplined(s.worker, h, s.db.now) && Wired(s)
    ensures Wired(Act(s, a))
  {
    hide Holds, LeftBehind, Apply, NextPending, GateOpen;
  }

  lemma DisciplineKept(s: Sys, h: Past, a: Action)
    requires Disciplined(s.worker, h, s.db.now) && WellFormed(s.db)
    ensures Disciplined(Act(s, a).worker, NextPast(s, h, a), Act(s, a).db.now)
  {
    hide Disciplined, Apply, WellFormed, Invoke, Serve, Gate, Finish, Restart, Fetched, Reported, PastAfterGate,
      PastAfterFinish, PastAfterRestart, NextPending;
    match a
    case Invoked => InvokeDisciplined(s.worker, h, s.db.now);
    case StorageServed => ServeDisciplined(s.worker, h, s.db.now);
    case LockRead(p) => GateDisciplined(s.worker, h, s.db.now, p);
    case JobFetched(p, _) => ProgressDisciplined(s.worker, h, s.db.now, s.db.now, p);
    case ReportIssued(p, _, _) => ProgressDisciplined(s.worker, h, s.db.now, s.db.now, p);
    case ReportDelivered(p) =>
      if p in s.wire {
        EventActsOnTracks(s.db, EventOf(s.wire[p]));
        ProgressDisciplined(s.worker, h, s.db.now, Act(s, a).db.now, 0);
      }
    case ReportLost(_) =>
    case Finished(p) => FinishDisciplined(s.worker, h, s.db.now, p);
    case Restarted => RestartDisciplined(s.worker, h, s.db.now);
    case Backend(e) =>
      if !IsReport(e) {
        EventActsOnTracks(s.db, e);
        ProgressDisciplined(s.worker, h, s.db.now, Act(s, a).db.now, 0);
      }
  }

  lemma DbKept(s: Sys, h: Past, a: Action)
    requires SysInvariant(s, h)
    ensures Invariant(Act(s, a).db)
  {
    hide Invariant, Apply, Disciplined, Wired, AttemptsQueued, OneAttempt;
    match a
    case ReportDelivered(p) =>
      if p in s.wire {
        ReportIsTimely(s, h, p);
        InvariantExactly(s.db, EventOf(s.wire[p]));
      }
    case Backend(e) =>
      if !IsReport(e) { InvariantExactly(s.db, e); }
    case _ =>
  }

  lemma QueuedStays(s: Sys, a: Action, p: nat, j: JobRef)
    requires WellFormed(s.db) && Wired(s) && AttemptsQueued(s) && OneAttempt(s)
    requires Attempts(Act(s, a), p, j)
    ensures QueuedIn(Act(s, a).db, j)
  {
    AttemptsFrom(s, a, p, j);
    hide Apply, WellFormed, Wired, Attempts, QueuedIn;
    match a
    case ReportDelivered(q) =>
      if q in s.wire {
        assert Attempts(s, q, s.wire[q].job) by { WireAttempts(s, q); }
        OthersStayQueued(s.db, s.wire[q], j);
      }
    case Backend(e) =>
      if !IsReport(e) { QueuedKept(s.db, e, j); }
    case JobFetched(_, k) => if NextPending(s.db, k) { PendingQueued(s.db, k); }
    case _ =>
  }

  lemma WireAttempts(s: Sys, q: nat)
    requires q in s.wire
    ensures Attempts(s, q, s.wire[q].job)
  {
  }

  lemma PendingQueued(db: Db, j: JobRef)
    requires NextPending(db, j)
    ensures QueuedIn(db, j)
  {
  }

  lemma OneAttemptKept(s: Sys, h: Past, a: Action)
    requires SysInvariant(s, h) && !Refetches(s, a)
    ensures OneAttempt(Act(s, a))
  {
    hide Holds, LeftBehind, Invariant, Act;
    forall p, q, j | Attempts(Act(s, a), p, j) && Attempts(Act(s, a), q, j)
      ensures p == q
    {
      AttemptsFrom(s, a, p, j);
      AttemptsFrom(s, a, q, j);
    }
  }

  lemma RefetchAttemptsTwice(s: Sys, a: Action) returns (q: nat)
    requires Wired(s) && Refetches(s, a)
    ensures q != a.pid && q in Act(s, a).wire && Act(s, a).wire[q].job == a.job && Attempts(Act(s, a), a.pid, a.job)
  {
    q :| q in s.wire && s.wire[q].job == a.job;
  }

  /** The joint invariant of extension and backend survives an action if and only if it is not the
      fetch of a job of which a report may still reach the backend. */
  lemma SysInvariantExactly(s: Sys, h: Past, a: Action)
    requires SysInvariant(s, h)
    ensures SysInvariant(Act(s, a), NextPast(s, h, a)) <==> !Refetches(s, a)
  {
    hide Disciplined, Invariant, Wired, Act, NextPast, Refetches, Attempts;
    InvariantWellFormed(s.db);
    if Refetches(s, a) {
      var q := RefetchAttemptsTwice(s, a);
      WireAttempts(Act(s, a), q);
    } else {
      DisciplineKept(s, h, a);
      DbKept(s, h, a);
      WiredKept(s, h, a);
      forall p, j | Attempts(Act(s, a), p, j) ensures QueuedIn(Act(s, a).db, j) { QueuedStays(s, a, p, j); }
      OneAttemptKept(s, h, a);
    }
  }
}
