/** Every run of the extension against the backend: when each report is for a job still queued, what
    the lock contributes to that, and what the pipeline's theorems then say of the whole. */
module DeliveryRuns {
  import opened Text
  import opened Cadence
  import opened Outreach
  import opened OutreachRuns
  import opened Dispatch
  import opened Delivery
  import Templates

  function RunSys(s: Sys, actions: seq<Action>): Sys
    decreases |actions|
  {
    if actions == [] then s else RunSys(Act(s, actions[0]), actions[1..])
  }

  function PastOf(s: Sys, h: Past, actions: seq<Action>): Past
    decreases |actions|
  {
    if actions == [] then h else PastOf(Act(s, actions[0]), NextPast(s, h, actions[0]), actions[1..])
  }

  ghost predicate Start(s: Sys) {
    s.worker == Worker(false, None, [], map[], 0) && s.wire == map[] && Fresh(s.db)
  }

  lemma StartInvariant(s: Sys)
    requires Start(s)
    ensures SysInvariant(s, Past(None, None))
  {
    hide Invariant;
    FreshInvariant(s.db);
  }

  predicate NoRefetch(s: Sys, actions: seq<Action>)
    decreases |actions|
  {
    actions == [] || (!Refetches(s, actions[0]) && NoRefetch(Act(s, actions[0]), actions[1..]))
  }

  /** Whether every report the backend handles in the run is for a job still queued. */
  predicate AllTimely(s: Sys, actions: seq<Action>)
    decreases |actions|
  {
    || actions == []
    || ((actions[0].ReportDelivered? && actions[0].pid in s.wire ==> QueuedIn(s.db, s.wire[actions[0].pid].job))
        && AllTimely(Act(s, actions[0]), actions[1..]))
  }

  lemma {:induction false} InvariantOnSysRuns(s: Sys, h: Past, actions: seq<Action>)
    requires SysInvariant(s, h) && NoRefetch(s, actions)
    ensures SysInvariant(RunSys(s, actions), PastOf(s, h, actions)) && AllTimely(s, actions)
    decreases |actions|
  {
    hide SysInvariant, Act, NextPast, Refetches, QueuedIn;
    if actions != [] {
      var a := actions[0];
      SysInvariantExactly(s, h, a);
      if a.ReportDelivered? && a.pid in s.wire { ReportIsTimely(s, h, a.pid); }
      InvariantOnSysRuns(Act(s, a), NextPast(s, h, a), actions[1..]);
    }
  }

  lemma {:induction false} RunsJoin(s: Sys, a: seq<Action>, b: seq<Action>)
    ensures RunSys(s, a + b) == RunSys(RunSys(s, a), b)
    ensures NoRefetch(s, a + b) <==> NoRefetch(s, a) && NoRefetch(RunSys(s, a), b)
    ensures AllTimely(s, a + b) <==> AllTimely(s, a) && AllTimely(RunSys(s, a), b)
    decreases |a|
  {
    hide Act, Refetches, QueuedIn;
    if a == [] {
      assert a + b == b;
    } else {
      assert (a + b)[1..] == a[1..] + b;
      RunsJoin(Act(s, a[0]), a[1..], b);
    }
  }

  /** What a refetch leads to: the new attempt succeeds, and the old report is then handled for a
      job already sent. */
  function Overtake(p: nat, q: nat): seq<Action> {
    [ReportIssued(p, true, ""), ReportDelivered(p), ReportDelivered(q)]
  }

  lemma {:induction false} NoFetchNoRefetch(s: Sys, actions: seq<Action>)
    requires forall i :: 0 <= i < |actions| ==> !actions[i].JobFetched?
    ensures NoRefetch(s, actions)
    decreases |actions|
  {
    hide Act;
    if actions != [] { NoFetchNoRefetch(Act(s, actions[0]), actions[1..]); }
  }

  lemma RefetchGoesWrong(s: Sys, h: Past, a: Action) returns (more: seq<Action>)
    requires SysInvariant(s, h) && Refetches(s, a)
    ensures NoRefetch(Act(s, a), more) && !AllTimely(Act(s, a), more)
  {
    hide Disciplined, Invariant, NextPending, OneAttempt, AttemptsQueued;
    PendingQueued(s.db, a.job);
    var q := RefetchAttemptsTwice(s, a);
    var s1 := Act(s, a);
    var es := Overtake(a.pid, q);
    more := es;
    NoFetchNoRefetch(s1, es);
    assert es[1..] == [es[1], es[2]] && es[1..][1..] == [es[2]] && es[1..][1..][1..] == [];
    var s2 := Act(s1, es[0]);
    var s3 := Act(s2, es[1]);
    assert s2.wire[a.pid].sent && s2.wire[a.pid].job == a.job && q in s2.wire;
    assert s3.wire[q].job == a.job && !QueuedIn(s3.db, a.job);
    assert !AllTimely(s3, es[1..][1..]);
    assert !AllTimely(s2, es[1..]);
  }

  lemma {:induction false} FirstRefetch(s: Sys, actions: seq<Action>) returns (i: nat)
    requires !NoRefetch(s, actions)
    ensures i < |actions| && NoRefetch(s, actions[..i]) && Refetches(RunSys(s, actions[..i]), actions[i])
    decreases |actions|
  {
    hide Act, Refetches;
    if Refetches(s, actions[0]) {
      i := 0;
    } else {
      var j := FirstRefetch(Act(s, actions[0]), actions[1..]);
      i := j + 1;
      assert actions[..i][1..] == actions[1..][..j];
    }
  }

  /** The exact condition, over runs with restarts, failed requests and reports that arrive however
      late: no job is fetched while a report of it may still arrive, if and only if whatever happens
      after any moment of the run, short of such a fetch, every report is handled for a job that is
      still queued. */
  lemma TimelyExactly(s: Sys, actions: seq<Action>)
    requires Start(s)
    ensures NoRefetch(s, actions)
      <==> forall n, more :: 0 <= n <= |actions| && NoRefetch(RunSys(s, actions[..n]), more) ==>
             AllTimely(s, actions[..n] + more)
  {
    hide Act, Refetches, Start, SysInvariant, NoRefetch, AllTimely, RunSys, Overtake;
    StartInvariant(s);
    if NoRefetch(s, actions) {
      forall n, more | 0 <= n <= |actions| && NoRefetch(RunSys(s, actions[..n]), more)
        ensures AllTimely(s, actions[..n] + more)
      {
        assert actions == actions[..n] + actions[n..];
        RunsJoin(s, actions[..n], actions[n..]);
        RunsJoin(s, actions[..n], more);
        InvariantOnSysRuns(s, Past(None, None), actions[..n] + more);
      }
    } else {
      var n, more := RunAstray(s, actions);
    }
  }

  lemma RunAstray(s: Sys, actions: seq<Action>) returns (n: nat, more: seq<Action>)
    requires Start(s) && !NoRefetch(s, actions)
    ensures n <= |actions| && NoRefetch(RunSys(s, actions[..n]), more) && !AllTimely(s, actions[..n] + more)
  {
    hide Act, Refetches, Start, SysInvariant, NoRefetch, AllTimely, RunSys, Overtake;
    StartInvariant(s);
    var i := FirstRefetch(s, actions);
    InvariantOnSysRuns(s, Past(None, None), actions[..i]);
    more := RefetchGoesWrong(RunSys(s, actions[..i]), PastOf(s, Past(None, None), actions[..i]), actions[i]);
    n := i + 1;
    assert actions[..n] == actions[..i] + [actions[i]];
    RunsJoin(s, actions[..i], [actions[i]]);
    RunOne(RunSys(s, actions[..i]), actions[i]);
    RunsJoin(s, actions[..n], more);
  }

  lemma RunOne(s: Sys, a: Action)
    ensures RunSys(s, [a]) == Act(s, a)
  {
    hide Act;
    assert [a][1..] == [];
  }

  /** At the end of such a run, too, whatever report is still to arrive is for a queued job. */
  lemma ReportsAreForQueuedJobs(s: Sys, actions: seq<Action>, p: nat)
    requires Start(s) && NoRefetch(s, actions) && p in RunSys(s, actions).wire
    ensures QueuedIn(RunSys(s, actions).db, RunSys(s, actions).wire[p].job)
  {
    hide RunSys, PastOf, Start, SysInvariant, NoRefetch;
    StartInvariant(s);
    InvariantOnSysRuns(s, Past(None, None), actions);
    ReportIsTimely(RunSys(s, actions), PastOf(s, Past(None, None), actions), p);
  }

  // ---------- which handled reports are late ----------

  /** The report ends its job's wait: a delivery, or the third recorded failure. */
  predicate Settles(s: Sys, p: nat) {
    p in s.wire && (s.wire[p].sent || JobAttempts(s.db, s.wire[p].job) >= 2)
  }

  function JobAttempts(db: Db, j: JobRef): nat {
    if j.row in db.tracks && j.position in db.tracks[j.row].jobs then db.tracks[j.row].jobs[j.position].attempts else 0
  }

  /** The cycles overtaken so far: another cycle's report settled the job they were attempting. */
  function Overtaken(s: Sys, o: set<nat>, a: Action): set<nat> {
    if a.ReportDelivered? && Settles(s, a.pid)
    then o + set q | q in s.worker.cycles.Keys + s.wire.Keys && q != a.pid && Attempts(s, q, s.wire[a.pid].job)
    else o
  }

  predicate NoneOvertaken(s: Sys, o: set<nat>, actions: seq<Action>)
    decreases |actions|
  {
    || actions == []
    || ((actions[0].ReportDelivered? && actions[0].pid in s.wire ==> actions[0].pid !in o)
        && NoneOvertaken(Act(s, actions[0]), Overtaken(s, o, actions[0]), actions[1..]))
  }

  /** A job under attempt is queued exactly while its attempt has not been overtaken. */
  ghost predicate OvertakenOk(s: Sys, h: Past, o: set<nat>) {
    && Disciplined(s.worker, h, s.db.now) && WellFormed(s.db) && Wired(s)
    && (forall p, j :: Attempts(s, p, j) ==> HasJob(s.db, j) && (QueuedIn(s.db, j) <==> p !in o))
    && (forall p :: p in o ==> p < s.worker.nextPid && (p in s.worker.cycles ==> Started(s.worker.cycles[p])))
  }

  predicate Started(ph: Phase) {
    ph.Working? || ph.Reporting?
  }

  predicate HasJob(db: Db, j: JobRef) {
    j.row in db.tracks && j.position in db.tracks[j.row].jobs
  }

  /** A report changes only its own job's status, and takes it out of the queue exactly if it settles it. */
  lemma ReportSettles(s: Sys, p: nat, j: JobRef)
    requires WellFormed(s.db) && p in s.wire && HasJob(s.db, j)
    ensures var db' := Apply(s.db, EventOf(s.wire[p]));
      HasJob(db', j) && (QueuedIn(db', j) <==> QueuedIn(s.db, j) && !(j == s.wire[p].job && Settles(s, p)))
  {
    hide Apply, TrackNext, WellFormed, TickVisits;
    var e := EventOf(s.wire[p]);
    EventActsOnTracks(s.db, e);
    var t := s.db.tracks[j.row];
    if j == s.wire[p].job {
      OwnJob(StepsOf(s.db, j.row), s.db.now, t, EventFor(s.db, e, j.row), j.position);
    } else {
      OtherJobKept(StepsOf(s.db, j.row), s.db.now, t, EventFor(s.db, e, j.row), j.position);
    }
  }

  lemma OwnJob(steps: seq<Step>, now: int, t: Track, e: TrackEvent, p: nat)
    requires p in t.jobs && (e == Succeeded(p) || e == FailedAt(p))
    ensures var t' := TrackNext(steps, now, t, e);
      && p in t'.jobs
      && (t'.jobs[p].status == Queued
          <==> t.jobs[p].status == Queued && !(e.Succeeded? || t.jobs[p].attempts >= 2))
  {
  }

  lemma QuietBackendKeepsJobs(db: Db, e: Event, j: JobRef)
    requires WellFormed(db) && HasJob(db, j) && !IsReport(e)
    ensures HasJob(Apply(db, e), j) && (QueuedIn(Apply(db, e), j) <==> QueuedIn(db, j))
  {
    hide Apply, TrackNext, WellFormed, TickVisits;
    EventActsOnTracks(db, e);
    JobKept(StepsOf(db, j.row), db.now, db.tracks[j.row], EventFor(db, e, j.row), j.position);
  }

  lemma OvertakenByReport(s: Sys, o: set<nat>, q: nat, p: nat, j: JobRef)
    requires WellFormed(s.db) && Wired(s) && q in s.wire && p != q && Attempts(s, p, j)
    requires HasJob(s.db, j) && (QueuedIn(s.db, j) <==> p !in o)
    ensures var a := ReportDelivered(q);
      HasJob(Act(s, a).db, j) && (QueuedIn(Act(s, a).db, j) <==> p !in Overtaken(s, o, a))
  {
    AttemptKnown(s, p, j);
    ReportSettles(s, q, j);
    OvertakenNow(s, o, q, p);
    OneJobEach(s, p, j);
    hide Apply, WellFormed, Settles, Attempts, QueuedIn, HasJob, Overtaken;
  }

  lemma OvertakenNow(s: Sys, o: set<nat>, q: nat, p: nat)
    requires q in s.wire && p != q
    ensures p in Overtaken(s, o, ReportDelivered(q)) <==> p in o || (Settles(s, q) && Attempts(s, p, s.wire[q].job))
  {
    SettledMeansWired(s, q);
    hide Attempts, Settles;
  }

  /** A cycle attempts one job. */
  lemma OneJobEach(s: Sys, p: nat, j: JobRef)
    requires Wired(s) && Attempts(s, p, j)
    ensures forall k :: Attempts(s, p, k) ==> k == j
  {
  }

  lemma OvertakenAttempt(s: Sys, h: Past, o: set<nat>, a: Action, p: nat, j: JobRef)
    requires OvertakenOk(s, h, o) && Attempts(Act(s, a), p, j)
    ensures HasJob(Act(s, a).db, j) && (QueuedIn(Act(s, a).db, j) <==> p !in Overtaken(s, o, a))
  {
    AttemptsFrom(s, a, p, j);
    if Attempts(s, p, j) {
      KnownAttempt(s, o, a, p, j);
    } else {
      NewAttempt(s, h, o, a);
    }
  }

  lemma KnownAttempt(s: Sys, o: set<nat>, a: Action, p: nat, j: JobRef)
    requires WellFormed(s.db) && Wired(s) && Attempts(s, p, j) && HasJob(s.db, j) && (QueuedIn(s.db, j) <==> p !in o)
    requires a.ReportDelivered? && a.pid in s.wire ==> p != a.pid
    ensures HasJob(Act(s, a).db, j) && (QueuedIn(Act(s, a).db, j) <==> p !in Overtaken(s, o, a))
  {
    hide Apply, WellFormed, Wired, Attempts, QueuedIn, HasJob;
    match a
    case ReportDelivered(q) =>
      if q in s.wire { OvertakenByReport(s, o, q, p, j); }
    case Backend(e) =>
      if !IsReport(e) { QuietBackendKeepsJobs(s.db, e, j); }
    case _ =>
  }

  lemma NewAttempt(s: Sys, h: Past, o: set<nat>, a: Action)
    requires OvertakenOk(s, h, o) && Fetches(s, a)
    ensures HasJob(Act(s, a).db, a.job) && QueuedIn(Act(s, a).db, a.job) && a.pid !in Overtaken(s, o, a)
  {
    hide Disciplined, WellFormed, Wired, Attempts, QueuedIn, HasJob, NextPending;
    PendingQueued(s.db, a.job);
    QueuedHasJob(s.db, a.job);
  }

  lemma QueuedHasJob(db: Db, j: JobRef)
    requires QueuedIn(db, j)
    ensures HasJob(db, j)
  {
  }

  lemma SettledMeansWired(s: Sys, q: nat)
    requires q in s.wire
    ensures forall p :: Attempts(s, p, s.wire[q].job) ==> p in s.worker.cycles.Keys + s.wire.Keys
  {
  }

  lemma AttemptKnown(s: Sys, p: nat, j: JobRef)
    ensures Attempts(s, p, j) ==> p in s.worker.cycles || p in s.wire
  {
  }

  lemma OvertakenStarted(s: Sys, h: Past, o: set<nat>, a: Action)
    requires OvertakenOk(s, h, o)
    ensures var w' := Act(s, a).worker;
      forall p :: p in Overtaken(s, o, a) ==> p < w'.nextPid && (p in w'.cycles ==> Started(w'.cycles[p]))
  {
    hide Holds, LeftBehind, Apply, WellFormed, QueuedIn, HasJob, Settles, NextPending, GateOpen;
  }

  lemma OvertakenKept(s: Sys, h: Past, o: set<nat>, a: Action)
    requires OvertakenOk(s, h, o)
    ensures OvertakenOk(Act(s, a), NextPast(s, h, a), Overtaken(s, o, a))
  {
    DisciplineKept(s, h, a);
    WiredKept(s, h, a);
    WellFormedKept(s, a);
    OvertakenStarted(s, h, o, a);
    forall p, j | Attempts(Act(s, a), p, j)
      ensures HasJob(Act(s, a).db, j) && (QueuedIn(Act(s, a).db, j) <==> p !in Overtaken(s, o, a))
    {
      OvertakenAttempt(s, h, o, a, p, j);
    }
    hide Act, NextPast, Overtaken, Disciplined, Wired, WellFormed, Attempts, HasJob, QueuedIn, Started;
  }

  lemma WellFormedKept(s: Sys, a: Action)
    requires WellFormed(s.db)
    ensures WellFormed(Act(s, a).db)
  {
    hide WellFormed, Apply;
    match a
    case ReportDelivered(q) => if q in s.wire { EventActsOnTracks(s.db, EventOf(s.wire[q])); }
    case Backend(e) => EventActsOnTracks(s.db, e);
    case _ =>
  }

  lemma {:induction false} TimelyAlongRun(s: Sys, h: Past, o: set<nat>, actions: seq<Action>)
    requires OvertakenOk(s, h, o)
    ensures AllTimely(s, actions) <==> NoneOvertaken(s, o, actions)
    decreases |actions|
  {
    hide Act, NextPast, Overtaken, OvertakenOk;
    if actions != [] {
      var a := actions[0];
      if a.ReportDelivered? && a.pid in s.wire { WireQueuedIff(s, h, o, a.pid); }
      hide QueuedIn;
      OvertakenKept(s, h, o, a);
      TimelyAlongRun(Act(s, a), NextPast(s, h, a), Overtaken(s, o, a), actions[1..]);
    }
  }

  lemma WireQueuedIff(s: Sys, h: Past, o: set<nat>, p: nat)
    requires OvertakenOk(s, h, o) && p in s.wire
    ensures QueuedIn(s.db, s.wire[p].job) <==> p !in o
  {
    WireAttempts(s, p);
    hide QueuedIn, Attempts, Disciplined;
  }

  /** In any run at all, the reports handled for jobs no longer queued are exactly those of cycles
      that were overtaken: while they attempted their job, another cycle's report settled it. */
  lemma HandledExactly(s: Sys, actions: seq<Action>)
    requires Start(s)
    ensures AllTimely(s, actions) <==> NoneOvertaken(s, {}, actions)
  {
    hide Invariant;
    FreshInvariant(s.db);
    InvariantWellFormed(s.db);
    TimelyAlongRun(s, Past(None, None), {}, actions);
  }

  // ---------- what the lock rules out ----------

  /** The network's part: a living cycle never ends with its report outstanding, and the report of
      a cycle that a restart cut short is handled or lost within the lock's lifetime. */
  predicate Tardy(s: Sys, a: Action) {
    || (a.Finished? && Finish(s.worker, a.pid) != s.worker && a.pid in s.wire)
    || (Fetches(s, a)
        && exists q :: q in s.wire && q !in s.worker.cycles && s.db.now >= s.wire[q].start + LOCK_TTL)
  }

  predicate Prompt(s: Sys, actions: seq<Action>)
    decreases |actions|
  {
    actions == [] || (!Tardy(s, actions[0]) && Prompt(Act(s, actions[0]), actions[1..]))
  }

  /** A report without its cycle is that of the dispatch cut short last, or older than the lock's lifetime. */
  ghost predicate OrphansKnown(s: Sys, h: Past) {
    forall p :: p in s.wire && p !in s.worker.cycles && s.db.now < s.wire[p].start + LOCK_TTL ==>
      h.cut == Some(Cut(p, s.wire[p].start))
  }

  lemma OrphansKept(s: Sys, h: Past, a: Action)
    requires Disciplined(s.worker, h, s.db.now) && WellFormed(s.db) && Wired(s) && OrphansKnown(s, h) && !Tardy(s, a)
    ensures OrphansKnown(Act(s, a), NextPast(s, h, a))
  {
    if a.LockRead? && a.pid in s.worker.cycles && s.worker.cycles[a.pid].Sampled?
       && GateOpen(s.worker, s.worker.cycles[a.pid]) && h.cut.Some? {
      NewDispatchExactly(s.worker, h, s.db.now, a.pid);
    }
    TimePasses(s, a);
    hide Holds, LeftBehind, Apply, WellFormed, NextPending, GateOpen;
  }

  lemma TimePasses(s: Sys, a: Action)
    requires WellFormed(s.db)
    ensures Act(s, a).db.now >= s.db.now
  {
    hide WellFormed, Apply;
    match a
    case ReportDelivered(q) => if q in s.wire { EventActsOnTracks(s.db, EventOf(s.wire[q])); }
    case Backend(e) => EventActsOnTracks(s.db, e);
    case _ =>
  }

  lemma PromptFetchIsFirst(s: Sys, h: Past, a: Action)
    requires Disciplined(s.worker, h, s.db.now) && Wired(s) && OrphansKnown(s, h) && !Tardy(s, a)
    ensures !Refetches(s, a)
  {
    hide Holds, LeftBehind, NextPending;
  }

  lemma {:induction false} PromptRuns(s: Sys, h: Past, actions: seq<Action>)
    requires Disciplined(s.worker, h, s.db.now) && WellFormed(s.db) && Wired(s) && OrphansKnown(s, h)
    requires Prompt(s, actions)
    ensures NoRefetch(s, actions)
    decreases |actions|
  {
    hide Act, NextPast, Disciplined, WellFormed, Wired, OrphansKnown, Tardy, Refetches;
    if actions != [] {
      var a := actions[0];
      PromptFetchIsFirst(s, h, a);
      DisciplineKept(s, h, a);
      WellFormedKept(s, a);
      WiredKept(s, h, a);
      OrphansKept(s, h, a);
      PromptRuns(Act(s, a), NextPast(s, h, a), actions[1..]);
    }
  }

  /** What the lock achieves: however cycles interleave and whenever the service worker restarts, no
      job is fetched while a report of it may still arrive, on a network that is prompt. */
  lemma LockRulesOutRefetch(s: Sys, actions: seq<Action>)
    requires Start(s) && Prompt(s, actions)
    ensures NoRefetch(s, actions)
  {
    hide Invariant;
    FreshInvariant(s.db);
    InvariantWellFormed(s.db);
    PromptRuns(s, Past(None, None), actions);
  }

  // ---------- the run that goes wrong ----------

  /** The request of a success report fails at the extension, which drops the lock; the next cycle
      fetches the job again. */
  function Again(p: nat, q: nat, j: JobRef): seq<Action> {
    [Finished(p), StorageServed, Invoked, StorageServed, LockRead(q), StorageServed, JobFetched(q, j)]
  }

  /** The backend now handles the first report, and the second cycle reports a failure. */
  function LateReports(p: nat, q: nat): seq<Action> {
    [ReportDelivered(p), ReportIssued(q, false, ""), ReportDelivered(q)]
  }

  lemma GiveUpLock(s: Sys, p: nat, start: int)
    requires s.worker.queue == [] && s.worker.cycles == map[p := Reporting(start)]
    ensures Act(Act(s, Finished(p)), StorageServed) == s.(worker := Worker(false, None, [], map[], s.worker.nextPid))
  {
    var w := s.worker;
    assert w.cycles - {p} == map[];
    assert Act(s, Finished(p)) == s.(worker := w.(dispatching := false, queue := [Remove], cycles := map[]));
  }

  lemma TakeLock(s: Sys, q: nat)
    requires s.worker == Worker(false, None, [], map[], q)
    ensures var now := s.db.now;
      Act(Act(Act(Act(s, Invoked), StorageServed), LockRead(q)), StorageServed)
      == s.(worker := Worker(true, Some(now), [], map[q := Locked(now)], q + 1))
  {
    var now := s.db.now;
    var s1 := Act(s, Invoked);
    assert s1.worker == Worker(false, None, [Get(q)], map[q := Reading(now)], q + 1);
    var s2 := Act(s1, StorageServed);
    assert s2.worker == Worker(false, None, [], map[q := Sampled(now, None)], q + 1);
    var s3 := Act(s2, LockRead(q));
    assert s3.worker == Worker(true, None, [Set(q, now)], map[q := Locking(now)], q + 1);
  }

  lemma AgainRuns(s: Sys, p: nat, start: int)
    requires s.worker.queue == [] && s.worker.cycles == map[p := Reporting(start)]
    requires p in s.wire && NextPending(s.db, s.wire[p].job)
    ensures var q, j := s.worker.nextPid, s.wire[p].job;
      RunSys(s, Again(p, q, j))
      == Sys(Worker(true, Some(s.db.now), [], map[q := Working(s.db.now)], q + 1), s.jobs[q := j], s.wire, s.db)
  {
    hide NextPending, Invoke, Serve, Gate, Finish;
    var q, j := s.worker.nextPid, s.wire[p].job;
    GiveUpLock(s, p, start);
    var s2 := s.(worker := Worker(false, None, [], map[], q));
    TakeLock(s2, q);
    RunSeven(s, Again(p, q, j));
  }

  lemma RunSeven(s: Sys, es: seq<Action>)
    requires |es| == 7
    ensures RunSys(s, es) == Act(Act(Act(Act(Act(Act(Act(s, es[0]), es[1]), es[2]), es[3]), es[4]), es[5]), es[6])
  {
    hide Act;
    RunThree(s, es[..3]);
    var s3 := Act(Act(Act(s, es[0]), es[1]), es[2]);
    assert es == es[..3] + es[3..];
    RunsJoin(s, es[..3], es[3..]);
    RunThree(s3, es[3..6]);
    assert es[3..] == es[3..6] + [es[6]];
    RunsJoin(s3, es[3..6], [es[6]]);
    RunOne(RunSys(s3, es[3..6]), es[6]);
  }

  lemma RunThree(s: Sys, es: seq<Action>)
    requires |es| == 3
    ensures RunSys(s, es) == Act(Act(Act(s, es[0]), es[1]), es[2])
  {
    hide Act;
    assert es[1..][1..] == [es[2]];
    RunOne(Act(Act(s, es[0]), es[1]), es[2]);
  }

  /** A campaign with one MESSAGE step, running, and a contact it can be rendered for. */
  ghost predicate Launchable(db: Db, c: CampaignId, id: ContactId) {
    && Fresh(db) && IsLatestRunning(db, c) && id in db.contacts
    && |db.campaigns[c].steps| == 1 && db.campaigns[c].steps[0].message
    && !Templates.RenderedWith(db.campaigns[c].steps[0].template, db.contacts[id]).needsReview
  }

  /** The only job there is: it is queued, its campaign runs, and so many failures are recorded. */
  predicate OnlyJob(db: Db, j: JobRef, attempts: nat) {
    && db.tracks.Keys == {j.row} && db.tracks[j.row].jobs.Keys == {j.position} && QueuedIn(db, j)
    && JobAttempts(db, j) == attempts
    && j.row.campaign in db.campaigns && db.campaigns[j.row.campaign].running
  }

  lemma OnlyJobPending(db: Db, j: JobRef, attempts: nat)
    requires OnlyJob(db, j, attempts)
    ensures NextPending(db, j)
  {
  }

  lemma FailureRecorded(db: Db, j: JobRef, attempts: nat)
    requires Invariant(db) && OnlyJob(db, j, attempts) && attempts < 2
    ensures var db' := Apply(db, FailureReported(j.row, j.position));
      Invariant(db') && OnlyJob(db', j, attempts + 1) && db'.now == db.now
  {
    hide Invariant, Apply;
    var e := FailureReported(j.row, j.position);
    assert !Undoing(db, e);
    InvariantExactly(db, e);
    FailureCounted(db, j, attempts);
  }

  lemma FailureCounted(db: Db, j: JobRef, attempts: nat)
    requires OnlyJob(db, j, attempts) && attempts < 2
    ensures var db' := Apply(db, FailureReported(j.row, j.position));
      OnlyJob(db', j, attempts + 1) && db'.now == db.now
  {
    var t := db.tracks[j.row];
    var job := t.jobs[j.position];
    var t' := t.(jobs := t.jobs[j.position := job.(attempts := job.attempts + 1)]);
    assert FailTrack(t, j.position) == t';
    assert Apply(db, FailureReported(j.row, j.position)) == ReportFailure(db, j.row, j.position);
    hide FailTrack, Apply;
  }

  lemma FirstJob(db: Db, c: CampaignId, id: ContactId)
    requires Launchable(db, c, id)
    ensures var db2 := Apply(Apply(db, Staged(c, [id])), WorkerTick(c, true)); var k := RowKey(c, id);
      OnlyJob(db2, JobRef(k, 1), 0) && db2.now == db.now
  {
    hide Templates.RenderedWith;
    var k := RowKey(c, id);
    var db1 := Apply(db, Staged(c, [id]));
    assert [id][1..] == [] && db.order + [k] == [k] && db.tracks[k := NewTrack()] == map[k := NewTrack()];
    assert Stage(db, c, [id]) == StageAll(StageOne(db, c, id), c, []);
    assert db1 == db.(tracks := map[k := NewTrack()], order := [k]);
    assert [k][1..] == [];
    assert Filtered(db1, c, [k]) == [k] + Filtered(db1, c, []);
    assert Candidates(db1, c) == [k];
    var out := TickOf(db1, k);
    assert out.enqueued && out.track.jobs.Keys == {1} && out.track.jobs[1].status == Queued;
    assert Apply(db1, WorkerTick(c, true)) == db1.(tracks := map[k := out.track]);
  }

  /** Stage the contact, and let the worker tick create its job. */
  function Launch(c: CampaignId, id: ContactId): seq<Action> {
    [Backend(Staged(c, [id])), Backend(WorkerTick(c, true))]
  }

  lemma LaunchRuns(s: Sys, c: CampaignId, id: ContactId)
    requires Start(s) && Launchable(s.db, c, id)
    ensures var s' := RunSys(s, Launch(c, id));
      && s' == s.(db := s'.db) && s'.db.now == s.db.now
      && Invariant(s'.db) && OnlyJob(s'.db, JobRef(RowKey(c, id), 1), 0)
  {
    var e1, e2 := Staged(c, [id]), WorkerTick(c, true);
    FirstJob(s.db, c, id);
    FreshInvariant(s.db);
    hide Invariant, OnlyJob, Apply, Launchable, Fresh, Act, RunSys;
    InvariantExactly(s.db, e1);
    InvariantExactly(Apply(s.db, e1), e2);
    TwoBackendEvents(s, e1, e2);
    RunTwo(s, Backend(e1), Backend(e2));
  }

  /** A dispatch up to its report, on the wire. */
  function UpToReport(q: nat, j: JobRef, sent: bool): seq<Action> {
    [Invoked, StorageServed, LockRead(q), StorageServed, JobFetched(q, j)] + [ReportIssued(q, sent, "")]
  }

  /** From empty tables: stage, tick, and a dispatch that reports success. */
  function UpToLateReport(c: CampaignId, id: ContactId): seq<Action> {
    Launch(c, id) + UpToReport(0, JobRef(RowKey(c, id), 1), true)
  }

  lemma UpToLateReportRuns(s: Sys, c: CampaignId, id: ContactId)
    requires Start(s) && Launchable(s.db, c, id)
    ensures var s', j := RunSys(s, UpToLateReport(c, id)), JobRef(RowKey(c, id), 1);
      && s'.worker.queue == [] && s'.worker.cycles == map[0 := Reporting(s.db.now)] && s'.worker.nextPid == 1
      && 0 in s'.wire && s'.wire[0].job == j && NextPending(s'.db, j)
  {
    hide Fresh, Launchable, Invariant, NextPending, OnlyJob, RunSys, Launch, UpToReport;
    var s2, j := RunSys(s, Launch(c, id)), JobRef(RowKey(c, id), 1);
    LaunchRuns(s, c, id);
    OnlyJobPending(s2.db, j, 0);
    ReportsRun(s2, 0, j, true);
    RunsJoin(s, Launch(c, id), UpToReport(0, j, true));
  }

  lemma TwoBackendEvents(s: Sys, e1: Event, e2: Event)
    requires !IsReport(e1) && !IsReport(e2)
    ensures Act(Act(s, Backend(e1)), Backend(e2)) == s.(db := Apply(Apply(s.db, e1), e2))
  {
    hide Apply;
  }

  lemma RunTwo(s: Sys, a: Action, b: Action)
    ensures RunSys(s, [a, b]) == Act(Act(s, a), b)
  {
    hide Act;
    assert [a, b][1..] == [b];
    RunOne(Act(s, a), b);
  }

  lemma ReportsRun(s: Sys, q: nat, j: JobRef, sent: bool)
    requires s.worker == Worker(false, None, [], map[], q) && NextPending(s.db, j)
    ensures var now := s.db.now;
      RunSys(s, UpToReport(q, j, sent))
      == Sys(Worker(true, Some(now), [], map[q := Reporting(now)], q + 1),
             s.jobs[q := j], s.wire[q := Report(j, now, sent, "")], s.db)
  {
    hide NextPending, Invoke, Serve, Gate, Finish;
    var now := s.db.now;
    var d := [Invoked, StorageServed, LockRead(q), StorageServed, JobFetched(q, j)];
    TakeLock(s, q);
    var s4 := s.(worker := Worker(true, Some(now), [], map[q := Locked(now)], q + 1));
    FetchAndReport(s4, q, j, sent);
    hide Act;
    RunThree(s, d[..3]);
    RunTwo(RunSys(s, d[..3]), d[3], d[4]);
    RunsJoin(s, d[..3], [d[3], d[4]]);
    assert d == d[..3] + [d[3], d[4]];
    RunsJoin(s, d, [ReportIssued(q, sent, "")]);
    RunOne(Act(s4, JobFetched(q, j)), ReportIssued(q, sent, ""));
  }

  lemma FetchAndReport(s: Sys, q: nat, j: JobRef, sent: bool)
    requires q in s.worker.cycles && s.worker.cycles == map[q := Locked(s.db.now)] && NextPending(s.db, j)
    ensures var now := s.db.now;
      Act(Act(s, JobFetched(q, j)), ReportIssued(q, sent, ""))
      == Sys(s.worker.(cycles := map[q := Reporting(now)]), s.jobs[q := j],
             s.wire[q := Report(j, now, sent, "")], s.db)
  {
    hide NextPending;
    var now := s.db.now;
    var s5 := Act(s, JobFetched(q, j));
    assert s5.worker == s.worker.(cycles := map[q := Working(now)]) && s5.jobs[q] == j;
    var s6 := Act(s5, ReportIssued(q, sent, ""));
    assert s6.worker == s.worker.(cycles := map[q := Reporting(now)]);
  }

  /** Such a fetch does come about: one contact, one dispatch, one failed request. */
  lemma RefetchComesAbout(s: Sys, c: CampaignId, id: ContactId)
    requires Start(s) && Launchable(s.db, c, id)
    ensures !NoRefetch(s, UpToLateReport(c, id) + Again(0, 1, JobRef(RowKey(c, id), 1)))
  {
    hide Launchable, Start, Act, NextPending, UpToLateReport, RunSys, Refetches;
    UpToLateReportRuns(s, c, id);
    var s8, j := RunSys(s, UpToLateReport(c, id)), JobRef(RowKey(c, id), 1);
    RunsJoin(s, UpToLateReport(c, id), Again(0, 1, j));
    AgainRefetches(s8, 0, s8.worker.cycles[0].start);
  }

  lemma AgainRefetches(s: Sys, p: nat, start: int)
    requires s.worker.queue == [] && s.worker.cycles == map[p := Reporting(start)]
    requires p in s.wire && NextPending(s.db, s.wire[p].job)
    ensures !NoRefetch(s, Again(p, s.worker.nextPid, s.wire[p].job))
  {
    hide NextPending, Invoke, Serve, Gate, Finish;
    var q, j := s.worker.nextPid, s.wire[p].job;
    var es := Again(p, q, j);
    GiveUpLock(s, p, start);
    var s2 := s.(worker := Worker(false, None, [], map[], q));
    TakeLock(s2, q);
    var s6 := Act(Act(Act(Act(s2, es[2]), es[3]), es[4]), es[5]);
    assert s6.worker.cycles[q].Locked? && s6.wire == s.wire && s6.db == s.db;
    assert Refetches(s6, es[6]);
    hide Act, Refetches;
    assert es == es[..3] + es[3..6] + [es[6]];
    RunsJoin(s, es[..3], es[3..6]);
    RunsJoin(s, es[..3] + es[3..6], [es[6]]);
    RunThree(s, es[..3]);
    RunThree(RunSys(s, es[..3]), es[3..6]);
    assert !NoRefetch(s6, [es[6]]);
  }

  predicate GivenUp(db: Db, j: JobRef) {
    HasJob(db, j) && db.tracks[j.row].jobs[j.position].status == Failed
  }

  lemma SysInvariantParts(s: Sys, h: Past, p: nat)
    requires SysInvariant(s, h) && p in s.wire
    ensures Invariant(s.db) && p < s.worker.nextPid
  {
    hide Disciplined, Invariant;
  }

  /** The bad run: a delivery with two recorded failures before it is counted, and then undone by
      the failure the second attempt reports. */
  lemma LateReportUndoes(s: Sys, h: Past, p: nat, start: int)
    requires SysInvariant(s, h) && s.worker.queue == [] && s.worker.cycles == map[p := Reporting(start)]
    requires p in s.wire && s.wire[p].sent && NextPending(s.db, s.wire[p].job) && JobAttempts(s.db, s.wire[p].job) == 2
    ensures var q, j := s.worker.nextPid, s.wire[p].job;
      var es := Again(p, q, j) + LateReports(p, q);
      && !AllTimely(s, es)
      && !Invariant(RunSys(s, es).db)
      && GivenUp(RunSys(s, es).db, j)
  {
    hide SysInvariant, Invariant, NextPending, RunSys, AllTimely, GivenUp, Disciplined, Again, LateReports, Act;
    SysInvariantParts(s, h, p);
    var q, j := s.worker.nextPid, s.wire[p].job;
    AgainRuns(s, p, start);
    var s7 := RunSys(s, Again(p, q, j));
    RunsJoin(s, Again(p, q, j), LateReports(p, q));
    LateReportsUndo(s, s7, p, q);
  }

  lemma LateReportsUndo(s: Sys, s7: Sys, p: nat, q: nat)
    requires Invariant(s.db) && p in s.wire && s.wire[p].sent && q != p
    requires NextPending(s.db, s.wire[p].job) && JobAttempts(s.db, s.wire[p].job) == 2
    requires s7 == Sys(Worker(true, Some(s.db.now), [], map[q := Working(s.db.now)], q + 1),
                       s.jobs[q := s.wire[p].job], s.wire, s.db)
    ensures var es, j := LateReports(p, q), s.wire[p].job;
      && !AllTimely(s7, es) && !Invariant(RunSys(s7, es).db)
      && GivenUp(RunSys(s7, es).db, j)
  {
    hide Invariant;
    var es, j := LateReports(p, q), s.wire[p].job;
    PendingQueued(s.db, j);
    assert QueuedIn(s.db, j);
    hide NextPending;
    var s8 := Act(s7, es[0]);
    var s9 := Act(s8, es[1]);
    assert s9.wire[q] == Report(j, s.db.now, false, "") && s9.db == s8.db;
    InvariantExactly(s7.db, EventOf(s7.wire[p]));
    InvariantExactly(s9.db, EventOf(s9.wire[q]));
    assert Undoing(s9.db, EventOf(s9.wire[q]));
    assert !QueuedIn(s9.db, j);
    hide Undoing, Act;
    RunThree(s7, es);
    assert es[1..][1..] == [es[2]];
    assert !AllTimely(s9, es[1..][1..]);
    assert !AllTimely(s8, es[1..]);
  }

  /** A dispatch whose failure report is handled at once. */
  function FailedCycle(q: nat, j: JobRef): seq<Action> {
    UpToReport(q, j, false) + [ReportDelivered(q), Finished(q), StorageServed]
  }

  lemma FailedCycleRuns(s: Sys, q: nat, j: JobRef)
    requires s.worker == Worker(false, None, [], map[], q) && s.wire == map[] && NextPending(s.db, j)
    ensures RunSys(s, FailedCycle(q, j))
         == Sys(Worker(false, None, [], map[], q + 1), s.jobs[q := j], map[],
                Apply(s.db, FailureReported(j.row, j.position)))
  {
    hide NextPending, Apply, RunSys, UpToReport, Invoke, Serve, Gate, Finish;
    ReportsRun(s, q, j, false);
    var s6 := RunSys(s, UpToReport(q, j, false));
    var s7 := Act(s6, ReportDelivered(q));
    assert s7.wire == map[] && s7.worker == s6.worker;
    GiveUpLock(s7, q, s.db.now);
    hide Act;
    RunThree(s6, [ReportDelivered(q), Finished(q), StorageServed]);
    RunsJoin(s, UpToReport(q, j, false), [ReportDelivered(q), Finished(q), StorageServed]);
  }

  /** From empty tables: stage, tick, two failures, and a third dispatch that reports success. */
  function UpToThirdReport(c: CampaignId, id: ContactId): seq<Action> {
    var j := JobRef(RowKey(c, id), 1);
    Launch(c, id) + (FailedCycle(0, j) + (FailedCycle(1, j) + UpToReport(2, j, true)))
  }

  lemma ThirdReportRuns(s: Sys, j: JobRef)
    requires s.worker == Worker(false, None, [], map[], 0) && s.wire == map[]
    requires Invariant(s.db) && OnlyJob(s.db, j, 0)
    ensures var s', now := RunSys(s, FailedCycle(0, j) + (FailedCycle(1, j) + UpToReport(2, j, true))), s.db.now;
      && s'.worker == Worker(true, Some(now), [], map[2 := Reporting(now)], 3)
      && s'.wire == map[2 := Report(j, now, true, "")]
      && Invariant(s'.db) && OnlyJob(s'.db, j, 2)
  {
    hide Invariant, OnlyJob, NextPending, Apply, RunSys, FailedCycle, UpToReport;
    OnlyJobPending(s.db, j, 0);
    FailedCycleRuns(s, 0, j);
    FailureRecorded(s.db, j, 0);
    var s1 := RunSys(s, FailedCycle(0, j));
    OnlyJobPending(s1.db, j, 1);
    FailedCycleRuns(s1, 1, j);
    FailureRecorded(s1.db, j, 1);
    var s2 := RunSys(s1, FailedCycle(1, j));
    OnlyJobPending(s2.db, j, 2);
    ReportsRun(s2, 2, j, true);
    RunsJoin(s1, FailedCycle(1, j), UpToReport(2, j, true));
    RunsJoin(s, FailedCycle(0, j), FailedCycle(1, j) + UpToReport(2, j, true));
  }

  lemma UpToThirdReportRuns(s: Sys, c: CampaignId, id: ContactId)
    requires Start(s) && Launchable(s.db, c, id)
    ensures var s', j := RunSys(s, UpToThirdReport(c, id)), JobRef(RowKey(c, id), 1); var now := s.db.now;
      && s'.worker == Worker(true, Some(now), [], map[2 := Reporting(now)], 3)
      && s'.wire == map[2 := Report(j, now, true, "")]
      && Invariant(s'.db) && OnlyJob(s'.db, j, 2)
  {
    hide Fresh, Launchable, Invariant, OnlyJob, RunSys, Launch, FailedCycle, UpToReport;
    var j := JobRef(RowKey(c, id), 1);
    LaunchRuns(s, c, id);
    ThirdReportRuns(RunSys(s, Launch(c, id)), j);
    RunsJoin(s, Launch(c, id), FailedCycle(0, j) + (FailedCycle(1, j) + UpToReport(2, j, true)));
  }

  /** The bad run from empty tables: one contact, two dispatches that fail, and a third whose request
      fails on its way although the backend handles its report. */
  lemma DeliveryComesUndone(s: Sys, c: CampaignId, id: ContactId)
    requires Start(s) && Launchable(s.db, c, id)
    ensures var j := JobRef(RowKey(c, id), 1);
      var end := RunSys(s, UpToThirdReport(c, id) + (Again(2, 3, j) + LateReports(2, 3)));
      !Invariant(end.db) && GivenUp(end.db, j)
  {
    hide Start, Invariant, Launchable, OnlyJob, NextPending, RunSys, AllTimely, GivenUp, Again, LateReports, Act;
    hide UpToThirdReport;
    UpToThirdReportRuns(s, c, id);
    var s8, j := RunSys(s, UpToThirdReport(c, id)), JobRef(RowKey(c, id), 1);
    OnlyJobPending(s8.db, j, 2);
    OnlyJobAttempts(s8.db, j, 2);
    AgainRuns(s8, 2, s.db.now);
    LateReportsUndo(s8, RunSys(s8, Again(2, 3, j)), 2, 3);
    RunsJoin(s8, Again(2, 3, j), LateReports(2, 3));
    RunsJoin(s, UpToThirdReport(c, id), Again(2, 3, j) + LateReports(2, 3));
  }

  lemma OnlyJobAttempts(db: Db, j: JobRef, attempts: nat)
    requires OnlyJob(db, j, attempts)
    ensures JobAttempts(db, j) == attempts
  {
  }

  // ---------- the lock over runs ----------

  lemma {:induction false} DisciplineOnRuns(s: Sys, h: Past, actions: seq<Action>)
    requires Disciplined(s.worker, h, s.db.now) && WellFormed(s.db)
    ensures var s' := RunSys(s, actions);
      Disciplined(s'.worker, PastOf(s, h, actions), s'.db.now) && WellFormed(s'.db)
    decreases |actions|
  {
    hide Act, NextPast, Disciplined, WellFormed;
    if actions != [] {
      DisciplineKept(s, h, actions[0]);
      WellFormedKept(s, actions[0]);
      DisciplineOnRuns(Act(s, actions[0]), NextPast(s, h, actions[0]), actions[1..]);
    }
  }

  lemma StartDisciplined(s: Sys)
    requires Start(s)
    ensures Disciplined(s.worker, Past(None, None), s.db.now) && WellFormed(s.db)
  {
    hide Invariant;
    FreshInvariant(s.db);
    InvariantWellFormed(s.db);
  }

  /** In every run whatever, at most one dispatch is past the gate. */
  lemma OneDispatchOnRuns(s: Sys, actions: seq<Action>, p: nat, q: nat)
    requires Start(s)
    requires var w := RunSys(s, actions).worker;
      p in w.cycles && q in w.cycles && PastGate(w.cycles[p]) && PastGate(w.cycles[q])
    ensures p == q
  {
    hide RunSys, PastOf, Start, Disciplined, WellFormed;
    StartDisciplined(s);
    DisciplineOnRuns(s, Past(None, None), actions);
    var s', h := RunSys(s, actions), PastOf(s, Past(None, None), actions);
    OneDispatchAtATime(s'.worker, h, s'.db.now, p, q);
  }

  predicate BeginsDispatch(s: Sys, a: Action) {
    a.LockRead? && a.pid in s.worker.cycles && s.worker.cycles[a.pid].Sampled?
    && GateOpen(s.worker, s.worker.cycles[a.pid])
  }

  predicate NoDispatchBegins(s: Sys, actions: seq<Action>)
    decreases |actions|
  {
    actions == [] || (!BeginsDispatch(s, actions[0]) && NoDispatchBegins(Act(s, actions[0]), actions[1..]))
  }

  lemma {:induction false} CutPersists(s: Sys, h: Past, actions: seq<Action>)
    requires Disciplined(s.worker, h, s.db.now) && WellFormed(s.db) && h.cut.Some? && NoDispatchBegins(s, actions)
    ensures PastOf(s, h, actions) == h
    decreases |actions|
  {
    hide Disciplined, WellFormed, Act, BeginsDispatch;
    if actions != [] {
      DisciplineKept(s, h, actions[0]);
      WellFormedKept(s, actions[0]);
      CutStays(s, h, actions[0]);
      CutPersists(Act(s, actions[0]), NextPast(s, h, actions[0]), actions[1..]);
    }
  }

  lemma CutStays(s: Sys, h: Past, a: Action)
    requires Disciplined(s.worker, h, s.db.now) && h.cut.Some? && !BeginsDispatch(s, a)
    ensures NextPast(s, h, a) == h
  {
    hide LeftBehind, Holds;
  }

  /** When a restart cuts a dispatch short, the next dispatch to begin does so no sooner than
      the lock's lifetime after the start of the one cut short. */
  lemma RestartedDispatchWaits(s: Sys, before: seq<Action>, q: nat, after: seq<Action>, p: nat)
    requires Start(s)
    requires var s1 := RunSys(s, before); q in s1.worker.cycles && PastGate(s1.worker.cycles[q])
    requires NoDispatchBegins(Act(RunSys(s, before), Restarted), after)
    requires BeginsDispatch(RunSys(Act(RunSys(s, before), Restarted), after), LockRead(p))
    ensures var s1 := RunSys(s, before); var s2 := RunSys(Act(s1, Restarted), after);
      s1.worker.cycles[q].start + LOCK_TTL <= s2.worker.cycles[p].start
  {
    hide RunSys, PastOf, Start, WellFormed, LeftBehind, Holds;
    StartDisciplined(s);
    DisciplineOnRuns(s, Past(None, None), before);
    var s1, h1 := RunSys(s, before), PastOf(s, Past(None, None), before);
    DisciplineKept(s1, h1, Restarted);
    var s1', h1' := Act(s1, Restarted), NextPast(s1, h1, Restarted);
    assert h1'.cut == Some(Cut(q, s1.worker.cycles[q].start));
    CutPersists(s1', h1', after);
    DisciplineOnRuns(s1', h1', after);
    NewDispatchExactly(RunSys(s1', after).worker, h1', RunSys(s1', after).db.now, p);
  }

  // ---------- the pipeline's theorems for the whole ----------

  /** The table events a system run amounts to. */
  function Trace(s: Sys, actions: seq<Action>): seq<Event>
    decreases |actions|
  {
    if actions == [] then []
    else
      (match actions[0]
       case ReportDelivered(p) => if p in s.wire then [EventOf(s.wire[p])] else []
       case Backend(e) => if IsReport(e) then [] else [e]
       case _ => [])
      + Trace(Act(s, actions[0]), actions[1..])
  }

  lemma NonReportsAreHarmless(db: Db, e: Event)
    requires !IsReport(e)
    ensures !Undoing(db, e) && !Late(db, e) && !Reviving(db, e)
  {
  }

  ghost predicate GoodTrace(db: Db, events: seq<Event>, db': Db) {
    HonestRun(db, events) && OrderlyRun(db, events) && NoRevival(db, events) && Run(db, events) == db'
  }

  lemma GoodTraceCons(db: Db, e: Event, events: seq<Event>, db': Db)
    requires GoodTrace(Apply(db, e), events, db') && !Undoing(db, e) && !Late(db, e) && !Reviving(db, e)
    ensures GoodTrace(db, [e] + events, db')
  {
    hide Apply, Undoing, Late, Reviving;
    assert ([e] + events)[1..] == events;
  }

  /** Every run of the whole in which no job is fetched while a report of it may still arrive is,
      for the tables, a run in which every report is in order. */
  lemma {:induction false} SystemRunsAreGood(s: Sys, h: Past, actions: seq<Action>)
    requires SysInvariant(s, h) && NoRefetch(s, actions)
    ensures GoodTrace(s.db, Trace(s, actions), RunSys(s, actions).db)
    decreases |actions|
  {
    hide SysInvariant, Apply, NextPast, Refetches, EventOf, IsReport, GoodTrace, Invoke, Serve, Gate, Finish, Restart;
    if actions == [] {
      EmptyGoodTrace(s.db);
    } else {
      var a := actions[0];
      SysInvariantExactly(s, h, a);
      SystemRunsAreGood(Act(s, a), NextPast(s, h, a), actions[1..]);
      var rest, end := Trace(Act(s, a), actions[1..]), RunSys(s, actions).db;
      match a
      case ReportDelivered(p) =>
        if p in s.wire {
          ReportIsTimely(s, h, p);
          GoodTraceCons(s.db, EventOf(s.wire[p]), rest, end);
        } else {
          assert Trace(s, actions) == rest;
        }
      case Backend(e) =>
        if IsReport(e) {
          assert Trace(s, actions) == rest;
        } else {
          NonReportsAreHarmless(s.db, e);
          GoodTraceCons(s.db, e, rest, end);
        }
      case _ =>
        assert Trace(s, actions) == rest;
    }
  }

  lemma EmptyGoodTrace(db: Db)
    ensures GoodTrace(db, [], db)
  {
  }

  /** End to end: from empty tables, whatever the extension, the browser, the worker tick and
      the users do, short of a refetch: every contact has been sent each MESSAGE step below its
      position, and all of them once completed; deliveries and later jobs respect the delays
      between; and outbound messages equal delivered jobs. */
  lemma EndToEnd(s: Sys, actions: seq<Action>, k: RowKey)
    requires Start(s) && NoRefetch(s, actions) && k in RunSys(s, actions).db.tracks
    ensures var db := RunSys(s, actions).db;
      var steps, t := StepsOf(db, k), db.tracks[k];
      && (forall p :: p in t.jobs && t.jobs[p].status != Sent ==> p == t.row.position)
      && (forall p :: 1 <= p < t.row.position && p <= |steps| && steps[p - 1].message ==>
            p in t.jobs && t.jobs[p].status == Sent)
      && (t.row.status == Completed ==>
            steps != []
            && forall p :: 1 <= p <= |steps| && steps[p - 1].message ==> p in t.jobs && t.jobs[p].status == Sent)
      && OutboundCount(db.messages, k.contact) == |SentJobs(db.tracks, k.contact)|
    ensures var db := RunSys(s, actions).db;
      var steps, jobs := StepsOf(db, k), db.tracks[k].jobs;
      forall p, q :: p in jobs && q in jobs && p < q && jobs[p].status == Sent ==>
        jobs[p].executedAt.Some? && jobs[q].createdAt >= jobs[p].executedAt.value + DelaySum(steps, p, q)
  {
    hide RunSys, Fresh, SysInvariant, Trace, Run, HonestRun, OrderlyRun, NoRevival, StepsOf, OutboundCount, SentJobs;
    hide NoRefetch, DelaySum;
    StartInvariant(s);
    SystemRunsAreGood(s, Past(None, None), actions);
    var events := Trace(s, actions);
    NoMessageSkipped(s.db, events, k);
    ExactlyOnce(s.db, events, k.contact);
    var jobs := Run(s.db, events).tracks[k].jobs;
    forall p, q | p in jobs && q in jobs && p < q && jobs[p].status == Sent
      ensures jobs[p].executedAt.Some?
        && jobs[q].createdAt >= jobs[p].executedAt.value + DelaySum(StepsOf(Run(s.db, events), k), p, q)
    {
      DelaysAddUp(s.db, events, k, p, q);
    }
  }

  /** And every cadence ends: however long the whole runs on after a contact is staged, its row
      and jobs change at most 7n + 6 times for a cadence of n steps; it advances at most n times
      and takes up at most three reports for each step. */
  lemma CadencesEndEndToEnd(s: Sys, h: Past, actions: seq<Action>, k: RowKey, p: nat)
    requires SysInvariant(s, h) && NoRefetch(s, actions) && k in s.db.tracks && s.db.tracks[k] == NewTrack()
    ensures var events := Trace(s, actions);
      && Changes(s.db, events, k) <= 7 * |StepsOf(s.db, k)| + 6
      && AdvanceCount(s.db, events, k) <= |StepsOf(s.db, k)|
      && ReportCount(s.db, events, k, p) <= 3
  {
    hide RunSys, Trace, Run, HonestRun, OrderlyRun, NoRevival, StepsOf, Changes, AdvanceCount, ReportCount, Invariant;
    hide Disciplined, NewTrack, NoRefetch, Wired, AttemptsQueued, OneAttempt;
    SystemRunsAreGood(s, h, actions);
    CadencesEnd(s.db, Trace(s, actions), k);
    AdvancesAndReportsBounded(s.db, Trace(s, actions), k, p);
  }

  /** And a reply stops the whole: if nothing of the contact is queued when it is recorded, then
      in every campaign it is in no job and no delivery is added, however the whole runs on. */
  lemma ReplyStopsEndToEnd(s: Sys, h: Past, contact: ContactId, body: string, actions: seq<Action>)
    requires SysInvariant(s, h) && contact in s.db.contacts && !Blank(body) && NothingQueued(s.db, contact)
    requires NoRefetch(Act(s, Backend(ReplyReported(contact, body))), actions)
    ensures var end := RunSys(Act(s, Backend(ReplyReported(contact, body))), actions).db;
      forall k :: k in s.db.tracks && k.contact == contact ==>
        && k in end.tracks && !Live(end.tracks[k].row)
        && end.tracks[k].jobs.Keys == s.db.tracks[k].jobs.Keys
        && SentPositions(end.tracks[k]) <= SentPositions(s.db.tracks[k])
  {
    var a := Backend(ReplyReported(contact, body));
    var s1 := Act(s, a);
    assert s1.db == Apply(s.db, ReplyReported(contact, body));
    hide Apply, Act, SentPositions, Live, NextPast, Refetches;
    NotAFetch(s, a);
    SysInvariantExactly(s, h, a);
    hide Disciplined, Wired, AttemptsQueued, OneAttempt, Run, Trace, NoRefetch, RunSys;
    SystemRunsAreGood(s1, NextPast(s, h, a), actions);
    InvariantWellFormed(s.db);
    hide Invariant, WellFormed, Blank, NoRevival, HonestRun, OrderlyRun;
    StopOnReplyForever(s.db, contact, body, Trace(s1, actions));
  }

  lemma NotAFetch(s: Sys, a: Action)
    requires !a.JobFetched?
    ensures !Refetches(s, a)
  {
  }
}
