/** What every run of the outreach pipeline keeps. */
module OutreachRuns {
  import opened Text
  import opened Cadence
  import opened Outreach

  // ---------- accounting ----------

  function OutboundCount(messages: seq<Message>, c: ContactId): nat {
    if messages == [] then 0
    else OutboundCount(messages[..|messages| - 1], c)
         + var m := messages[|messages| - 1]; if m.direction == Outbound && m.contact == c then 1 else 0
  }

  /** The contact's delivered jobs, over all campaigns. */
  ghost function SentJobs(tracks: map<RowKey, Track>, c: ContactId): set<(RowKey, nat)> {
    set k, p | k in tracks && k.contact == c && p in SentPositions(tracks[k]) :: (k, p)
  }

  ghost predicate Accounted(db: Db) {
    forall c :: OutboundCount(db.messages, c) == |SentJobs(db.tracks, c)|
  }

  lemma CountAppend(messages: seq<Message>, m: Message, c: ContactId)
    ensures OutboundCount(messages + [m], c)
         == OutboundCount(messages, c) + if m.direction == Outbound && m.contact == c then 1 else 0
  {
    assert (messages + [m])[..|messages|] == messages;
  }

  // ---------- the invariant ----------

  ghost predicate TrackOk(db: Db, k: RowKey)
    requires k in db.tracks
  {
    NoSkip(StepsOf(db, k), db.tracks[k]) && DelaysRespected(StepsOf(db, k), db.now, db.tracks[k])
  }

  ghost predicate Invariant(db: Db) {
    WellFormed(db) && (forall k :: k in db.tracks ==> TrackOk(db, k)) && Accounted(db)
  }

  /** The failure report that would undo a recorded delivery. */
  predicate Undoing(db: Db, e: Event) {
    e.FailureReported? && e.row in db.tracks && e.position in db.tracks[e.row].jobs
    && db.tracks[e.row].jobs[e.position].status == Sent
    && db.tracks[e.row].jobs[e.position].attempts >= 2
  }

  lemma UndoingIsUndoes(db: Db, e: Event, k: RowKey)
    requires WellFormed(db) && k in db.tracks && !Undoing(db, e)
    ensures !Undoes(db.tracks[k], EventFor(db, e, k))
  {
    hide TickVisits;
  }

  lemma TracksPreserved(db: Db, e: Event)
    requires Invariant(db) && !Undoing(db, e)
    ensures var db' := Apply(db, e); forall k :: k in db'.tracks ==> TrackOk(db', k)
  {
    hide *;
    var db' := Apply(db, e);
    InvariantParts(db);
    EventActsOnTracks(db, e);
    forall k | k in db'.tracks ensures TrackOk(db', k) {
      TrackPreserved(db, e, k);
    }
  }

  lemma InvariantParts(db: Db)
    requires Invariant(db)
    ensures WellFormed(db) && Accounted(db)
  {
  }

  lemma TrackPreserved(db: Db, e: Event, k: RowKey)
    requires Invariant(db) && !Undoing(db, e) && ActsOnTracks(db, e, Apply(db, e)) && k in Apply(db, e).tracks
    ensures TrackOk(Apply(db, e), k)
  {
    hide Apply, EventFor, StepsOf, NoSkip, DelaysRespected, TrackNext, Accounted, WellFormed;
    var db' := Apply(db, e);
    var steps := StepsOf(db, k);
    if k in db.tracks {
      var te := EventFor(db, e, k);
      assert TrackOk(db, k);
      UndoingIsUndoes(db, e, k);
      NoSkipPreserved(steps, db.now, db.tracks[k], te);
      DelaysPreserved(steps, db.now, db.tracks[k], te);
      DelaysSurviveClock(steps, db.now, db'.now, db'.tracks[k]);
    } else {
      NewTrackOk(steps, db'.now);
    }
  }

  lemma NewTrackOk(steps: seq<Step>, now: int)
    ensures NoSkip(steps, NewTrack()) && DelaysRespected(steps, now, NewTrack())
  {
  }

  // ---------- messages against deliveries ----------

  /** Tracks whose deliveries are the same count the same. */
  lemma SameSentJobs(t1: map<RowKey, Track>, t2: map<RowKey, Track>, c: ContactId)
    requires forall k :: k in t1 ==> k in t2 && SentPositions(t2[k]) == SentPositions(t1[k])
    requires forall k :: k in t2 && k !in t1 ==> SentPositions(t2[k]) == {}
    ensures SentJobs(t2, c) == SentJobs(t1, c)
  {
    hide SentPositions;
  }

  /** A transition other than a delivery or its undoing keeps the delivered positions. */
  lemma SentPositionsKept(steps: seq<Step>, now: int, t: Track, e: TrackEvent)
    requires !Undoes(t, e)
    requires e.Succeeded? && e.position in t.jobs ==> t.jobs[e.position].status == Sent
    ensures SentPositions(TrackNext(steps, now, t, e)) == SentPositions(t)
  {
    hide Templates.RenderedWith;
  }

  predicate Delivers(db: Db, e: Event) {
    e.SentReported? && e.row in db.tracks && e.position in db.tracks[e.row].jobs
    && db.tracks[e.row].jobs[e.position].status != Sent
  }

  lemma OutboundUnchanged(db: Db, e: Event, c: ContactId)
    requires !Delivers(db, e)
    ensures OutboundCount(Apply(db, e).messages, c) == OutboundCount(db.messages, c)
  {
    hide OutboundCount, Tick, Stage, ReplyTrack, FailTrack, SucceedTrack, Blank;
    match e
    case ReplyReported(id, body) => CountAppend(db.messages, Message(id, Inbound, body), c);
    case Staged(d, ids) => StageKeepsMessages(db, d, ids);
    case WorkerTick(d, g) => TickKeepsMessages(db, d, g);
    case _ =>
  }

  lemma StageKeepsMessages(db: Db, c: CampaignId, ids: seq<ContactId>)
    ensures Stage(db, c, ids).messages == db.messages
  {
    StageAllKeepsMessages(db, c, ids);
  }

  lemma {:induction false} StageAllKeepsMessages(db: Db, c: CampaignId, ids: seq<ContactId>)
    ensures StageAll(db, c, ids).messages == db.messages
    decreases |ids|
  {
    if ids != [] { StageAllKeepsMessages(StageOne(db, c, ids[0]), c, ids[1..]); }
  }

  lemma TickKeepsMessages(db: Db, c: CampaignId, g: bool)
    ensures Tick(db, c, g).messages == db.messages
  {
    if g && IsLatestRunning(db, c) { TickRowsKeepsMessages(db, Candidates(db, c)); }
  }

  lemma {:induction false} TickRowsKeepsMessages(db: Db, keys: seq<RowKey>)
    requires forall k :: k in keys ==> k in db.tracks
    ensures TickRows(db, keys).messages == db.messages
    decreases |keys|
  {
    hide TickOf;
    if keys != [] {
      var out := TickOf(db, keys[0]);
      var next := db.(tracks := db.tracks[keys[0] := out.track]);
      if !out.enqueued { TickRowsKeepsMessages(next, keys[1..]); }
    }
  }

  lemma AccountedWithoutDelivery(db: Db, e: Event)
    requires WellFormed(db) && Accounted(db) && !Undoing(db, e) && !Delivers(db, e)
    ensures Accounted(Apply(db, e))
  {
    hide Apply, OutboundCount, SentJobs, SentPositions, TrackNext;
    var db' := Apply(db, e);
    EventActsOnTracks(db, e);
    forall k | k in db.tracks ensures SentPositions(db'.tracks[k]) == SentPositions(db.tracks[k]) {
      UndoingIsUndoes(db, e, k);
      SentPositionsKept(StepsOf(db, k), db.now, db.tracks[k], EventFor(db, e, k));
    }
    NewTrackSentNothing();
    forall c ensures OutboundCount(db'.messages, c) == |SentJobs(db'.tracks, c)| {
      OutboundUnchanged(db, e, c);
      SameSentJobs(db.tracks, db'.tracks, c);
    }
  }

  lemma NewTrackSentNothing()
    ensures SentPositions(NewTrack()) == {}
  {
  }

  lemma DeliveryCounts(db: Db, e: Event, c: ContactId)
    requires Delivers(db, e)
    ensures var db' := Apply(db, e);
      && OutboundCount(db'.messages, c) == OutboundCount(db.messages, c) + (if c == e.row.contact then 1 else 0)
      && |SentJobs(db'.tracks, c)| == |SentJobs(db.tracks, c)| + (if c == e.row.contact then 1 else 0)
  {
    hide OutboundCount, Advance;
    var db', job := Apply(db, e), db.tracks[e.row].jobs[e.position];
    CountAppend(db.messages, Message(e.row.contact, Outbound, if e.body != "" then e.body else job.content), c);
    assert SentPositions(db'.tracks[e.row]) == SentPositions(db.tracks[e.row]) + {e.position};
    assert e.position !in SentPositions(db.tracks[e.row]);
    DeliveredJob(db.tracks, db'.tracks, e.row, e.position, c);
  }

  lemma DeliveredJob(t1: map<RowKey, Track>, t2: map<RowKey, Track>, r: RowKey, p: nat, c: ContactId)
    requires r in t1 && t1.Keys == t2.Keys && forall k :: k in t1 && k != r ==> t2[k] == t1[k]
    requires SentPositions(t2[r]) == SentPositions(t1[r]) + {p} && p !in SentPositions(t1[r])
    ensures |SentJobs(t2, c)| == |SentJobs(t1, c)| + if c == r.contact then 1 else 0
  {
    hide SentPositions;
    if c == r.contact {
      assert SentJobs(t2, c) == SentJobs(t1, c) + {(r, p)};
      assert (r, p) !in SentJobs(t1, c);
    } else {
      assert SentJobs(t2, c) == SentJobs(t1, c);
    }
  }

  lemma AccountedPreserved(db: Db, e: Event)
    requires WellFormed(db) && Accounted(db) && !Undoing(db, e)
    ensures Accounted(Apply(db, e))
  {
    hide Apply, OutboundCount, SentJobs, WellFormed;
    if Delivers(db, e) {
      forall c ensures OutboundCount(Apply(db, e).messages, c) == |SentJobs(Apply(db, e).tracks, c)| {
        DeliveryCounts(db, e, c);
      }
    } else {
      AccountedWithoutDelivery(db, e);
    }
  }

  lemma UndoingLosesDelivery(db: Db, e: Event)
    requires Undoing(db, e) && Accounted(db)
    ensures !Accounted(Apply(db, e))
  {
    hide OutboundCount;
    var db', c := Apply(db, e), e.row.contact;
    assert db'.messages == db.messages;
    assert SentPositions(db.tracks[e.row]) == SentPositions(db'.tracks[e.row]) + {e.position};
    DeliveredJob(db'.tracks, db.tracks, e.row, e.position, c);
  }

  /** The cadence's invariant (no message skipped, delays respected, one outbound message per
      delivered job) survives an event exactly when the event is not a failure report for a
      job that is already sent and has two recorded failures. */
  lemma InvariantExactly(db: Db, e: Event)
    requires Invariant(db)
    ensures Invariant(Apply(db, e)) <==> !Undoing(db, e)
  {
    hide Apply, Accounted, WellFormed, TrackOk, Undoing;
    InvariantParts(db);
    if Undoing(db, e) {
      UndoingLosesDelivery(db, e);
    } else {
      EventActsOnTracks(db, e);
      TracksPreserved(db, e);
      AccountedPreserved(db, e);
    }
  }

  // ---------- runs ----------

  /** Campaigns, steps and contacts exist; nobody is in a cadence and nothing was sent. */
  ghost predicate Fresh(db: Db) {
    db.tracks == map[] && db.order == [] && db.messages == []
  }

  predicate HonestRun(db: Db, events: seq<Event>)
    decreases |events|
  {
    events == [] || (!Undoing(db, events[0]) && HonestRun(Apply(db, events[0]), events[1..]))
  }

  lemma FreshInvariant(db: Db)
    requires Fresh(db)
    ensures Invariant(db)
  {
    assert forall c :: SentJobs(db.tracks, c) == {};
  }

  lemma {:induction false} InvariantOnRuns(db: Db, events: seq<Event>)
    requires Invariant(db) && HonestRun(db, events)
    ensures Invariant(Run(db, events))
    decreases |events|
  {
    hide Invariant, Apply, Undoing;
    if events != [] {
      InvariantExactly(db, events[0]);
      InvariantOnRuns(Apply(db, events[0]), events[1..]);
    }
  }

  /** In every reachable state, for every contact of every campaign: at most one job is
      unsent and it stands at the current position, every MESSAGE step below the position was
      sent, and a completed contact was sent every MESSAGE step of a cadence that has steps. A
      queued job has at most two recorded failures, a failed one at least three and a stopped row. */
  lemma NoMessageSkipped(db: Db, events: seq<Event>, k: RowKey)
    requires Fresh(db) && HonestRun(db, events)
    requires k in Run(db, events).tracks
    ensures var steps, t := StepsOf(Run(db, events), k), Run(db, events).tracks[k];
      && (forall p :: p in t.jobs && t.jobs[p].status != Sent ==> p == t.row.position)
      && (forall p :: 1 <= p < t.row.position && p <= |steps| && steps[p - 1].message ==>
            p in t.jobs && t.jobs[p].status == Sent)
      && (t.row.status == Completed ==>
            steps != []
            && forall p :: 1 <= p <= |steps| && steps[p - 1].message ==> p in t.jobs && t.jobs[p].status == Sent)
      && (forall p :: p in t.jobs && t.jobs[p].status == Queued ==> t.jobs[p].attempts <= 2)
      && (forall p :: p in t.jobs && t.jobs[p].status == Failed ==>
            t.jobs[p].attempts >= 3 && t.row.status == Stopped)
  {
    hide Run, Fresh, HonestRun, DelaysRespected, Accounted, WellFormed;
    FreshInvariant(db);
    InvariantOnRuns(db, events);
    assert TrackOk(Run(db, events), k);
  }

  /** In every reachable state, the job of a later MESSAGE step was never enqueued before the
      delivery of an earlier one plus the delays of the steps from the earlier to the later. */
  lemma DelaysAddUp(db: Db, events: seq<Event>, k: RowKey, p: nat, q: nat)
    requires Fresh(db) && HonestRun(db, events) && k in Run(db, events).tracks
    requires var jobs := Run(db, events).tracks[k].jobs;
      p in jobs && q in jobs && p < q && jobs[p].status == Sent
    ensures var steps, jobs := StepsOf(Run(db, events), k), Run(db, events).tracks[k].jobs;
      jobs[p].executedAt.Some? && jobs[q].createdAt >= jobs[p].executedAt.value + DelaySum(steps, p, q)
  {
    hide Run, Fresh, HonestRun, NoSkip, Accounted, WellFormed;
    FreshInvariant(db);
    InvariantOnRuns(db, events);
    assert TrackOk(Run(db, events), k);
  }

  /** In the units of the campaign's rows: between the delivery at p and the job at q lie at least the
      days, hours and minutes of the rows from p to q - 1; other units add nothing. */
  lemma DelaysAddUpInUnits(db: Db, events: seq<Event>, k: RowKey, rows: seq<StepRow>, p: nat, q: nat)
    requires Fresh(db) && HonestRun(db, events) && k in Run(db, events).tracks
    requires StepsOf(Run(db, events), k) == CadenceOf(rows)
    requires var jobs := Run(db, events).tracks[k].jobs;
      p in jobs && q in jobs && p < q && jobs[p].status == Sent
    ensures var jobs := Run(db, events).tracks[k].jobs;
      && jobs[p].executedAt.Some?
      && jobs[q].createdAt - jobs[p].executedAt.value
         >= InUnits(AmountIn(rows, "days", p, q), AmountIn(rows, "hours", p, q), AmountIn(rows, "minutes", p, q))
  {
    hide Run, Fresh, HonestRun, StepsOf, CadenceOf, DelaySum, AmountIn, InUnits;
    DelaysAddUp(db, events, k, p, q);
    DelaySumInUnits(rows, p, q);
  }

  /** In every reachable state a contact has exactly as many outbound messages as delivered
      jobs, and reporting one of those deliveries again changes nothing at all. */
  lemma ExactlyOnce(db: Db, events: seq<Event>, c: ContactId)
    requires Fresh(db) && HonestRun(db, events)
    ensures OutboundCount(Run(db, events).messages, c) == |SentJobs(Run(db, events).tracks, c)|
    ensures forall k, p, body :: (k, p) in SentJobs(Run(db, events).tracks, c) ==>
      Apply(Run(db, events), SentReported(k, p, body)) == Run(db, events)
  {
    hide Run, Fresh, HonestRun, OutboundCount;
    FreshInvariant(db);
    InvariantOnRuns(db, events);
  }

  lemma SentJobStays(db: Db, e: Event, k: RowKey, p: nat)
    requires WellFormed(db) && k in db.tracks && p in db.tracks[k].jobs
    requires db.tracks[k].jobs[p].status == Sent && db.tracks[k].jobs[p].attempts < 2
    ensures var db' := Apply(db, e);
      WellFormed(db') && k in db'.tracks && p in db'.tracks[k].jobs && db'.tracks[k].jobs[p] == db.tracks[k].jobs[p]
  {
    hide Apply, TrackNext, WellFormed;
    EventActsOnTracks(db, e);
    SentStaysSent(StepsOf(db, k), db.now, db.tracks[k], EventFor(db, e, k), p);
  }

  /** Whatever is reported, in whatever order: a delivered job with fewer than two recorded
      failures is never touched again. */
  lemma {:induction false} SentForever(db: Db, events: seq<Event>, k: RowKey, p: nat)
    requires WellFormed(db) && k in db.tracks && p in db.tracks[k].jobs
    requires db.tracks[k].jobs[p].status == Sent && db.tracks[k].jobs[p].attempts < 2
    ensures var db' := Run(db, events);
      k in db'.tracks && p in db'.tracks[k].jobs && db'.tracks[k].jobs[p] == db.tracks[k].jobs[p]
    decreases |events|
  {
    hide Apply, WellFormed;
    if events != [] {
      SentJobStays(db, events[0], k, p);
      SentForever(Apply(db, events[0]), events[1..], k, p);
    }
  }

  // ---------- cadences end ----------

  /** A failure report for a job that was given up, or one that undoes a delivery. */
  predicate Late(db: Db, e: Event) {
    e.FailureReported? && e.row in db.tracks && e.position in db.tracks[e.row].jobs
    && (db.tracks[e.row].jobs[e.position].status == Failed || Undoing(db, e))
  }

  predicate OrderlyRun(db: Db, events: seq<Event>)
    decreases |events|
  {
    events == [] || (!Late(db, events[0]) && OrderlyRun(Apply(db, events[0]), events[1..]))
  }

  /** How often an event of the run changed the contact's row or one of its jobs. */
  function Changes(db: Db, events: seq<Event>, k: RowKey): nat
    decreases |events|
  {
    if events == [] then 0
    else
      var next := Apply(db, events[0]);
      (if k in db.tracks && k in next.tracks && next.tracks[k] == db.tracks[k] then 0
       else if k !in db.tracks then 0 else 1)
      + Changes(next, events[1..], k)
  }

  lemma LateIsLateFailure(db: Db, e: Event, k: RowKey)
    requires k in db.tracks && !Late(db, e)
    ensures !LateFailure(db.tracks[k], EventFor(db, e, k))
  {
    hide TickVisits;
  }

  lemma OneChange(db: Db, e: Event, k: RowKey)
    requires Invariant(db) && !Late(db, e) && k in db.tracks
    ensures var db' := Apply(db, e);
      && Invariant(db') && k in db'.tracks && StepsOf(db', k) == StepsOf(db, k)
      && NoSkip(StepsOf(db, k), db.tracks[k]) && NoSkip(StepsOf(db', k), db'.tracks[k])
      && (db'.tracks[k] != db.tracks[k] ==>
            Rank(StepsOf(db', k), db'.tracks[k]) < Rank(StepsOf(db, k), db.tracks[k]))
  {
    hide Apply, EventFor, NoSkip, DelaysRespected, Accounted, WellFormed, TrackNext, Rank;
    assert TrackOk(db, k);
    InvariantExactly(db, e);
    EventActsOnTracks(db, e);
    LateIsLateFailure(db, e, k);
    RankFalls(StepsOf(db, k), db.now, db.tracks[k], EventFor(db, e, k));
  }

  lemma {:induction false} ChangesBounded(db: Db, events: seq<Event>, k: RowKey)
    requires Invariant(db) && OrderlyRun(db, events) && k in db.tracks && NoSkip(StepsOf(db, k), db.tracks[k])
    ensures Changes(db, events, k) <= Rank(StepsOf(db, k), db.tracks[k])
    decreases |events|
  {
    hide Apply, Invariant, NoSkip, Rank, Late;
    if events != [] {
      OneChange(db, events[0], k);
      ChangesBounded(Apply(db, events[0]), events[1..], k);
    }
  }

  /** Every cadence ends: once a contact is staged, however long the run and whatever ticks,
      reports, replies and re-starts it holds, the contact's row and jobs change at most
      7n + 6 times for a cadence of n steps. */
  lemma CadencesEnd(db: Db, events: seq<Event>, k: RowKey)
    requires Invariant(db) && k in db.tracks && db.tracks[k] == NewTrack() && OrderlyRun(db, events)
    ensures Changes(db, events, k) <= 7 * |StepsOf(db, k)| + 6
  {
    hide Changes, OrderlyRun, DelaysRespected, Accounted, WellFormed;
    assert TrackOk(db, k);
    ChangesBounded(db, events, k);
  }

  /** What is left of the cadence: the steps from the current position on. */
  function StepsLeft(steps: seq<Step>, t: Track): nat
    requires NoSkip(steps, t)
  {
    if t.row.status == Completed then 0 else |steps| + 1 - t.row.position
  }

  /** An advance takes the row to the next position, or delivers the last step. */
  predicate Advances(t: Track, t': Track) {
    t'.row.position != t.row.position
    || (t'.row.status == Completed && t.row.status != Completed && t.row.position in t'.jobs)
  }

  /** How many of its reports a job can still take up: three until it is settled. */
  function ReportsLeft(t: Track, p: nat): int {
    if p !in t.jobs then 3
    else if t.jobs[p].status == Queued then 3 - t.jobs[p].attempts
    else 0
  }

  predicate ReportTakenUp(e: TrackEvent, t: Track, t': Track, p: nat) {
    (e == Succeeded(p) || e == FailedAt(p)) && t' != t
  }

  lemma AdvanceUsesStep(steps: seq<Step>, now: int, t: Track, e: TrackEvent)
    requires NoSkip(steps, t) && !LateFailure(t, e)
    ensures var t' := TrackNext(steps, now, t, e);
      NoSkip(steps, t') && StepsLeft(steps, t') + (if Advances(t, t') then 1 else 0) <= StepsLeft(steps, t)
  {
    hide Templates.RenderedWith;
    NoSkipPreserved(steps, now, t, e);
  }

  lemma ReportUsesAttempt(steps: seq<Step>, now: int, t: Track, e: TrackEvent, p: nat)
    requires NoSkip(steps, t) && !LateFailure(t, e) && !Revives(t, e)
    ensures var t' := TrackNext(steps, now, t, e);
      0 <= ReportsLeft(t', p) && ReportsLeft(t', p) + (if ReportTakenUp(e, t, t', p) then 1 else 0) <= ReportsLeft(t, p)
  {
    hide Templates.RenderedWith;
    NoSkipPreserved(steps, now, t, e);
  }

  function AdvanceCount(db: Db, events: seq<Event>, k: RowKey): nat
    decreases |events|
  {
    if events == [] then 0
    else
      var next := Apply(db, events[0]);
      (if k in db.tracks && k in next.tracks && Advances(db.tracks[k], next.tracks[k]) then 1 else 0)
      + AdvanceCount(next, events[1..], k)
  }

  /** How many reports of the contact's job at position p the run takes up. */
  function ReportCount(db: Db, events: seq<Event>, k: RowKey, p: nat): nat
    decreases |events|
  {
    if events == [] then 0
    else
      var next := Apply(db, events[0]);
      (if k in db.tracks && k in next.tracks
          && ReportTakenUp(EventFor(db, events[0], k), db.tracks[k], next.tracks[k], p) then 1 else 0)
      + ReportCount(next, events[1..], k, p)
  }

  lemma {:induction false} AdvancesBounded(db: Db, events: seq<Event>, k: RowKey)
    requires Invariant(db) && OrderlyRun(db, events) && k in db.tracks && NoSkip(StepsOf(db, k), db.tracks[k])
    ensures AdvanceCount(db, events, k) <= StepsLeft(StepsOf(db, k), db.tracks[k])
    decreases |events|
  {
    hide Apply, Invariant, NoSkip, StepsLeft, Late, Advances, EventFor;
    if events != [] {
      OneChange(db, events[0], k);
      OneTransition(db, events[0], k);
      LateIsLateFailure(db, events[0], k);
      AdvanceUsesStep(StepsOf(db, k), db.now, db.tracks[k], EventFor(db, events[0], k));
      AdvancesBounded(Apply(db, events[0]), events[1..], k);
    }
  }

  lemma OneTransition(db: Db, e: Event, k: RowKey)
    requires Invariant(db) && k in db.tracks
    ensures var db' := Apply(db, e);
      k in db'.tracks && db'.tracks[k] == TrackNext(StepsOf(db, k), db.now, db.tracks[k], EventFor(db, e, k))
  {
    hide Apply, EventFor, TrackNext, WellFormed, TrackOk, Accounted;
    EventActsOnTracks(db, e);
  }

  lemma {:induction false} ReportsBounded(db: Db, events: seq<Event>, k: RowKey, p: nat)
    requires Invariant(db) && OrderlyRun(db, events) && NoRevival(db, events) && k in db.tracks
    requires NoSkip(StepsOf(db, k), db.tracks[k]) && ReportsLeft(db.tracks[k], p) >= 0
    ensures ReportCount(db, events, k, p) <= ReportsLeft(db.tracks[k], p)
    decreases |events|
  {
    hide Apply, Invariant, NoSkip, ReportsLeft, Late, Reviving, ReportTakenUp, EventFor;
    if events != [] {
      OneChange(db, events[0], k);
      OneTransition(db, events[0], k);
      LateIsLateFailure(db, events[0], k);
      RevivingIsRevives(db, events[0], k);
      ReportUsesAttempt(StepsOf(db, k), db.now, db.tracks[k], EventFor(db, events[0], k), p);
      ReportsBounded(Apply(db, events[0]), events[1..], k, p);
    }
  }

  /** From its staging on a contact advances at most n times, and takes up at most three reports
      for each step, as long as reports concern queued jobs. */
  lemma AdvancesAndReportsBounded(db: Db, events: seq<Event>, k: RowKey, p: nat)
    requires Invariant(db) && k in db.tracks && db.tracks[k] == NewTrack() && OrderlyRun(db, events)
    ensures AdvanceCount(db, events, k) <= |StepsOf(db, k)|
    ensures NoRevival(db, events) ==> ReportCount(db, events, k, p) <= 3
  {
    hide AdvanceCount, ReportCount, OrderlyRun, NoRevival, DelaysRespected, Accounted, WellFormed;
    assert TrackOk(db, k);
    AdvancesBounded(db, events, k);
    if NoRevival(db, events) { ReportsBounded(db, events, k, p); }
  }

  // ---------- stop on reply ----------

  ghost predicate ContactQuiet(db: Db, keys: set<RowKey>) {
    forall k :: k in keys ==> k in db.tracks && Quiet(db.tracks[k])
  }

  /** A success reported for a job whose delivery had been given up. */
  predicate Reviving(db: Db, e: Event) {
    e.SentReported? && e.row in db.tracks && e.position in db.tracks[e.row].jobs
    && db.tracks[e.row].jobs[e.position].status == Failed
  }

  predicate NoRevival(db: Db, events: seq<Event>)
    decreases |events|
  {
    events == [] || (!Reviving(db, events[0]) && NoRevival(Apply(db, events[0]), events[1..]))
  }

  lemma ReplyQuiets(db: Db, contact: ContactId, body: string)
    requires WellFormed(db) && contact in db.contacts && !Blank(body)
    requires forall k, p :: k in db.tracks && k.contact == contact && p in db.tracks[k].jobs ==>
      db.tracks[k].jobs[p].status != Queued
    ensures ContactQuiet(Apply(db, ReplyReported(contact, body)), set k | k in db.tracks && k.contact == contact)
  {
    hide Blank;
  }

  lemma QuietStep(db: Db, e: Event, keys: set<RowKey>)
    requires WellFormed(db) && ContactQuiet(db, keys) && !Reviving(db, e)
    ensures var db' := Apply(db, e);
      && WellFormed(db') && ContactQuiet(db', keys)
      && forall k :: k in keys ==>
           db'.tracks[k].jobs.Keys == db.tracks[k].jobs.Keys
           && SentPositions(db'.tracks[k]) <= SentPositions(db.tracks[k])
  {
    hide Apply, TrackNext, WellFormed, Quiet, SentPositions, EventFor;
    EventActsOnTracks(db, e);
    forall k | k in keys
      ensures Quiet(Apply(db, e).tracks[k]) && Apply(db, e).tracks[k].jobs.Keys == db.tracks[k].jobs.Keys
        && SentPositions(Apply(db, e).tracks[k]) <= SentPositions(db.tracks[k])
    {
      RevivingIsRevives(db, e, k);
      QuietUntilRevived(StepsOf(db, k), db.now, db.tracks[k], EventFor(db, e, k));
    }
  }

  lemma RevivingIsRevives(db: Db, e: Event, k: RowKey)
    requires k in db.tracks && !Reviving(db, e)
    ensures !Revives(db.tracks[k], EventFor(db, e, k))
  {
    hide TickVisits;
  }

  lemma {:induction false} QuietForever(db: Db, events: seq<Event>, keys: set<RowKey>)
    requires WellFormed(db) && ContactQuiet(db, keys) && NoRevival(db, events)
    ensures var db' := Run(db, events);
      ContactQuiet(db', keys) && forall k :: k in keys ==>
        db'.tracks[k].jobs.Keys == db.tracks[k].jobs.Keys
        && SentPositions(db'.tracks[k]) <= SentPositions(db.tracks[k])
    decreases |events|
  {
    hide Apply, WellFormed, Quiet, SentPositions, Reviving;
    if events != [] {
      QuietStep(db, events[0], keys);
      QuietForever(Apply(db, events[0]), events[1..], keys);
    }
  }

  /** A reply from a contact with nothing queued stops it for good: through ticks, re-starts,
      and duplicate or failure reports, no job is created for it in any campaign it was in,
      and no delivery is added there, until a success is reported for a job given up before. */
  lemma StopOnReplyForever(db: Db, contact: ContactId, body: string, events: seq<Event>)
    requires WellFormed(db) && contact in db.contacts && !Blank(body)
    requires forall k, p :: k in db.tracks && k.contact == contact && p in db.tracks[k].jobs ==>
      db.tracks[k].jobs[p].status != Queued
    requires NoRevival(Apply(db, ReplyReported(contact, body)), events)
    ensures var db' := Run(Apply(db, ReplyReported(contact, body)), events);
      forall k :: k in db.tracks && k.contact == contact ==>
        && k in db'.tracks && !Live(db'.tracks[k].row)
        && db'.tracks[k].jobs.Keys == db.tracks[k].jobs.Keys
        && SentPositions(db'.tracks[k]) <= SentPositions(db.tracks[k])
  {
    hide Run, NoRevival, TickVisits, WellFormed, SentPositions, Blank;
    var e := ReplyReported(contact, body);
    var keys := set k | k in db.tracks && k.contact == contact;
    EventActsOnTracks(db, e);
    ReplyQuiets(db, contact, body);
    QuietForever(Apply(db, e), events, keys);
    forall k | k in keys ensures Apply(db, e).tracks[k].jobs == db.tracks[k].jobs {
      assert Apply(db, e).tracks[k] == ReplyTrack(db.tracks[k]);
    }
    forall k | k in keys ensures SentPositions(Apply(db, e).tracks[k]) == SentPositions(db.tracks[k]) {
      SameJobsSamePositions(db.tracks[k], Apply(db, e).tracks[k]);
    }
  }

  lemma SameJobsSamePositions(t1: Track, t2: Track)
    requires t1.jobs == t2.jobs
    ensures SentPositions(t1) == SentPositions(t2)
  {
  }

  /** Staging the contact into a campaign it was not in yet. */
  predicate NewCadence(db: Db, e: Event, contact: ContactId) {
    e.Staged? && contact in e.contacts && RowKey(e.campaign, contact) !in db.tracks
  }

  predicate NoNewCadence(db: Db, events: seq<Event>, contact: ContactId)
    decreases |events|
  {
    events == [] || (!NewCadence(db, events[0], contact) && NoNewCadence(Apply(db, events[0]), events[1..], contact))
  }

  ghost predicate OnlyRows(db: Db, keys: set<RowKey>, contact: ContactId) {
    forall k :: k in db.tracks && k.contact == contact ==> k in keys
  }

  lemma NoOutboundWhileQuiet(db: Db, e: Event, keys: set<RowKey>, contact: ContactId)
    requires WellFormed(db) && ContactQuiet(db, keys) && OnlyRows(db, keys, contact)
    requires !Reviving(db, e) && !NewCadence(db, e, contact)
    ensures OnlyRows(Apply(db, e), keys, contact)
    ensures OutboundCount(Apply(db, e).messages, contact) == OutboundCount(db.messages, contact)
  {
    hide Apply, OutboundCount, TrackNext, WellFormed, EventFor;
    EventActsOnTracks(db, e);
    if Delivers(db, e) {
      DeliveryCounts(db, e, contact);
    } else {
      OutboundUnchanged(db, e, contact);
    }
  }

  lemma {:induction false} SilentForever(db: Db, events: seq<Event>, keys: set<RowKey>, contact: ContactId)
    requires WellFormed(db) && ContactQuiet(db, keys) && OnlyRows(db, keys, contact)
    requires NoRevival(db, events) && NoNewCadence(db, events, contact)
    ensures OutboundCount(Run(db, events).messages, contact) == OutboundCount(db.messages, contact)
    decreases |events|
  {
    hide Apply, WellFormed, Quiet, OutboundCount, Reviving, NewCadence;
    if events != [] {
      QuietStep(db, events[0], keys);
      NoOutboundWhileQuiet(db, events[0], keys, contact);
      SilentForever(Apply(db, events[0]), events[1..], keys, contact);
    }
  }

  /** Nor is anything sent to it while it is not put into a campaign it was never in. */
  lemma NoMessageAfterReply(db: Db, contact: ContactId, body: string, events: seq<Event>)
    requires WellFormed(db) && contact in db.contacts && !Blank(body)
    requires forall k, p :: k in db.tracks && k.contact == contact && p in db.tracks[k].jobs ==>
      db.tracks[k].jobs[p].status != Queued
    requires var db1 := Apply(db, ReplyReported(contact, body));
      NoRevival(db1, events) && NoNewCadence(db1, events, contact)
    ensures OutboundCount(Run(Apply(db, ReplyReported(contact, body)), events).messages, contact)
         == OutboundCount(db.messages, contact)
  {
    hide Run, NoRevival, NoNewCadence, TickVisits, WellFormed, Blank, OutboundCount;
    var e := ReplyReported(contact, body);
    EventActsOnTracks(db, e);
    ReplyQuiets(db, contact, body);
    OutboundUnchanged(db, e, contact);
    SilentForever(Apply(db, e), events, (set k | k in db.tracks && k.contact == contact), contact);
  }

  /** The case a reply does not stop: a job queued when it arrives is still delivered, and its
      report counts it and advances the contact, alive again if there is a next step. */
  lemma QueuedJobOutlivesReply(db: Db, k: RowKey, p: nat, body: string, sent: string)
    requires WellFormed(db) && k in db.tracks && !Blank(body)
    requires p in db.tracks[k].jobs && db.tracks[k].jobs[p].status == Queued
    ensures var db' := Run(db, [ReplyReported(k.contact, body), SentReported(k, p, sent)]);
      var c := db.tracks[k].row.position;
      && k in db'.tracks && db'.tracks[k] == SucceedTrack(StepsOf(db, k), db.now, ReplyTrack(db.tracks[k]), p)
      && (c < |StepsOf(db, k)| ==> Live(db'.tracks[k].row) && db'.tracks[k].row.position == c + 1)
      && OutboundCount(db'.messages, k.contact) == OutboundCount(db.messages, k.contact) + 1
  {
    hide Blank, SentJobs, OutboundCount, IsLatestRunning;
    var e1, e2 := ReplyReported(k.contact, body), SentReported(k, p, sent);
    var db1 := Apply(db, e1);
    assert [e1, e2][1..] == [e2] && [e2][1..] == [];
    assert Run(db, [e1, e2]) == Run(db1, [e2]) == Run(Apply(db1, e2), []);
    CountAppend(db.messages, Message(k.contact, Inbound, body), k.contact);
    DeliveryCounts(db1, e2, k.contact);
  }

  // ---------- what exactly a reply stops ----------

  /** Nothing of the contact is queued, given up, or one failure report away from being undone. */
  ghost predicate AllSettled(db: Db, contact: ContactId) {
    forall k, p :: k in db.tracks && k.contact == contact && p in db.tracks[k].jobs ==> Settled(db.tracks[k].jobs[p])
  }

  predicate Settled(j: Job) {
    j.status == Sent && j.attempts < 2
  }

  ghost predicate NothingQueued(db: Db, contact: ContactId) {
    forall k, p :: k in db.tracks && k.contact == contact && p in db.tracks[k].jobs ==>
      db.tracks[k].jobs[p].status != Queued
  }

  predicate FrozenTrack(t: Track) {
    !Live(t.row) && forall p :: p in t.jobs ==> Settled(t.jobs[p])
  }

  ghost predicate Frozen(db: Db, contact: ContactId) {
    forall k :: k in db.tracks && k.contact == contact ==> FrozenTrack(db.tracks[k])
  }

  lemma FrozenStays(steps: seq<Step>, now: int, t: Track, e: TrackEvent)
    requires FrozenTrack(t)
    ensures TrackNext(steps, now, t, e) == t
  {
    hide TickTrack;
  }

  lemma FrozenStep(db: Db, e: Event, contact: ContactId)
    requires WellFormed(db) && Frozen(db, contact) && !NewCadence(db, e, contact)
    ensures WellFormed(Apply(db, e)) && Frozen(Apply(db, e), contact)
    ensures OutboundCount(Apply(db, e).messages, contact) == OutboundCount(db.messages, contact)
  {
    hide Apply, OutboundCount, TrackNext, WellFormed, EventFor, FrozenTrack;
    EventActsOnTracks(db, e);
    forall k | k in Apply(db, e).tracks && k.contact == contact
      ensures FrozenTrack(Apply(db, e).tracks[k])
    {
      if k in db.tracks { FrozenStays(StepsOf(db, k), db.now, db.tracks[k], EventFor(db, e, k)); }
    }
    if Delivers(db, e) {
      DeliveryCounts(db, e, contact);
      FrozenDeliversNothing(db, e, contact);
    } else {
      OutboundUnchanged(db, e, contact);
    }
  }

  lemma FrozenDeliversNothing(db: Db, e: Event, contact: ContactId)
    requires Frozen(db, contact) && Delivers(db, e)
    ensures e.row.contact != contact
  {
  }

  lemma {:induction false} FrozenForever(db: Db, events: seq<Event>, contact: ContactId)
    requires WellFormed(db) && Frozen(db, contact) && NoNewCadence(db, events, contact)
    ensures OutboundCount(Run(db, events).messages, contact) == OutboundCount(db.messages, contact)
    decreases |events|
  {
    hide Apply, WellFormed, Frozen, OutboundCount, NewCadence;
    if events != [] {
      FrozenStep(db, events[0], contact);
      FrozenForever(Apply(db, events[0]), events[1..], contact);
    }
  }

  lemma AfterReply(db: Db, contact: ContactId, body: string)
    requires WellFormed(db) && contact in db.contacts && !Blank(body)
    ensures var db1 := Apply(db, ReplyReported(contact, body));
      && WellFormed(db1) && (forall k :: k in db1.tracks <==> k in db.tracks)
      && OutboundCount(db1.messages, contact) == OutboundCount(db.messages, contact)
      && forall k :: k in db.tracks && k.contact == contact ==>
           db1.tracks[k].jobs == db.tracks[k].jobs && !Live(db1.tracks[k].row)
  {
    hide Blank, OutboundCount, Apply, WellFormed;
    var e := ReplyReported(contact, body);
    EventActsOnTracks(db, e);
    OutboundUnchanged(db, e, contact);
    assert forall k :: k in db.tracks && k.contact == contact ==> Apply(db, e).tracks[k] == ReplyTrack(db.tracks[k]);
  }

  /** Reporting a delivery that is not recorded yet adds a message. */
  lemma OneReportMore(db: Db, k: RowKey, p: nat)
    requires k in db.tracks && p in db.tracks[k].jobs && db.tracks[k].jobs[p].status != Sent
    ensures NoNewCadence(db, [SentReported(k, p, "")], k.contact)
    ensures db.tracks[k].jobs[p].status == Queued ==> NoRevival(db, [SentReported(k, p, "")])
    ensures OutboundCount(Run(db, [SentReported(k, p, "")]).messages, k.contact)
         == OutboundCount(db.messages, k.contact) + 1
  {
    hide OutboundCount, SentJobs, Apply;
    var e := SentReported(k, p, "");
    assert [e][1..] == [];
    assert Run(db, [e]) == Run(Apply(db, e), []) == Apply(db, e);
    DeliveryCounts(db, e, k.contact);
  }

  /** A delivery undone by one more failure report can be recorded a second time. */
  lemma UndoneAndReported(db: Db, k: RowKey, p: nat) returns (events: seq<Event>)
    requires k in db.tracks && p in db.tracks[k].jobs && !Settled(db.tracks[k].jobs[p])
    ensures NoNewCadence(db, events, k.contact)
    ensures OutboundCount(Run(db, events).messages, k.contact) == OutboundCount(db.messages, k.contact) + 1
  {
    hide OutboundCount;
    if db.tracks[k].jobs[p].status != Sent {
      events := [SentReported(k, p, "")];
      OneReportMore(db, k, p);
    } else {
      var e := FailureReported(k, p);
      events := [e] + [SentReported(k, p, "")];
      assert events[1..] == [SentReported(k, p, "")];
      OneReportMore(Apply(db, e), k, p);
      OutboundUnchanged(db, e, k.contact);
    }
  }

  /** What exactly a reply stops: whatever happens afterwards, except putting the contact into a
      campaign it was not in, nothing more is sent to it, if and only if every job it has is
      delivered with fewer than two recorded failures. */
  lemma ReplyStopsExactly(db: Db, contact: ContactId, body: string)
    requires WellFormed(db) && contact in db.contacts && !Blank(body)
    ensures var db1 := Apply(db, ReplyReported(contact, body));
      (forall events :: NoNewCadence(db1, events, contact) ==>
         OutboundCount(Run(db1, events).messages, contact) == OutboundCount(db.messages, contact))
      <==> AllSettled(db, contact)
  {
    hide Apply, Run, NoNewCadence, OutboundCount, WellFormed, Blank, Settled, Live;
    AfterReply(db, contact, body);
    var db1 := Apply(db, ReplyReported(contact, body));
    if AllSettled(db, contact) {
      forall events | NoNewCadence(db1, events, contact)
        ensures OutboundCount(Run(db1, events).messages, contact) == OutboundCount(db.messages, contact)
      {
        FrozenForever(db1, events, contact);
      }
    } else {
      var k, p :| k in db.tracks && k.contact == contact && p in db.tracks[k].jobs && !Settled(db.tracks[k].jobs[p]);
      var events := UndoneAndReported(db1, k, p);
    }
  }

  /** And short of a success reported for a job given up before: if and only if nothing of the
      contact is queued when the reply arrives. */
  lemma ReplyStopsUnlessRevived(db: Db, contact: ContactId, body: string)
    requires WellFormed(db) && contact in db.contacts && !Blank(body)
    ensures var db1 := Apply(db, ReplyReported(contact, body));
      (forall events :: NoNewCadence(db1, events, contact) && NoRevival(db1, events) ==>
         OutboundCount(Run(db1, events).messages, contact) == OutboundCount(db.messages, contact))
      <==> NothingQueued(db, contact)
  {
    hide Apply, Run, NoNewCadence, NoRevival, OutboundCount, WellFormed, Blank, Live;
    AfterReply(db, contact, body);
    var db1 := Apply(db, ReplyReported(contact, body));
    if NothingQueued(db, contact) {
      forall events | NoNewCadence(db1, events, contact) && NoRevival(db1, events)
        ensures OutboundCount(Run(db1, events).messages, contact) == OutboundCount(db.messages, contact)
      {
        NoMessageAfterReply(db, contact, body, events);
      }
    } else {
      var k, p :| k in db.tracks && k.contact == contact && p in db.tracks[k].jobs
        && db.tracks[k].jobs[p].status == Queued;
      OneReportMore(db1, k, p);
    }
  }

  // ---------- the undone delivery skips a message ----------

  /** What the excluded report leads to: undone and delivered once more, an old job pushes the
      contact past its current MESSAGE step, which then has no job at all. */
  lemma UndoneDeliverySkips(steps: seq<Step>, now: int, t: Track, p: nat)
    requires NoSkip(steps, t) && Undoes(t, FailedAt(p))
    requires var c := t.row.position; p < c < |steps| && steps[c - 1].message && c !in t.jobs
    ensures var t' := TrackNext(steps, now, TrackNext(steps, now, t, FailedAt(p)), Succeeded(p));
      && Live(t'.row) && t'.row.position == t.row.position + 1
      && t.row.position !in t'.jobs && !NoSkip(steps, t')
  {
  }

  // ---------- what one tick achieves ----------

  /** Nothing to do for a candidate: its job is out, or its campaign has no steps. */
  predicate Stuck(db: Db, k: RowKey)
    requires k in db.tracks
  {
    var c := db.tracks[k].row.position;
    if 1 <= c <= |StepsOf(db, k)| then StepsOf(db, k)[c - 1].message && Reserved(db.tracks[k]) else c <= 1
  }

  lemma StuckExactly(db: Db, k: RowKey)
    requires k in db.tracks && NoSkip(StepsOf(db, k), db.tracks[k]) && Live(db.tracks[k].row)
    ensures TickOf(db, k).track == db.tracks[k] <==> Stuck(db, k)
    ensures TickOf(db, k).enqueued ==> !Stuck(db, k)
  {
    hide Templates.RenderedWith;
  }

  lemma {:induction false} TickRowsIdleExactly(db: Db, keys: seq<RowKey>)
    requires NoDup(keys) && forall k :: k in keys ==>
      k in db.tracks && NoSkip(StepsOf(db, k), db.tracks[k]) && Live(db.tracks[k].row)
    ensures TickRows(db, keys) == db <==> forall k :: k in keys ==> Stuck(db, k)
    decreases |keys|
  {
    hide TickOf, Stuck, NoSkip, Live;
    if keys != [] {
      var k := keys[0];
      assert keys == [k] + keys[1..];
      StuckExactly(db, k);
      if Stuck(db, k) {
        assert db.tracks[k := db.tracks[k]] == db.tracks;
        TickRowsIdleExactly(db, keys[1..]);
      } else {
        TickRowsEffect(db, keys);
        assert TickRows(db, keys).tracks[k] == TickOf(db, k).track;
      }
    }
  }

  /** With all gates open, a worker tick is wasted exactly when each of the ten oldest due rows
      is waiting for its job's report or stands in a campaign without steps; any number of
      further due contacts behind them get nothing. */
  lemma TickIdleExactly(db: Db, c: CampaignId)
    requires Invariant(db) && IsLatestRunning(db, c)
    ensures Tick(db, c, true) == db <==> forall k :: k in Candidates(db, c) ==> Stuck(db, k)
  {
    hide TickRows, Stuck, NoSkip, DelaysRespected, Accounted, Candidates, IsLatestRunning;
    forall k | k in Candidates(db, c)
      ensures k in db.tracks && NoSkip(StepsOf(db, k), db.tracks[k]) && Live(db.tracks[k].row)
    {
      assert k in db.order && TrackOk(db, k);
    }
    TickRowsIdleExactly(db, Candidates(db, c));
  }

  predicate JobsChanged(db: Db, db': Db, k: RowKey) {
    k in db.tracks && k in db'.tracks && db'.tracks[k].jobs != db.tracks[k].jobs
  }

  lemma {:induction false} TickRowsEnqueueOne(db: Db, keys: seq<RowKey>, k1: RowKey, k2: RowKey)
    requires NoDup(keys) && (forall k :: k in keys ==> k in db.tracks) && k1 in db.tracks && k2 in db.tracks
    ensures var db' := TickRows(db, keys);
      && (JobsChanged(db, db', k1) ==> k1 in keys)
      && (JobsChanged(db, db', k1) && JobsChanged(db, db', k2) ==> k1 == k2)
    decreases |keys|
  {
    hide TickTrack;
    if keys != [] {
      var k := keys[0];
      var out := TickOf(db, k);
      var next := db.(tracks := db.tracks[k := out.track]);
      OnlyEnqueueMakesJobs(db, k);
      TickRowsEffect(db, keys);
      if !out.enqueued {
        assert forall i :: 0 <= i < |keys[1..]| ==> keys[1..][i] == keys[i + 1];
        TickRowsEnqueueOne(next, keys[1..], k1, k2);
      }
    }
  }

  lemma OnlyEnqueueMakesJobs(db: Db, k: RowKey)
    requires k in db.tracks
    ensures !TickOf(db, k).enqueued ==> TickOf(db, k).track.jobs == db.tracks[k].jobs
  {
    hide Templates.RenderedWith;
  }

  /** One tick creates at most one job. */
  lemma OneJobPerTick(db: Db, c: CampaignId, gates: bool, k1: RowKey, k2: RowKey)
    requires WellFormed(db) && JobsChanged(db, Tick(db, c, gates), k1) && JobsChanged(db, Tick(db, c, gates), k2)
    ensures k1 == k2
  {
    hide TickRows, Candidates, IsLatestRunning;
    if gates && IsLatestRunning(db, c) {
      TickRowsEnqueueOne(db, Candidates(db, c), k1, k2);
    }
  }
}
