/** How a contact moves through its cadence: when its next step is due, why it stops, when it is
    completed, and what pausing a campaign holds back. */
module OutreachSteps {
  import opened Text
  import opened Cadence
  import opened Outreach
  import opened OutreachRuns
  import opened OutreachTexts
  import Templates

  // ---------- when the next step is due ----------

  /** A contact at its first step is due at once. One that has moved on is due exactly the delay of the
      step it left after that step's delivery; after a step that sends nothing, no later than that
      delay from now. */
  predicate DueOnTime(steps: seq<Step>, now: int, t: Track) {
    var c := t.row.position;
    && (c == 1 && t.row.status != Completed ==> t.row.nextAt.None?)
    && (c > 1 && t.row.status != Completed ==>
          && t.row.nextAt.Some? && c - 1 <= |steps|
          && var delay := steps[c - 2].delay;
             if c - 1 in t.jobs
             then t.jobs[c - 1].executedAt.Some? && t.row.nextAt.value == t.jobs[c - 1].executedAt.value + delay
             else !steps[c - 2].message && t.row.nextAt.value <= now + delay)
  }

  lemma DueAfterSuccess(steps: seq<Step>, now: int, t: Track, p: nat)
    requires NoSkip(steps, t) && DueOnTime(steps, now, t) && p in t.jobs
    ensures DueOnTime(steps, now, SucceedTrack(steps, now, t, p))
  {
  }

  lemma DueAfter(steps: seq<Step>, now: int, t: Track, e: TrackEvent)
    requires NoSkip(steps, t) && DueOnTime(steps, now, t) && !Undoes(t, e)
    ensures DueOnTime(steps, now, TrackNext(steps, now, t, e))
  {
    hide Templates.RenderedWith, SucceedTrack;
    if e.Succeeded? && e.position in t.jobs { DueAfterSuccess(steps, now, t, e.position); }
  }

  lemma DueLater(steps: seq<Step>, now: int, later: int, t: Track)
    requires DueOnTime(steps, now, t) && now <= later
    ensures DueOnTime(steps, later, t)
  {
  }

  lemma DueForNew(steps: seq<Step>, now: int)
    ensures DueOnTime(steps, now, NewTrack())
  {
  }

  ghost predicate AllDueOnTime(db: Db) {
    forall k :: k in db.tracks ==> DueOnTime(StepsOf(db, k), db.now, db.tracks[k])
  }

  lemma AllDueAfter(db: Db, e: Event)
    requires Invariant(db) && AllDueOnTime(db) && !Undoing(db, e)
    ensures AllDueOnTime(Apply(db, e))
  {
    hide Apply, EventFor, StepsOf, NoSkip, DueOnTime, TrackNext, DelaysRespected, Accounted, WellFormed, Undoing;
    var db' := Apply(db, e);
    EventActsOnTracks(db, e);
    forall k | k in db'.tracks ensures DueOnTime(StepsOf(db', k), db'.now, db'.tracks[k]) {
      var steps := StepsOf(db, k);
      if k in db.tracks {
        assert TrackOk(db, k);
        UndoingIsUndoes(db, e, k);
        DueAfter(steps, db.now, db.tracks[k], EventFor(db, e, k));
        DueLater(steps, db.now, db'.now, db'.tracks[k]);
      } else {
        DueForNew(steps, db'.now);
      }
    }
  }

  lemma {:induction false} AllDueOnRuns(db: Db, events: seq<Event>)
    requires Invariant(db) && AllDueOnTime(db) && HonestRun(db, events)
    ensures AllDueOnTime(Run(db, events))
    decreases |events|
  {
    hide Apply, Invariant, AllDueOnTime, Undoing;
    if events != [] {
      InvariantExactly(db, events[0]);
      AllDueAfter(db, events[0]);
      AllDueOnRuns(Apply(db, events[0]), events[1..]);
    }
  }

  /** The other side of the delays: in every reachable state a contact still in its cadence is due
      exactly when they are over, never later. */
  lemma DueExactly(db: Db, events: seq<Event>, k: RowKey)
    requires Fresh(db) && HonestRun(db, events) && k in Run(db, events).tracks
    ensures DueOnTime(StepsOf(Run(db, events), k), Run(db, events).now, Run(db, events).tracks[k])
    ensures var steps, now, t := StepsOf(Run(db, events), k), Run(db, events).now, Run(db, events).tracks[k];
      var c := t.row.position;
      && (Live(t.row) && c == 1 ==> Due(t.row, now))
      && (Live(t.row) && c > 1 && c - 1 in t.jobs ==>
            c - 1 <= |steps| && t.jobs[c - 1].executedAt.Some?
            && (Due(t.row, now) <==> t.jobs[c - 1].executedAt.value + steps[c - 2].delay <= now))
  {
    hide Run, HonestRun, Invariant;
    FreshInvariant(db);
    AllDueOnRuns(db, events);
  }

  // ---------- deliveries ----------

  /** A delivery marks the job sent at this moment and takes the contact on by one step, or completes it
      after the last one. */
  lemma DeliveryMovesOn(db: Db, e: Event)
    requires Delivers(db, e)
    ensures var t, t' := db.tracks[e.row], Apply(db, e).tracks[e.row];
      var c, n := t.row.position, |StepsOf(db, e.row)|;
      && t'.jobs[e.position].status == Sent && t'.jobs[e.position].executedAt == Some(db.now)
      && (forall p :: p in t.jobs && p != e.position ==> p in t'.jobs && t'.jobs[p] == t.jobs[p])
      && (c < n ==> t'.row.position == c + 1 && t'.row.status == Waiting)
      && (1 <= c < n ==> t'.row.nextAt == Some(db.now + StepsOf(db, e.row)[c - 1].delay))
      && (c >= n ==> t'.row.position == c && t'.row.status == Completed && t'.row.nextAt.None?)
  {
  }

  // ---------- why a contact stops ----------

  /** The tick comes to the contact at a MESSAGE step with no job out that cannot be rendered. */
  predicate LacksVariables(db: Db, e: Event, k: RowKey)
    requires WellFormed(db) && k in db.tracks
  {
    e.WorkerTick? && Comes(db, e.campaign, e.gates, k) && TickBlocked(StepsOf(db, k), db.tracks[k], ValuesOf(db, k))
  }

  predicate ThirdFailure(db: Db, e: Event, k: RowKey) {
    && e.FailureReported? && e.row == k && k in db.tracks && e.position in db.tracks[k].jobs
    && db.tracks[k].jobs[e.position].attempts >= 2
  }

  predicate Replies(db: Db, e: Event, k: RowKey) {
    e.ReplyReported? && e.contact == k.contact && k.contact in db.contacts && !Blank(e.body)
  }

  predicate StoppedFor(row: Row, reason: Reason) {
    row.status == Stopped && row.reason == reason
  }

  /** A contact in its cadence is stopped for a missing variable, for a third failure or for a reply,
      exactly when one of these happens to it, and its row says which. */
  lemma StopsExactly(db: Db, e: Event, k: RowKey)
    requires WellFormed(db) && k in db.tracks && Live(db.tracks[k].row)
    ensures k in Apply(db, e).tracks
    ensures var row := Apply(db, e).tracks[k].row;
      && (StoppedFor(row, MissingVariables) <==> LacksVariables(db, e, k))
      && (StoppedFor(row, DeliveryFailed) <==> ThirdFailure(db, e, k))
      && (StoppedFor(row, StopOnReply) <==> Replies(db, e, k))
      && !StoppedFor(row, NoReason)
  {
    hide Apply, TrackNext, EventFor, LacksVariables, WellFormed, Blank;
    EventActsOnTracks(db, e);
    var steps, t, te := StepsOf(db, k), db.tracks[k], EventFor(db, e, k);
    TransitionStops(steps, db.now, t, te);
    EventStops(db, e, k);
  }

  /** What stops a contact in its cadence, seen from its own row. */
  lemma TransitionStops(steps: seq<Step>, now: int, t: Track, e: TrackEvent)
    requires Live(t.row)
    ensures var row, p := TrackNext(steps, now, t, e).row, t.row.position;
      && (StoppedFor(row, MissingVariables)
          <==> (e.Ticked? && Due(t.row, now) && TickBlocked(steps, t, e.values)))
      && (StoppedFor(row, DeliveryFailed)
          <==> (e.FailedAt? && e.position in t.jobs && t.jobs[e.position].attempts >= 2))
      && (StoppedFor(row, StopOnReply) <==> e.Replied?)
      && !StoppedFor(row, NoReason)
  {
    hide TickTrack, Advance, TickBlocked;
    match e
    case Ticked(values) => TickStops(steps, values, now, t);
    case Succeeded(_) => NeverStops(steps, now, t.row);
    case _ =>
  }

  predicate TickBlocked(steps: seq<Step>, t: Track, values: map<string, string>) {
    var p := t.row.position;
    && 1 <= p <= |steps| && steps[p - 1].message && !Reserved(t)
    && Templates.RenderedWith(steps[p - 1].template, values).needsReview
  }

  lemma EventStops(db: Db, e: Event, k: RowKey)
    requires WellFormed(db) && k in db.tracks
    ensures var te, t := EventFor(db, e, k), db.tracks[k];
      && (LacksVariables(db, e, k) <==> te.Ticked? && Due(t.row, db.now) && TickBlocked(StepsOf(db, k), t, te.values))
      && (ThirdFailure(db, e, k) <==> te.FailedAt? && te.position in t.jobs && t.jobs[te.position].attempts >= 2)
      && (Replies(db, e, k) <==> te.Replied?)
  {
    hide Blank, Comes, TickVisits, StepsOf, ValuesOf, Templates.RenderedWith, Reserved, WellFormed;
    if e.WorkerTick? { ComesMeans(db, e.campaign, e.gates, k); }
  }

  lemma TickStops(steps: seq<Step>, values: map<string, string>, now: int, t: Track)
    requires Live(t.row)
    ensures var row := TickTrack(steps, values, now, t).track.row;
      if TickBlocked(steps, t, values) then StoppedFor(row, MissingVariables) else row.status != Stopped
  {
    hide Templates.RenderedWith;
  }

  lemma NeverStops(steps: seq<Step>, now: int, row: Row)
    ensures Advance(steps, now, row).status != Stopped
  {
  }

  /** A failure report counts on a queued job, changes nothing else before the third, and gives the job up
      at the third. */
  lemma FailureCounts(db: Db, k: RowKey, p: nat)
    requires k in db.tracks && p in db.tracks[k].jobs
    ensures var db' := Apply(db, FailureReported(k, p));
      && db' == db.(tracks := db'.tracks) && db'.tracks.Keys == db.tracks.Keys
      && (forall q :: q in db.tracks && q != k ==> db'.tracks[q] == db.tracks[q])
      && var t, t', job := db.tracks[k], db'.tracks[k], db.tracks[k].jobs[p];
        && t'.jobs.Keys == t.jobs.Keys && (forall q :: q in t.jobs && q != p ==> t'.jobs[q] == t.jobs[q])
        && (job.attempts >= 2 ==>
              t'.jobs[p] == job.(status := Failed, attempts := job.attempts + 1) && t'.row.position == t.row.position)
        && (job.attempts < 2 ==>
              t'.row == t.row
              && t'.jobs[p] == job.(attempts := job.attempts + if job.status == Queued then 1 else 0))
  {
  }

  /** A reply leaves every job and every other contact alone. */
  lemma ReplyKeepsJobs(db: Db, contact: ContactId, body: string)
    requires contact in db.contacts && !Blank(body)
    ensures var db' := Apply(db, ReplyReported(contact, body));
      && db' == db.(tracks := db'.tracks, messages := db.messages + [Message(contact, Inbound, body)])
      && db'.tracks.Keys == db.tracks.Keys
      && forall k :: k in db.tracks ==>
           && db'.tracks[k].jobs == db.tracks[k].jobs
           && (k.contact != contact || !Live(db.tracks[k].row) ==> db'.tracks[k] == db.tracks[k])
  {
    hide Blank;
  }

  // ---------- what a tick does where there is nothing to send ----------

  /** A contact past its last step is completed, and one at a step that sends nothing goes on to the next,
      due when that step's delay is over; it keeps its jobs. */
  lemma TickMovesOn(db: Db, c: CampaignId, gates: bool, k: RowKey)
    requires WellFormed(db) && Comes(db, c, gates, k)
    ensures k in Tick(db, c, gates).tracks
    ensures var t, t', n := db.tracks[k], Tick(db, c, gates).tracks[k], |StepsOf(db, k)|;
      var p := t.row.position;
      && (p > n && p > 1 ==> t' == t.(row := t.row.(status := Completed)))
      && (1 <= p <= n && !StepsOf(db, k)[p - 1].message ==>
            t' == t.(row := t.row.(position := p + 1, nextAt := Some(db.now + StepsOf(db, k)[p - 1].delay))))
  {
    hide Candidates, Visited, TickRows, Comes, IsLatestRunning, Templates.RenderedWith, Reached;
    ComesMeans(db, c, gates, k);
    TickRowsEffect(db, Candidates(db, c));
  }

  /** A contact the tick does not come to is left alone. */
  lemma TickLeavesOthers(db: Db, c: CampaignId, gates: bool, k: RowKey)
    requires WellFormed(db) && k in db.tracks && !Comes(db, c, gates, k)
    ensures k in Tick(db, c, gates).tracks && Tick(db, c, gates).tracks[k] == db.tracks[k]
  {
    hide Candidates, Visited, TickRows, TickOf, Comes, IsLatestRunning;
    ComesMeans(db, c, gates, k);
    if gates && IsLatestRunning(db, c) { TickRowsEffect(db, Candidates(db, c)); }
  }

  // ---------- pausing ----------

  predicate Paused(db: Db, c: CampaignId) {
    c in db.campaigns && !db.campaigns[c].running
  }

  predicate NoRestart(events: seq<Event>, c: CampaignId) {
    forall i :: 0 <= i < |events| ==> events[i] != RunningSet(c, true)
  }

  lemma PausedStep(db: Db, e: Event, c: CampaignId, k: RowKey)
    requires WellFormed(db) && Paused(db, c) && e != RunningSet(c, true) && k.campaign == c && k in db.tracks
    ensures var db' := Apply(db, e);
      && WellFormed(db') && Paused(db', c) && k in db'.tracks
      && db'.tracks[k].jobs.Keys == db.tracks[k].jobs.Keys
      && (e.WorkerTick? ==> db'.tracks[k] == db.tracks[k])
  {
    PausedStays(db, e, c);
    hide Apply, TrackNext, EventFor, StepsOf, WellFormed;
    EventActsOnTracks(db, e);
    PausedIsNotTicked(db, e, k);
    NothingWritten(StepsOf(db, k), db.now, db.tracks[k], EventFor(db, e, k));
    UntouchedStays(StepsOf(db, k), db.now, db.tracks[k]);
  }

  lemma UntouchedStays(steps: seq<Step>, now: int, t: Track)
    ensures TrackNext(steps, now, t, Untouched) == t
  {
  }

  lemma PausedIsNotTicked(db: Db, e: Event, k: RowKey)
    requires WellFormed(db) && Paused(db, k.campaign)
    ensures !EventFor(db, e, k).Ticked? && (e.WorkerTick? ==> EventFor(db, e, k) == Untouched)
  {
    hide Blank, Candidates, Comes;
    if e.WorkerTick? {
      ComesMeans(db, e.campaign, e.gates, k);
      NotComing(db, e.campaign, e.gates, k);
    }
  }

  lemma NotComing(db: Db, c: CampaignId, gates: bool, k: RowKey)
    requires WellFormed(db) && Paused(db, k.campaign)
    ensures !Comes(db, c, gates, k)
  {
    hide Reached, Candidates;
    if gates && IsLatestRunning(db, c) {
      ReachedIsIn(db, Candidates(db, c), k);
      CandidatesOf(db, c);
    }
  }

  lemma CandidatesOf(db: Db, c: CampaignId)
    ensures forall k :: k in Candidates(db, c) ==> k.campaign == c
  {
  }

  lemma PausedStays(db: Db, e: Event, c: CampaignId)
    requires Paused(db, c) && e != RunningSet(c, true)
    ensures Paused(Apply(db, e), c)
  {
    hide Blank, SucceedTrack, FailTrack, ReplyTrack, TickRows, StageAll, Candidates, IsLatestRunning;
    match e
    case Staged(d, ids) => StageKeepsCampaigns(db, d, ids);
    case WorkerTick(d, g) => if g && IsLatestRunning(db, d) { TickKeepsCampaigns(db, Candidates(db, d)); }
    case _ =>
  }

  lemma {:induction false} StageKeepsCampaigns(db: Db, c: CampaignId, ids: seq<ContactId>)
    ensures StageAll(db, c, ids).campaigns == db.campaigns
    decreases |ids|
  {
    if ids != [] { StageKeepsCampaigns(StageOne(db, c, ids[0]), c, ids[1..]); }
  }

  lemma {:induction false} TickKeepsCampaigns(db: Db, keys: seq<RowKey>)
    requires forall k :: k in keys ==> k in db.tracks
    ensures TickRows(db, keys).campaigns == db.campaigns
    decreases |keys|
  {
    hide TickOf;
    if keys != [] {
      var out := TickOf(db, keys[0]);
      if !out.enqueued { TickKeepsCampaigns(db.(tracks := db.tracks[keys[0] := out.track]), keys[1..]); }
    }
  }

  /** A paused campaign gets no job for any contact it has, whatever happens, until it is set running
      again. */
  lemma {:induction false} PausedGetsNoJob(db: Db, events: seq<Event>, k: RowKey)
    requires WellFormed(db) && Paused(db, k.campaign) && NoRestart(events, k.campaign) && k in db.tracks
    ensures var db' := Run(db, events);
      Paused(db', k.campaign) && k in db'.tracks && db'.tracks[k].jobs.Keys == db.tracks[k].jobs.Keys
    decreases |events|
  {
    hide Apply, WellFormed, Paused;
    if events != [] {
      PausedStep(db, events[0], k.campaign, k);
      PausedGetsNoJob(Apply(db, events[0]), events[1..], k);
    }
  }

  /** The campaign set running last is the one the next tick works on, and setting one running or not
      leaves every other campaign as it is. */
  lemma SetRunningExactly(db: Db, c: CampaignId, running: bool)
    requires c in db.campaigns && forall d :: d in db.campaigns ==> db.campaigns[d].updatedAt <= db.now
    ensures var db' := Apply(db, RunningSet(c, running));
      && (running ==> IsLatestRunning(db', c)) && (!running ==> Paused(db', c))
      && db'.campaigns.Keys == db.campaigns.Keys
      && (forall d :: d in db.campaigns && d != c ==> db'.campaigns[d] == db.campaigns[d])
      && db'.campaigns[c].steps == db.campaigns[c].steps
      && db' == db.(campaigns := db'.campaigns)
  {
  }
}
