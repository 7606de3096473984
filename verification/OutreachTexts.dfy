/** What is written and what is sent: the text of every job and of every message. */
module OutreachTexts {
  import opened Text
  import opened Cadence
  import opened Outreach
  import opened OutreachRuns
  import Templates

  // ---------- the job a tick creates ----------

  predicate NewJob(db: Db, db': Db, k: RowKey, p: nat) {
    k in db'.tracks && p in db'.tracks[k].jobs && (k in db.tracks ==> p !in db.tracks[k].jobs)
  }

  /** `text` is what the MESSAGE step at position p renders to for these values, nothing being missing. */
  predicate RendersTo(steps: seq<Step>, p: nat, values: map<string, string>, text: string) {
    && 1 <= p <= |steps| && steps[p - 1].message
    && var r := Templates.RenderedWith(steps[p - 1].template, values); !r.needsReview && text == r.text
  }

  /** The contact stands at a MESSAGE step with no job out that renders completely. */
  predicate Deliverable(db: Db, k: RowKey)
    requires k in db.tracks
  {
    var t, steps := db.tracks[k], StepsOf(db, k);
    var p := t.row.position;
    && 1 <= p <= |steps| && steps[p - 1].message && !Reserved(t)
    && !Templates.RenderedWith(steps[p - 1].template, ValuesOf(db, k)).needsReview
  }

  lemma EnqueuedExactly(db: Db, k: RowKey)
    requires k in db.tracks
    ensures TickOf(db, k).enqueued <==> Deliverable(db, k)
  {
    hide Templates.RenderedWith;
  }

  lemma WritesExactly(db: Db, k: RowKey, p: nat)
    requires k in db.tracks && p !in db.tracks[k].jobs
    ensures var jobs := TickOf(db, k).track.jobs;
      && (p in jobs <==> Deliverable(db, k) && p == db.tracks[k].row.position)
      && (p in jobs ==>
            && jobs[p].status == Queued && jobs[p].attempts == 0
            && jobs[p].createdAt == db.now && jobs[p].executedAt.None?
            && RendersTo(StepsOf(db, k), p, ValuesOf(db, k), jobs[p].content))
  {
    hide Templates.RenderedWith;
  }

  /** The key is in the list, and no candidate before it can be delivered. */
  predicate Reached(db: Db, keys: seq<RowKey>, k: RowKey)
    requires forall k :: k in keys ==> k in db.tracks
    decreases |keys|
  {
    keys != [] && (keys[0] == k || (!Deliverable(db, keys[0]) && Reached(db, keys[1..], k)))
  }

  lemma {:induction false} VisitedExactly(db: Db, keys: seq<RowKey>, k: RowKey)
    requires forall k :: k in keys ==> k in db.tracks
    ensures k in Visited(db, keys) <==> Reached(db, keys, k)
    decreases |keys|
  {
    hide TickOf, Deliverable;
    if keys != [] {
      EnqueuedExactly(db, keys[0]);
      VisitedExactly(db, keys[1..], k);
    }
  }

  /** The tick comes to the contact: the gates are open, its campaign is the one that was set running
      last, and it is a candidate with none before it that can be delivered. */
  predicate Comes(db: Db, c: CampaignId, gates: bool, k: RowKey)
    requires WellFormed(db)
  {
    k in db.tracks && gates && IsLatestRunning(db, c) && Reached(db, Candidates(db, c), k)
  }

  lemma ComesMeans(db: Db, c: CampaignId, gates: bool, k: RowKey)
    requires WellFormed(db)
    ensures k in TickVisits(db, c, gates) <==> Comes(db, c, gates, k)
    ensures Comes(db, c, gates, k) ==> Live(db.tracks[k].row) && Due(db.tracks[k].row, db.now)
  {
    hide Candidates, IsLatestRunning, Visited, Reached;
    if gates && IsLatestRunning(db, c) {
      VisitedExactly(db, Candidates(db, c), k);
      ReachedIsIn(db, Candidates(db, c), k);
    }
  }

  lemma {:induction false} ReachedIsIn(db: Db, keys: seq<RowKey>, k: RowKey)
    requires forall k :: k in keys ==> k in db.tracks
    ensures Reached(db, keys, k) ==> k in keys
    decreases |keys|
  {
    hide Deliverable;
    if keys != [] { ReachedIsIn(db, keys[1..], k); }
  }

  /** A tick creates a job for the contact it comes to that can be delivered, at its position, and no
      other job; its text is what the step's template renders to with the contact's values at that
      moment. */
  lemma TickWritesExactly(db: Db, c: CampaignId, gates: bool, k: RowKey, p: nat)
    requires WellFormed(db)
    ensures var db' := Tick(db, c, gates);
      && (NewJob(db, db', k, p) <==>
            && Comes(db, c, gates, k) && Deliverable(db, k)
            && p == db.tracks[k].row.position && p !in db.tracks[k].jobs)
      && (NewJob(db, db', k, p) ==>
            var job := db'.tracks[k].jobs[p];
            && job.status == Queued && job.attempts == 0 && job.createdAt == db.now && job.executedAt.None?
            && RendersTo(StepsOf(db, k), p, ValuesOf(db, k), job.content))
  {
    hide Candidates, Visited, TickOf, TickRows, Deliverable, Comes, RendersTo, IsLatestRunning, StepsOf, ValuesOf;
    ComesMeans(db, c, gates, k);
    if gates && IsLatestRunning(db, c) {
      TickRowsEffect(db, Candidates(db, c));
      if k in db.tracks && p !in db.tracks[k].jobs { WritesExactly(db, k, p); }
    }
  }

  // ---------- the text stays ----------

  /** Every event keeps the text and the creation time of every job. */
  lemma TextKept(db: Db, e: Event, k: RowKey, p: nat)
    requires WellFormed(db) && k in db.tracks && p in db.tracks[k].jobs
    ensures var db' := Apply(db, e);
      && WellFormed(db') && k in db'.tracks && p in db'.tracks[k].jobs
      && db'.tracks[k].jobs[p].content == db.tracks[k].jobs[p].content
      && db'.tracks[k].jobs[p].createdAt == db.tracks[k].jobs[p].createdAt
  {
    hide Apply, TrackNext, WellFormed, EventFor, StepsOf;
    EventActsOnTracks(db, e);
    TransitionKeepsText(StepsOf(db, k), db.now, db.tracks[k], EventFor(db, e, k), p);
  }

  lemma TransitionKeepsText(steps: seq<Step>, now: int, t: Track, e: TrackEvent, p: nat)
    requires p in t.jobs
    ensures var t' := TrackNext(steps, now, t, e);
      p in t'.jobs && t'.jobs[p].content == t.jobs[p].content && t'.jobs[p].createdAt == t.jobs[p].createdAt
  {
    hide Templates.RenderedWith, Advance;
  }

  /** No event but a tick creates a job. */
  lemma OnlyTicksWrite(db: Db, e: Event, k: RowKey, p: nat)
    requires WellFormed(db) && NewJob(db, Apply(db, e), k, p)
    ensures e.WorkerTick? && k in db.tracks
  {
    hide Apply, TrackNext, WellFormed, EventFor, StepsOf;
    EventActsOnTracks(db, e);
    NothingForNew();
    if k in db.tracks && !e.WorkerTick? {
      NotTicked(db, e, k);
      NothingWritten(StepsOf(db, k), db.now, db.tracks[k], EventFor(db, e, k));
    }
  }

  lemma NothingForNew()
    ensures NewTrack().jobs == map[]
  {
  }

  lemma NotTicked(db: Db, e: Event, k: RowKey)
    requires !e.WorkerTick?
    ensures !EventFor(db, e, k).Ticked?
  {
    hide Blank;
  }

  lemma NothingWritten(steps: seq<Step>, now: int, t: Track, e: TrackEvent)
    requires !e.Ticked?
    ensures TrackNext(steps, now, t, e).jobs.Keys == t.jobs.Keys
  {
    hide Advance;
  }

  lemma {:induction false} RunLast(db: Db, events: seq<Event>)
    requires events != []
    ensures Run(db, events) == Apply(Run(db, events[..|events| - 1]), events[|events| - 1])
    decreases |events|
  {
    hide Apply;
    if |events| > 1 {
      RunLast(Apply(db, events[0]), events[1..]);
      assert events[1..][..|events| - 2] == events[..|events| - 1][1..];
    }
  }

  lemma {:induction false} WellFormedOnRuns(db: Db, events: seq<Event>)
    requires WellFormed(db)
    ensures WellFormed(Run(db, events))
    decreases |events|
  {
    hide Apply, WellFormed;
    if events != [] {
      EventActsOnTracks(db, events[0]);
      WellFormedOnRuns(Apply(db, events[0]), events[1..]);
    }
  }

  /** The n-th event of the run is a tick at which the step at p renders to this text for this contact,
      with the values the contact had at that moment. */
  ghost predicate WrittenAt(db: Db, events: seq<Event>, n: nat, k: RowKey, p: nat, job: Job) {
    && n < |events| && events[n].WorkerTick?
    && var db1 := Run(db, events[..n]);
      job.createdAt == db1.now && RendersTo(StepsOf(db1, k), p, ValuesOf(db1, k), job.content)
  }

  lemma WrittenBefore(db: Db, events: seq<Event>, m: nat, n: nat, k: RowKey, p: nat, j1: Job, j2: Job)
    requires m <= |events| && WrittenAt(db, events[..m], n, k, p, j1)
    requires j2.content == j1.content && j2.createdAt == j1.createdAt
    ensures WrittenAt(db, events, n, k, p, j2)
  {
    hide Run, RendersTo;
    assert events[..m][..n] == events[..n];
  }

  /** In every run from empty tables, each job was created by a tick of the run, and its text is still
      what the step's template rendered to then, with the contact's values at that moment. */
  lemma {:induction false} JobsAreRendered(db: Db, events: seq<Event>, k: RowKey, p: nat) returns (n: nat)
    requires Fresh(db) && k in Run(db, events).tracks && p in Run(db, events).tracks[k].jobs
    ensures WrittenAt(db, events, n, k, p, Run(db, events).tracks[k].jobs[p])
    decreases |events|
  {
    hide Run, Apply, RendersTo, WellFormed, WrittenAt;
    n := 0;
    NoEvents(db);
    if events != [] {
      var m := |events| - 1;
      var init, e := events[..m], events[m];
      var before := Run(db, init);
      RunLast(db, events);
      FreshWellFormed(db);
      WellFormedOnRuns(db, init);
      if NewJob(before, Apply(before, e), k, p) {
        n := m;
        OnlyTicksWrite(before, e, k, p);
        TickWrites(before, e, k, p);
        WrittenNow(db, events, k, p, Run(db, events).tracks[k].jobs[p]);
      } else {
        n := JobsAreRendered(db, init, k, p);
        TextKept(before, e, k, p);
        WrittenBefore(db, events, m, n, k, p, before.tracks[k].jobs[p], Run(db, events).tracks[k].jobs[p]);
      }
    }
  }

  lemma NoEvents(db: Db)
    ensures Run(db, []) == db
  {
  }

  lemma FreshWellFormed(db: Db)
    requires Fresh(db)
    ensures WellFormed(db)
  {
  }

  lemma TickWrites(db: Db, e: Event, k: RowKey, p: nat)
    requires WellFormed(db) && e.WorkerTick? && NewJob(db, Apply(db, e), k, p)
    ensures var job := Apply(db, e).tracks[k].jobs[p];
      job.createdAt == db.now && RendersTo(StepsOf(db, k), p, ValuesOf(db, k), job.content)
  {
    hide Tick, RendersTo, WellFormed;
    TickWritesExactly(db, e.campaign, e.gates, k, p);
  }

  lemma WrittenNow(db: Db, events: seq<Event>, k: RowKey, p: nat, job: Job)
    requires events != [] && events[|events| - 1].WorkerTick?
    requires var db1 := Run(db, events[..|events| - 1]);
      job.createdAt == db1.now && RendersTo(StepsOf(db1, k), p, ValuesOf(db1, k), job.content)
    ensures WrittenAt(db, events, |events| - 1, k, p, job)
  {
    hide Run, RendersTo;
  }

  // ---------- the messages ----------

  /** What an event puts on record: a delivery its own body, or the job's text when the body is empty;
      a reply its body; anything else nothing. */
  function Recorded(db: Db, e: Event): seq<Message> {
    if Delivers(db, e) then
      [Message(e.row.contact, Outbound, if e.body == "" then db.tracks[e.row].jobs[e.position].content else e.body)]
    else if e.ReplyReported? && e.contact in db.contacts && !Blank(e.body) then
      [Message(e.contact, Inbound, e.body)]
    else []
  }

  lemma MessagesExactly(db: Db, e: Event)
    ensures Apply(db, e).messages == db.messages + Recorded(db, e)
  {
    hide Blank, ReplyTrack, SucceedTrack, FailTrack, Tick, Stage;
    match e
    case Staged(d, ids) => StageKeepsMessages(db, d, ids);
    case WorkerTick(d, g) => TickKeepsMessages(db, d, g);
    case _ =>
  }

  function AllRecorded(db: Db, events: seq<Event>): seq<Message>
    decreases |events|
  {
    if events == [] then [] else Recorded(db, events[0]) + AllRecorded(Apply(db, events[0]), events[1..])
  }

  /** The messages of a run are what its events put on record, in their order, and none is ever changed
      or lost. */
  lemma {:induction false} MessagesOnRuns(db: Db, events: seq<Event>)
    ensures Run(db, events).messages == db.messages + AllRecorded(db, events)
    decreases |events|
  {
    hide Apply, Recorded;
    if events != [] {
      MessagesExactly(db, events[0]);
      MessagesOnRuns(Apply(db, events[0]), events[1..]);
    }
  }

  /** The message went on record at the m-th event, a delivery of the contact's job at position p, and
      it is the body reported or, when that is empty, what the step rendered to at the n-th. */
  ghost predicate SentAt(db: Db, events: seq<Event>, m: nat, n: nat, msg: Message) {
    && m < |events| && events[m].SentReported? && events[m].row.contact == msg.contact
    && if events[m].body != "" then msg.content == events[m].body
       else
         && n < m && events[n].WorkerTick?
         && var db1 := Run(db, events[..n]);
           RendersTo(StepsOf(db1, events[m].row), events[m].position, ValuesOf(db1, events[m].row), msg.content)
  }

  lemma SentBefore(db: Db, events: seq<Event>, i: nat, m: nat, n: nat, msg: Message)
    requires i <= |events| && SentAt(db, events[..i], m, n, msg)
    ensures SentAt(db, events, m, n, msg)
  {
    hide Run, RendersTo;
    if n < m { assert events[..i][..n] == events[..n]; }
  }

  /** Nothing else is ever sent: from empty tables, every outbound message is the body of a delivery
      reported for that contact or, when that is empty, the text its step rendered to for the contact. */
  lemma {:induction false} OnlyRenderedIsSent(db: Db, events: seq<Event>, msg: Message) returns (m: nat, n: nat)
    requires Fresh(db) && msg in Run(db, events).messages && msg.direction == Outbound
    ensures SentAt(db, events, m, n, msg)
    decreases |events|
  {
    hide Run, Apply, SentAt, Delivers;
    m, n := 0, 0;
    NoEvents(db);
    if events != [] {
      var i := |events| - 1;
      var before, e := Run(db, events[..i]), events[i];
      RunLast(db, events);
      MessagesExactly(before, e);
      if msg in before.messages {
        m, n := OnlyRenderedIsSent(db, events[..i], msg);
        SentBefore(db, events, i, m, n, msg);
      } else {
        m := i;
        n := SentNow(db, events, msg);
      }
    }
  }

  lemma SentNow(db: Db, events: seq<Event>, msg: Message) returns (n: nat)
    requires Fresh(db) && events != []
    requires var i := |events| - 1; Delivers(Run(db, events[..i]), events[i])
    requires var i := |events| - 1; msg in Recorded(Run(db, events[..i]), events[i])
    ensures SentAt(db, events, |events| - 1, n, msg)
  {
    hide Run, RendersTo, Fresh;
    var i := |events| - 1;
    var e := events[i];
    n := 0;
    if e.body == "" {
      n := JobsAreRendered(db, events[..i], e.row, e.position);
      assert events[..i][..n] == events[..n];
    }
  }
}
