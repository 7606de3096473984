/** Which job the extension is given: the oldest one queued in a running campaign, and none of a
    campaign that is paused. */
module DeliveryOrder {
  import opened Cadence
  import opened Outreach
  import opened OutreachRuns
  import opened OutreachSteps
  import opened Dispatch
  import opened Delivery
  import opened DeliveryRuns

  function CreatedAt(db: Db, j: JobRef): int
    requires QueuedIn(db, j)
  {
    db.tracks[j.row].jobs[j.position].createdAt
  }

  /** Waiting to be delivered: queued, in a campaign that is running. */
  predicate Waits(db: Db, j: JobRef) {
    QueuedIn(db, j) && j.row.campaign in db.campaigns && db.campaigns[j.row.campaign].running
  }

  function AllWaiting(db: Db): set<JobRef> {
    set k, p | k in db.tracks && p in db.tracks[k].jobs && Waits(db, JobRef(k, p)) :: JobRef(k, p)
  }

  lemma {:induction false} OldestOf(db: Db, s: set<JobRef>) returns (j: JobRef)
    requires s != {} && forall i :: i in s ==> QueuedIn(db, i)
    ensures j in s && forall i :: i in s ==> CreatedAt(db, j) <= CreatedAt(db, i)
    decreases s
  {
    hide QueuedIn, CreatedAt;
    j :| j in s;
    if s != {j} {
      var i := OldestOf(db, s - {j});
      if CreatedAt(db, i) < CreatedAt(db, j) { j := i; }
    }
  }

  /** The poll answers with a job exactly when one waits, and then with one no other is older than. */
  lemma PollExactly(db: Db)
    ensures (exists j :: NextPending(db, j)) <==> exists j :: Waits(db, j)
    ensures forall j :: NextPending(db, j) <==>
      Waits(db, j) && forall i :: Waits(db, i) ==> CreatedAt(db, j) <= CreatedAt(db, i)
  {
    forall j ensures NextPending(db, j) <==>
      Waits(db, j) && forall i :: Waits(db, i) ==> CreatedAt(db, j) <= CreatedAt(db, i)
    {
      PendingIsOldest(db, j);
    }
    if w :| Waits(db, w) {
      assert w == JobRef(w.row, w.position) && w in AllWaiting(db);
      hide NextPending, Waits;
      AllWaitingAre(db);
      var j := OldestOf(db, AllWaiting(db));
      assert NextPending(db, j);
    }
  }

  lemma AllWaitingAre(db: Db)
    ensures forall i :: i in AllWaiting(db) <==> Waits(db, i)
    ensures forall i :: Waits(db, i) ==> QueuedIn(db, i)
  {
    forall i | Waits(db, i) ensures i in AllWaiting(db) { assert i == JobRef(i.row, i.position); }
  }

  lemma PendingIsOldest(db: Db, j: JobRef)
    ensures NextPending(db, j) <==>
      Waits(db, j) && forall i :: Waits(db, i) ==> CreatedAt(db, j) <= CreatedAt(db, i)
  {
    if NextPending(db, j) {
      forall i | Waits(db, i) ensures CreatedAt(db, j) <= CreatedAt(db, i) {
        assert QueuedIn(db, JobRef(i.row, i.position));
      }
    }
    if Waits(db, j) && forall i :: Waits(db, i) ==> CreatedAt(db, j) <= CreatedAt(db, i) {
      forall k, p | k in db.tracks && p in db.tracks[k].jobs && QueuedIn(db, JobRef(k, p))
        && k.campaign in db.campaigns && db.campaigns[k.campaign].running
        ensures db.tracks[j.row].jobs[j.position].createdAt <= db.tracks[k].jobs[p].createdAt
      {
        assert Waits(db, JobRef(k, p));
      }
    }
  }

  /** No step of the whole gives a cycle a job while an older one waits, or a job of a paused campaign. */
  lemma FetchedInOrder(s: Sys, a: Action, p: nat)
    requires p in Act(s, a).worker.cycles && Act(s, a).worker.cycles[p].Working?
    requires p in s.worker.cycles && !s.worker.cycles[p].Working?
    ensures p in Act(s, a).jobs
    ensures var j := Act(s, a).jobs[p];
      Waits(s.db, j) && forall i :: Waits(s.db, i) ==> CreatedAt(s.db, j) <= CreatedAt(s.db, i)
  {
    hide Apply, NextPending, Waits;
    if a.JobFetched? { PendingIsOldest(s.db, a.job); }
  }

  predicate NoRestartAction(actions: seq<Action>, c: CampaignId) {
    forall i :: 0 <= i < |actions| ==> actions[i] != Backend(RunningSet(c, true))
  }

  predicate FetchesFrom(s: Sys, a: Action, c: CampaignId) {
    Fetches(s, a) && a.job.row.campaign == c
  }

  predicate NoFetchFrom(s: Sys, actions: seq<Action>, c: CampaignId)
    decreases |actions|
  {
    actions == [] || (!FetchesFrom(s, actions[0], c) && NoFetchFrom(Act(s, actions[0]), actions[1..], c))
  }

  lemma PausedAct(s: Sys, a: Action, c: CampaignId)
    requires Paused(s.db, c) && a != Backend(RunningSet(c, true))
    ensures Paused(Act(s, a).db, c) && !FetchesFrom(s, a, c)
  {
    hide Apply, Invoke, Serve, Gate, Finish, Restart;
    match a
    case Backend(e) => if !IsReport(e) { PausedStays(s.db, e, c); }
    case ReportDelivered(p) => if p in s.wire { PausedStays(s.db, EventOf(s.wire[p]), c); }
    case _ =>
  }

  /** From the moment a campaign is paused until it is set running again, in whatever the whole does, no
      job of it is fetched; only what was fetched before can still be reported. */
  lemma {:induction false} PausedIsNotFetched(s: Sys, actions: seq<Action>, c: CampaignId)
    requires Paused(s.db, c) && NoRestartAction(actions, c)
    ensures NoFetchFrom(s, actions, c)
    decreases |actions|
  {
    hide Act, Paused, FetchesFrom;
    if actions != [] {
      PausedAct(s, actions[0], c);
      PausedIsNotFetched(Act(s, actions[0]), actions[1..], c);
    }
  }
}
