/** The outreach pipeline of one organisation as a value: its tables and what each handler
    and each worker tick makes of them. */
module Outreach {
  import opened Text
  import opened Cadence
  import Templates

  type CampaignId = nat
  type ContactId = nat

  datatype RowKey = RowKey(campaign: CampaignId, contact: ContactId)
  datatype Campaign = Campaign(running: bool, updatedAt: int, steps: seq<Step>)
  datatype Direction = Outbound | Inbound
  datatype Message = Message(contact: ContactId, direction: Direction, content: string)

  datatype Db = Db(
    now: int,
    campaigns: map<CampaignId, Campaign>,
    contacts: map<ContactId, map<string, string>>,  // each contact's template variables
    tracks: map<RowKey, Track>,
    order: seq<RowKey>,                             // campaign_contacts by created_at
    messages: seq<Message>)

  function StepsOf(db: Db, k: RowKey): seq<Step> {
    if k.campaign in db.campaigns then db.campaigns[k.campaign].steps else []
  }

  function ValuesOf(db: Db, k: RowKey): map<string, string> {
    if k.contact in db.contacts then db.contacts[k.contact] else map[]
  }

  // ---------- the handlers ----------

  function StageOne(db: Db, c: CampaignId, id: ContactId): Db {
    var k := RowKey(c, id);
    if k in db.tracks then db
    else db.(tracks := db.tracks[k := NewTrack()], order := db.order + [k])
  }

  function StageAll(db: Db, c: CampaignId, ids: seq<ContactId>): Db
    decreases |ids|
  {
    if ids == [] then db else StageAll(StageOne(db, c, ids[0]), c, ids[1..])
  }

  /** An unknown campaign or contact breaks a foreign key and rolls the transaction back. */
  function Stage(db: Db, c: CampaignId, ids: seq<ContactId>): Db {
    if c !in db.campaigns || exists id :: id in ids && id !in db.contacts then db
    else StageAll(db, c, ids)
  }

  function SetRunning(db: Db, c: CampaignId, running: bool): Db {
    if c !in db.campaigns then db
    else db.(campaigns := db.campaigns[c := db.campaigns[c].(running := running, updatedAt := db.now)])
  }

  predicate IsLatestRunning(db: Db, c: CampaignId) {
    && c in db.campaigns && db.campaigns[c].running
    && forall d :: d in db.campaigns && db.campaigns[d].running ==>
         db.campaigns[d].updatedAt <= db.campaigns[c].updatedAt
  }

  predicate Eligible(db: Db, c: CampaignId, k: RowKey) {
    k in db.tracks && k.campaign == c && Live(db.tracks[k].row) && Due(db.tracks[k].row, db.now)
  }

  function Filtered(db: Db, c: CampaignId, keys: seq<RowKey>): (r: seq<RowKey>)
    ensures forall k :: k in r <==> k in keys && Eligible(db, c, k)
    ensures NoDup(keys) ==> NoDup(r)
  {
    if keys == [] then []
    else
      var rest := Filtered(db, c, keys[1..]);
      assert forall k :: k in keys <==> k == keys[0] || k in keys[1..];
      if Eligible(db, c, keys[0]) then [keys[0]] + rest else rest
  }

  predicate NoDup<T(==)>(s: seq<T>) {
    forall i, j :: 0 <= i < j < |s| ==> s[i] != s[j]
  }

  const CANDIDATES: nat := 10

  /** The ten oldest live rows of the campaign whose time has come. */
  function Candidates(db: Db, c: CampaignId): (r: seq<RowKey>)
    ensures forall k :: k in r ==> k in db.order && Eligible(db, c, k)
    ensures NoDup(db.order) ==> NoDup(r)
    ensures |r| <= CANDIDATES
  {
    var all := Filtered(db, c, db.order);
    if |all| <= CANDIDATES then all else all[..CANDIDATES]
  }

  /** Where a key stands in the list. */
  function Place(keys: seq<RowKey>, k: RowKey): nat
    requires k in keys
  {
    if keys[0] == k then 0 else 1 + Place(keys[1..], k)
  }

  lemma PlaceOfFirst(keys: seq<RowKey>)
    requires keys != []
    ensures Place(keys, keys[0]) == 0
  {
  }

  lemma PlaceOfLater(keys: seq<RowKey>, k: RowKey)
    requires keys != [] && keys[0] !in keys[1..] && k in keys[1..]
    ensures k in keys && Place(keys, k) == 1 + Place(keys[1..], k)
  {
    assert keys == [keys[0]] + keys[1..];
  }

  lemma {:induction false} FilteredInOrder(db: Db, c: CampaignId, keys: seq<RowKey>, i: nat, j: nat)
    requires NoDup(keys) && i < j < |Filtered(db, c, keys)|
    ensures var f := Filtered(db, c, keys); Place(keys, f[i]) < Place(keys, f[j])
    decreases |keys|
  {
    hide Eligible, Place;
    assert forall i :: 0 <= i < |keys[1..]| ==> keys[1..][i] == keys[i + 1];
    assert keys[0] !in keys[1..];
    var f, rest := Filtered(db, c, keys), Filtered(db, c, keys[1..]);
    var d := if Eligible(db, c, keys[0]) then 1 else 0;
    assert f[j] == rest[j - d];
    PlaceOfLater(keys, rest[j - d]);
    if i < d {
      PlaceOfFirst(keys);
    } else {
      PlaceOfLater(keys, rest[i - d]);
      FilteredInOrder(db, c, keys[1..], i - d, j - d);
    }
  }

  /** The candidates are the first ten eligible rows in creation order: they come in that order, and
      an eligible row is left out only when there are ten and every one of them is older. */
  lemma CandidatesExactly(db: Db, c: CampaignId)
    requires NoDup(db.order)
    ensures var r := Candidates(db, c);
      && (forall i, j :: 0 <= i < j < |r| ==> Place(db.order, r[i]) < Place(db.order, r[j]))
      && (forall k :: k in r ==> k in db.order && Eligible(db, c, k))
      && (forall k :: k in db.order && Eligible(db, c, k) && k !in r ==>
            |r| == CANDIDATES && forall j :: j in r ==> Place(db.order, j) < Place(db.order, k))
  {
    hide Eligible, Filtered, Place;
    var f, r := Filtered(db, c, db.order), Candidates(db, c);
    assert forall i :: 0 <= i < |r| ==> r[i] == f[i];
    forall i, j | 0 <= i < j < |r| ensures Place(db.order, r[i]) < Place(db.order, r[j]) {
      FilteredInOrder(db, c, db.order, i, j);
    }
    forall k, j | k in db.order && Eligible(db, c, k) && k !in r && j in r
      ensures |r| == CANDIDATES && Place(db.order, j) < Place(db.order, k)
    {
      var m :| 0 <= m < |f| && f[m] == k;
      var l :| 0 <= l < |r| && r[l] == j;
      assert m >= CANDIDATES;
      FilteredInOrder(db, c, db.order, l, m);
    }
    forall k | k in db.order && Eligible(db, c, k) && k !in r ensures |r| == CANDIDATES {
      var m :| 0 <= m < |f| && f[m] == k;
    }
  }

  function TickOf(db: Db, k: RowKey): TickOutcome
    requires k in db.tracks
  {
    TickTrack(StepsOf(db, k), ValuesOf(db, k), db.now, db.tracks[k])
  }

  /** Candidates are handled in turn until one of them gets a job. */
  function TickRows(db: Db, keys: seq<RowKey>): Db
    requires forall k :: k in keys ==> k in db.tracks
    decreases |keys|
  {
    if keys == [] then db
    else
      var out := TickOf(db, keys[0]);
      var next := db.(tracks := db.tracks[keys[0] := out.track]);
      if out.enqueued then next else TickRows(next, keys[1..])
  }

  /** `gates` stands for the kill switch, a live device, the time window and the rate limit;
      `c` for the campaign the query returns. */
  function Tick(db: Db, c: CampaignId, gates: bool): Db {
    if gates && IsLatestRunning(db, c) then TickRows(db, Candidates(db, c)) else db
  }

  function ReportSent(db: Db, k: RowKey, p: nat, body: string): Db {
    if k !in db.tracks || p !in db.tracks[k].jobs || db.tracks[k].jobs[p].status == Sent then db
    else
      var content := if body != "" then body else db.tracks[k].jobs[p].content;
      db.(tracks := db.tracks[k := SucceedTrack(StepsOf(db, k), db.now, db.tracks[k], p)],
          messages := db.messages + [Message(k.contact, Outbound, content)])
  }

  function ReportFailure(db: Db, k: RowKey, p: nat): Db {
    if k !in db.tracks || p !in db.tracks[k].jobs then db
    else db.(tracks := db.tracks[k := FailTrack(db.tracks[k], p)])
  }

  function Reply(db: Db, contact: ContactId, body: string): Db {
    if Blank(body) || contact !in db.contacts then db
    else
      db.(tracks := map k | k in db.tracks ::
            if k.contact == contact then ReplyTrack(db.tracks[k]) else db.tracks[k],
          messages := db.messages + [Message(contact, Inbound, body)])
  }

  // ---------- runs ----------

  datatype Event =
    | Elapse(micros: nat)
    | EditContact(contact: ContactId, values: map<string, string>)
    | Staged(campaign: CampaignId, contacts: seq<ContactId>)
    | RunningSet(campaign: CampaignId, running: bool)
    | WorkerTick(campaign: CampaignId, gates: bool)
    | SentReported(row: RowKey, position: nat, body: string)
    | FailureReported(row: RowKey, position: nat)
    | ReplyReported(contact: ContactId, body: string)

  function Apply(db: Db, e: Event): Db {
    match e
    case Elapse(d) => db.(now := db.now + d)
    case EditContact(c, v) => db.(contacts := db.contacts[c := v])
    case Staged(c, ids) => Stage(db, c, ids)
    case RunningSet(c, r) => SetRunning(db, c, r)
    case WorkerTick(c, g) => Tick(db, c, g)
    case SentReported(k, p, body) => ReportSent(db, k, p, body)
    case FailureReported(k, p) => ReportFailure(db, k, p)
    case ReplyReported(c, body) => Reply(db, c, body)
  }

  function Run(db: Db, events: seq<Event>): Db
    decreases |events|
  {
    if events == [] then db else Run(Apply(db, events[0]), events[1..])
  }

  // ---------- every event acts on each track by one of its transitions ----------

  ghost predicate WellFormed(db: Db) {
    && NoDup(db.order)
    && (forall k :: k in db.order <==> k in db.tracks)
    && (forall k :: k in db.tracks ==> k.campaign in db.campaigns && k.contact in db.contacts)
  }

  function Visited(db: Db, keys: seq<RowKey>): set<RowKey>
    requires forall k :: k in keys ==> k in db.tracks
  {
    if keys == [] then {}
    else {keys[0]} + if TickOf(db, keys[0]).enqueued then {} else Visited(db, keys[1..])
  }

  function TickVisits(db: Db, c: CampaignId, gates: bool): set<RowKey> {
    if gates && IsLatestRunning(db, c) then Visited(db, Candidates(db, c)) else {}
  }

  function EventFor(db: Db, e: Event, k: RowKey): TrackEvent {
    match e
    case WorkerTick(c, g) => if k in TickVisits(db, c, g) then Ticked(ValuesOf(db, k)) else Untouched
    case SentReported(r, p, _) => if r == k then Succeeded(p) else Untouched
    case FailureReported(r, p) => if r == k then FailedAt(p) else Untouched
    case ReplyReported(c, body) => if c == k.contact && c in db.contacts && !Blank(body) then Replied else Untouched
    case _ => Untouched
  }

  lemma VisitedFrame(db: Db, db': Db, keys: seq<RowKey>)
    requires forall k :: k in keys ==> k in db.tracks && k in db'.tracks && db'.tracks[k] == db.tracks[k]
    requires db' == db.(tracks := db'.tracks)
    ensures Visited(db', keys) == Visited(db, keys)
  {
    hide TickTrack;
  }

  lemma {:induction false} TickRowsEffect(db: Db, keys: seq<RowKey>)
    requires NoDup(keys) && forall k :: k in keys ==> k in db.tracks
    ensures var db' := TickRows(db, keys);
      && db' == db.(tracks := db'.tracks) && db'.tracks.Keys == db.tracks.Keys
      && forall k :: k in db.tracks ==>
           db'.tracks[k] == if k in Visited(db, keys) then TickOf(db, k).track else db.tracks[k]
    ensures Visited(db, keys) <= set k | k in keys
    decreases |keys|
  {
    hide TickTrack;
    if keys != [] {
      var out := TickOf(db, keys[0]);
      var next := db.(tracks := db.tracks[keys[0] := out.track]);
      if !out.enqueued {
        assert forall i :: 0 <= i < |keys[1..]| ==> keys[1..][i] == keys[i + 1];
        VisitedFrame(db, next, keys[1..]);
        TickRowsEffect(next, keys[1..]);
        assert keys[0] !in keys[1..];
      }
    }
  }

  lemma {:induction false} StageAllEffect(db: Db, c: CampaignId, ids: seq<ContactId>)
    requires WellFormed(db) && c in db.campaigns && forall id :: id in ids ==> id in db.contacts
    ensures var db' := StageAll(db, c, ids);
      && WellFormed(db') && db' == db.(tracks := db'.tracks, order := db'.order)
      && (forall k :: k in db.tracks ==> k in db'.tracks && db'.tracks[k] == db.tracks[k])
      && (forall k :: k in db'.tracks && k !in db.tracks ==>
            db'.tracks[k] == NewTrack() && k.campaign == c && k.contact in ids)
      && (forall id :: id in ids ==> RowKey(c, id) in db'.tracks)
    decreases |ids|
  {
    if ids != [] {
      var next := StageOne(db, c, ids[0]);
      assert ids[0] in ids && forall id :: id in ids[1..] ==> id in ids;
      StageAllEffect(next, c, ids[1..]);
      assert ids == [ids[0]] + ids[1..];
    }
  }

  /** One event acts on every existing contact by exactly one transition of its track, at the
      event's clock; new contacts start afresh; nothing else about the tracks changes. */
  ghost predicate ActsOnTracks(db: Db, e: Event, db': Db) {
    && WellFormed(db')
    && db'.now == db.now + (if e.Elapse? then e.micros else 0)
    && (forall k :: StepsOf(db', k) == StepsOf(db, k))
    && (forall k :: k in db.tracks ==>
          k in db'.tracks && db'.tracks[k] == TrackNext(StepsOf(db, k), db.now, db.tracks[k], EventFor(db, e, k)))
    && (forall k :: k in db'.tracks && k !in db.tracks ==>
          db'.tracks[k] == NewTrack() && e.Staged? && k.campaign == e.campaign && k.contact in e.contacts)
  }

  lemma TickActs(db: Db, e: Event)
    requires WellFormed(db) && e.WorkerTick?
    ensures ActsOnTracks(db, e, Apply(db, e))
  {
    hide TickTrack, Candidates, Visited, TickRows;
    if e.gates && IsLatestRunning(db, e.campaign) {
      TickRowsEffect(db, Candidates(db, e.campaign));
    }
  }

  lemma StageActs(db: Db, e: Event)
    requires WellFormed(db) && e.Staged?
    ensures ActsOnTracks(db, e, Apply(db, e))
  {
    hide StageAll;
    if e.campaign in db.campaigns && forall id :: id in e.contacts ==> id in db.contacts {
      StageAllEffect(db, e.campaign, e.contacts);
    }
  }

  lemma SentReportActs(db: Db, e: Event)
    requires WellFormed(db) && e.SentReported?
    ensures ActsOnTracks(db, e, Apply(db, e))
  {
    hide Advance;
  }

  lemma FailureReportActs(db: Db, e: Event)
    requires WellFormed(db) && e.FailureReported?
    ensures ActsOnTracks(db, e, Apply(db, e))
  {
    hide FailTrack;
  }

  lemma ReplyActs(db: Db, e: Event)
    requires WellFormed(db) && e.ReplyReported?
    ensures ActsOnTracks(db, e, Apply(db, e))
  {
    hide ReplyTrack, Blank;
  }

  lemma OthersAct(db: Db, e: Event)
    requires WellFormed(db) && (e.Elapse? || e.EditContact?)
    ensures ActsOnTracks(db, e, Apply(db, e))
  {
  }

  lemma RunningSetActs(db: Db, e: Event)
    requires WellFormed(db) && e.RunningSet?
    ensures ActsOnTracks(db, e, Apply(db, e))
  {
  }

  lemma EventActsOnTracks(db: Db, e: Event)
    requires WellFormed(db)
    ensures ActsOnTracks(db, e, Apply(db, e))
  {
    hide *;
    match e
    case Staged(_, _) => StageActs(db, e);
    case WorkerTick(_, _) => TickActs(db, e);
    case SentReported(_, _, _) => SentReportActs(db, e);
    case FailureReported(_, _) => FailureReportActs(db, e);
    case ReplyReported(_, _) => ReplyActs(db, e);
    case Elapse(_) => OthersAct(db, e);
    case EditContact(_, _) => OthersAct(db, e);
    case RunningSet(_, _) => RunningSetActs(db, e);
  }
}
