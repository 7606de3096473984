/** One contact's way through one campaign: its campaign_contacts row together with the
    message_jobs rows of that campaign and contact, and what the worker tick, the delivery
    reports and a reply do to them. */
module Cadence {
  import opened Text
  import opened Templates

  /** A row of campaign_steps; the step at position p is element p - 1. */
  datatype Step = Step(message: bool, template: string, delay: int)

  const MINUTE: int := 60_000_000  // times are microseconds

  /** delay_amount and delay_unit as the interval the cadence adds; other units add nothing. */
  function DelayOf(amount: int, unit: string): int {
    if unit == "days" then amount * 24 * 60 * MINUTE
    else if unit == "hours" then amount * 60 * MINUTE
    else if unit == "minutes" then amount * MINUTE
    else 0
  }

  /** The step type is compared with "message" under Unicode simple case folding. */
  predicate FoldsTo(c: char, lower: char) {
    LowerChar(c) == lower || (lower == 's' && c == '\U{17F}')
  }

  predicate IsMessageType(t: string) {
    |t| == 7 && FoldsTo(t[0], 'm') && FoldsTo(t[1], 'e') && FoldsTo(t[2], 's') && FoldsTo(t[3], 's')
    && FoldsTo(t[4], 'a') && FoldsTo(t[5], 'g') && FoldsTo(t[6], 'e')
  }

  function Folded(t: string): string {
    seq(|t|, i requires 0 <= i < |t| => if t[i] == '\U{17F}' then 's' else LowerChar(t[i]))
  }

  lemma MessageTypeExactly(t: string)
    ensures IsMessageType(t) <==> Folded(t) == "message"
  {
    if IsMessageType(t) { assert Folded(t) == "message"; }
    if Folded(t) == "message" {
      assert |Folded(t)| == 7 && Folded(t)[0] == 'm' && Folded(t)[1] == 'e' && Folded(t)[2] == 's';
      assert Folded(t)[3] == 's' && Folded(t)[4] == 'a' && Folded(t)[5] == 'g' && Folded(t)[6] == 'e';
    }
  }

  /** What a row of campaign_steps holds. */
  datatype StepRow = StepRow(stepType: string, template: string, amount: int, unit: string)

  function StepFromRow(row: StepRow): Step {
    Step(IsMessageType(row.stepType), row.template, DelayOf(row.amount, row.unit))
  }

  /** The campaign's rows, ordered by their positions 1..n. */
  function CadenceOf(rows: seq<StepRow>): seq<Step> {
    seq(|rows|, i requires 0 <= i < |rows| => StepFromRow(rows[i]))
  }

  datatype RowStatus = Pending | Waiting | Stopped | Completed
  datatype Reason = NoReason | MissingVariables | DeliveryFailed | StopOnReply
  datatype Row = Row(status: RowStatus, position: nat, nextAt: Option<int>, reason: Reason)
  datatype JobStatus = Queued | Sent | Failed
  datatype Job = Job(status: JobStatus, attempts: nat, content: string, createdAt: int, executedAt: Option<int>)

  /** At most one job per step: jobs are indexed by the step's position. */
  datatype Track = Track(row: Row, jobs: map<nat, Job>)

  function NewTrack(): Track {
    Track(Row(Pending, 1, None, NoReason), map[])
  }

  predicate Live(row: Row) {
    row.status == Pending || row.status == Waiting
  }

  predicate Due(row: Row, now: int) {
    row.nextAt.None? || row.nextAt.value <= now
  }

  // ---------- the transitions ----------

  datatype TickOutcome = TickOutcome(track: Track, enqueued: bool)

  /** A queued or sent job at the current position reserves the contact. */
  predicate Reserved(t: Track) {
    t.row.position in t.jobs && t.jobs[t.row.position].status != Failed
  }

  /** What one worker tick does to a candidate. */
  function TickTrack(steps: seq<Step>, values: map<string, string>, now: int, t: Track): TickOutcome {
    var p := t.row.position;
    if p < 1 || p > |steps| then
      if p <= 1 then TickOutcome(t, false)
      else TickOutcome(t.(row := t.row.(status := Completed)), false)
    else if !steps[p - 1].message then
      TickOutcome(t.(row := t.row.(position := p + 1, nextAt := Some(now + steps[p - 1].delay))), false)
    else if Reserved(t) then TickOutcome(t, false)
    else
      var r := RenderedWith(steps[p - 1].template, values);
      if r.needsReview then
        TickOutcome(t.(row := t.row.(status := Stopped, reason := MissingVariables)), false)
      else
        TickOutcome(Track(t.row.(status := Waiting),
                          if p in t.jobs then t.jobs
                          else t.jobs[p := Job(Queued, 0, r.text, now, None)]), true)
  }

  function Advance(steps: seq<Step>, now: int, row: Row): Row {
    var c := row.position;
    if 1 <= c + 1 <= |steps| then
      row.(status := Waiting, position := c + 1,
           nextAt := Some(now + if 1 <= c <= |steps| then steps[c - 1].delay else 0))
    else row.(status := Completed, nextAt := None)
  }

  /** A delivery report for the job at position p; a job already sent is left alone. */
  function SucceedTrack(steps: seq<Step>, now: int, t: Track, p: nat): Track
    requires p in t.jobs
  {
    if t.jobs[p].status == Sent then t
    else Track(Advance(steps, now, t.row),
               t.jobs[p := t.jobs[p].(status := Sent, executedAt := Some(now))])
  }

  /** A failure report for the job at position p. */
  function FailTrack(t: Track, p: nat): Track
    requires p in t.jobs
  {
    var j := t.jobs[p];
    if j.attempts + 1 >= 3 then
      Track(t.row.(status := Stopped, reason := DeliveryFailed),
            t.jobs[p := j.(status := Failed, attempts := j.attempts + 1)])
    else if j.status == Queued then
      t.(jobs := t.jobs[p := j.(attempts := j.attempts + 1)])
    else t
  }

  function ReplyTrack(t: Track): Track {
    if Live(t.row) then t.(row := t.row.(status := Stopped, reason := StopOnReply)) else t
  }

  /** The event kinds a track can see; a tick is only for live, due rows. */
  datatype TrackEvent =
    | Ticked(values: map<string, string>)
    | Succeeded(position: nat)
    | FailedAt(position: nat)
    | Replied
    | Untouched

  function TrackNext(steps: seq<Step>, now: int, t: Track, e: TrackEvent): Track {
    match e
    case Ticked(values) => if Live(t.row) && Due(t.row, now) then TickTrack(steps, values, now, t).track else t
    case Succeeded(p) => if p in t.jobs then SucceedTrack(steps, now, t, p) else t
    case FailedAt(p) => if p in t.jobs then FailTrack(t, p) else t
    case Replied => ReplyTrack(t)
    case Untouched => t
  }

  /** The one report the cadence cannot absorb: a failure for a job that is already sent and
      has two recorded failures, which turns the job back into a failed one. */
  predicate Undoes(t: Track, e: TrackEvent) {
    e.FailedAt? && e.position in t.jobs
    && t.jobs[e.position].status == Sent && t.jobs[e.position].attempts >= 2
  }

  // ---------- no message is skipped ----------

  /** Jobs stand on MESSAGE steps up to the current position; every MESSAGE step below it has
      been sent; an unsent job can only stand at the current position; a completed contact has
      been sent every MESSAGE step of a cadence that has steps. */
  predicate NoSkip(steps: seq<Step>, t: Track) {
    var c, n := t.row.position, |steps|;
    && 1 <= c <= n + 1
    && (forall p :: p in t.jobs ==> 1 <= p <= c && p <= n && steps[p - 1].message)
    && (forall p :: 1 <= p < c && steps[p - 1].message ==> p in t.jobs && t.jobs[p].status == Sent)
    && (c in t.jobs ==>
          match t.jobs[c].status
          case Queued => t.jobs[c].attempts <= 2 && t.row.status in {Waiting, Stopped}
          case Failed => t.jobs[c].attempts >= 3 && t.row.status == Stopped
          case Sent => t.row.status == Completed)
    && (t.row.status == Completed ==> n >= 1 && (c == n + 1 || (c == n && c in t.jobs && t.jobs[c].status == Sent)))
  }

  lemma NoSkipPreserved(steps: seq<Step>, now: int, t: Track, e: TrackEvent)
    requires NoSkip(steps, t) && !Undoes(t, e)
    ensures NoSkip(steps, TrackNext(steps, now, t, e))
  {
    hide RenderedWith;
  }

  // ---------- delays add up ----------

  /** The delays of the steps at positions p to q - 1. */
  function DelaySum(steps: seq<Step>, p: nat, q: nat): int
    decreases q
  {
    if q <= p then 0
    else DelaySum(steps, p, q - 1) + if 1 <= q - 1 <= |steps| then steps[q - 2].delay else 0
  }

  /** The amounts given in one unit by the rows at positions p to q - 1. */
  function AmountIn(rows: seq<StepRow>, unit: string, p: nat, q: nat): int
    decreases q
  {
    if q <= p then 0
    else
      AmountIn(rows, unit, p, q - 1)
      + if 1 <= q - 1 <= |rows| && rows[q - 2].unit == unit then rows[q - 2].amount else 0
  }

  function InUnits(days: int, hours: int, minutes: int): int {
    MINUTE * (24 * 60 * days + 60 * hours + minutes)
  }

  lemma DelayInUnits(amount: int, unit: string)
    ensures DelayOf(amount, unit)
      == InUnits(if unit == "days" then amount else 0, if unit == "hours" then amount else 0,
                 if unit == "minutes" then amount else 0)
  {
  }

  /** The delays of a stretch of the cadence are its days, hours and minutes, added up. */
  lemma {:induction false} DelaySumInUnits(rows: seq<StepRow>, p: nat, q: nat)
    ensures DelaySum(CadenceOf(rows), p, q)
      == InUnits(AmountIn(rows, "days", p, q), AmountIn(rows, "hours", p, q), AmountIn(rows, "minutes", p, q))
    decreases q
  {
    hide DelayOf, IsMessageType;
    if q > p {
      DelaySumInUnits(rows, p, q - 1);
      if 1 <= q - 1 <= |rows| { DelayInUnits(rows[q - 2].amount, rows[q - 2].unit); }
    }
  }

  predicate JobTimes(j: Job, now: int) {
    && j.createdAt <= now
    && (j.status == Sent ==> j.executedAt.Some? && j.createdAt <= j.executedAt.value <= now)
  }

  /** A later job was never enqueued before an earlier one's delivery plus the delays between;
      while the cadence goes on, neither will the next. */
  predicate DelaysRespected(steps: seq<Step>, now: int, t: Track) {
    && (forall p :: p in t.jobs ==> JobTimes(t.jobs[p], now))
    && (forall p, q :: p in t.jobs && q in t.jobs && p < q && t.jobs[p].status == Sent ==>
          t.jobs[p].executedAt.Some?
          && t.jobs[q].createdAt >= t.jobs[p].executedAt.value + DelaySum(steps, p, q))
    && (t.row.status != Completed ==>
          forall p :: p in t.jobs && p < t.row.position ==>
            t.row.nextAt.Some? && t.jobs[p].executedAt.Some?
            && t.row.nextAt.value >= t.jobs[p].executedAt.value + DelaySum(steps, p, t.row.position))
  }

  lemma DelaysSurviveClock(steps: seq<Step>, now: int, later: int, t: Track)
    requires DelaysRespected(steps, now, t) && now <= later
    ensures DelaysRespected(steps, later, t)
  {
  }

  lemma DelaySumStep(steps: seq<Step>, c: nat)
    requires 1 <= c <= |steps|
    ensures forall p: nat :: p <= c ==> DelaySum(steps, p, c + 1) == DelaySum(steps, p, c) + steps[c - 1].delay
  {
  }

  lemma DelaysAfterTick(steps: seq<Step>, values: map<string, string>, now: int, t: Track)
    requires NoSkip(steps, t) && DelaysRespected(steps, now, t) && Live(t.row) && Due(t.row, now)
    ensures DelaysRespected(steps, now, TickTrack(steps, values, now, t).track)
  {
    hide RenderedWith, DelaySum;
    var c := t.row.position;
    if c <= |steps| && !steps[c - 1].message {
      DelaySumStep(steps, c);
    }
  }

  lemma DelaysAfterSuccess(steps: seq<Step>, now: int, t: Track, p: nat)
    requires NoSkip(steps, t) && DelaysRespected(steps, now, t) && p in t.jobs
    ensures DelaysRespected(steps, now, SucceedTrack(steps, now, t, p))
  {
    hide DelaySum;
    var c := t.row.position;
    if t.jobs[p].status != Sent {
      DelaySumStep(steps, c);
      assert DelaySum(steps, c, c) == 0 by { DelaySumEmpty(steps, c); }
    }
  }

  lemma DelaySumEmpty(steps: seq<Step>, c: nat)
    ensures DelaySum(steps, c, c) == 0
  {
  }

  lemma DelaysPreserved(steps: seq<Step>, now: int, t: Track, e: TrackEvent)
    requires NoSkip(steps, t) && DelaysRespected(steps, now, t) && !Undoes(t, e)
    ensures DelaysRespected(steps, now, TrackNext(steps, now, t, e))
  {
    hide RenderedWith, DelaySum, TickTrack, SucceedTrack;
    match e
    case Ticked(values) =>
      if Live(t.row) && Due(t.row, now) { DelaysAfterTick(steps, values, now, t); }
    case Succeeded(p) =>
      if p in t.jobs { DelaysAfterSuccess(steps, now, t, p); }
    case FailedAt(_) =>
    case Replied =>
    case Untouched =>
  }

  // ---------- cadences end ----------

  /** Counts what can still happen to a contact: seven per position left, and inside the
      current position the job's remaining reports and the row's liveness. */
  function Rank(steps: seq<Step>, t: Track): nat
    requires NoSkip(steps, t)
  {
    var c := t.row.position;
    var job :=
      if c !in t.jobs then 5
      else match t.jobs[c].status
        case Queued => 4 - t.jobs[c].attempts
        case Failed => 1
        case Sent => 0;
    7 * (|steps| + 1 - c)
    + if t.row.status == Completed then 0 else job + if Live(t.row) then 1 else 0
  }

  /** A failure report for a job that is no longer queued, and that is not ignored. */
  predicate LateFailure(t: Track, e: TrackEvent) {
    e.FailedAt? && e.position in t.jobs
    && (t.jobs[e.position].status == Failed || Undoes(t, e))
  }

  /** Whatever changes a contact's track brings it nearer to its end. */
  lemma RankFalls(steps: seq<Step>, now: int, t: Track, e: TrackEvent)
    requires NoSkip(steps, t) && !LateFailure(t, e)
    ensures NoSkip(steps, TrackNext(steps, now, t, e))
    ensures TrackNext(steps, now, t, e) != t ==> Rank(steps, TrackNext(steps, now, t, e)) < Rank(steps, t)
  {
    hide RenderedWith;
    NoSkipPreserved(steps, now, t, e);
  }

  // ---------- stop on reply ----------

  function SentPositions(t: Track): set<nat> {
    set p | p in t.jobs && t.jobs[p].status == Sent
  }

  /** Out of the worker's reach, with nothing waiting to be delivered. */
  predicate Quiet(t: Track) {
    !Live(t.row) && forall p :: p in t.jobs ==> t.jobs[p].status != Queued
  }

  /** A late success for a job whose delivery was given up. */
  predicate Revives(t: Track, e: TrackEvent) {
    e.Succeeded? && e.position in t.jobs && t.jobs[e.position].status == Failed
  }

  /** A quiet contact stays quiet, gets no job and no delivery, exactly until a success is
      reported for a failed job. */
  lemma QuietUntilRevived(steps: seq<Step>, now: int, t: Track, e: TrackEvent)
    requires Quiet(t)
    ensures var t' := TrackNext(steps, now, t, e);
      (Quiet(t') && t'.jobs.Keys == t.jobs.Keys && SentPositions(t') <= SentPositions(t))
      <==> !Revives(t, e)
  {
    hide TickTrack;
    var t' := TrackNext(steps, now, t, e);
    if Revives(t, e) {
      assert e.position in SentPositions(t') && e.position !in SentPositions(t);
    }
  }

  /** A sent job with fewer than two recorded failures keeps its row whatever is reported. */
  lemma SentStaysSent(steps: seq<Step>, now: int, t: Track, e: TrackEvent, p: nat)
    requires p in t.jobs && t.jobs[p].status == Sent && t.jobs[p].attempts < 2
    ensures var t' := TrackNext(steps, now, t, e); p in t'.jobs && t'.jobs[p] == t.jobs[p]
  {
    hide RenderedWith;
  }
}
