/** The HTTP rate limit: one Redis counter for each key and aligned window, created by INCR and
    given a lifetime by EXPIRE. Times are microseconds since the Unix epoch. */
module HttpLimiter {
  import opened Text

  const SECOND: nat := 1_000_000

  datatype Bucket = Bucket(limit: nat, seconds: nat)

  /** The counter's name: the request's key and the number of its window. */
  datatype Slot = Slot(key: string, index: nat)
  datatype Counter = Counter(count: nat, expireAt: Option<nat>)

  /** What Redis is asked, in the order it acts.
      - A request: `lost` attempts at its INCR are applied without the client getting an answer, before
        the last one is answered, which applies it, or the client gives up; EXPIRE is then applied or not.
      - An INCR or an EXPIRE of a request at `built`, applied when its client no longer waits for it.
      - A counter discarded by Redis on its own once its lifetime is over. */
  datatype Event =
    | Request(key: string, now: nat, lost: nat, answered: bool, expireOk: bool)
    | LateIncr(key: string, built: nat, now: nat)
    | LateExpire(key: string, built: nat, now: nat)
    | Purge(slot: Slot, now: nat)

  function Span(b: Bucket): nat {
    b.seconds * SECOND
  }

  function SlotOf(b: Bucket, key: string, now: nat): Slot
    requires b.seconds > 0
  {
    Slot(key, now / SECOND / b.seconds)
  }

  predicate Live(c: map<Slot, Counter>, slot: Slot, now: nat) {
    slot in c && (c[slot].expireAt.None? || now < c[slot].expireAt.value)
  }

  /** INCR's answer: an absent or expired counter counts from zero. */
  function CountAfter(c: map<Slot, Counter>, slot: Slot, now: nat): nat {
    (if Live(c, slot, now) then c[slot].count else 0) + 1
  }

  function Incremented(c: map<Slot, Counter>, slot: Slot, now: nat): map<Slot, Counter> {
    c[slot := Counter(CountAfter(c, slot, now), if Live(c, slot, now) then c[slot].expireAt else None)]
  }

  function IncrementedTimes(c: map<Slot, Counter>, slot: Slot, now: nat, n: nat): map<Slot, Counter> {
    if n == 0 then c else Incremented(IncrementedTimes(c, slot, now, n - 1), slot, now)
  }

  /** EXPIRE does nothing to a counter that is not there. */
  function GivenLifetime(c: map<Slot, Counter>, slot: Slot, now: nat, span: nat): map<Slot, Counter> {
    if Live(c, slot, now) then c[slot := c[slot].(expireAt := Some(now + span))] else c
  }

  function Step(c: map<Slot, Counter>, b: Bucket, e: Event): map<Slot, Counter>
    requires b.seconds > 0
  {
    match e
    case Purge(slot, now) => if Live(c, slot, now) then c else c - {slot}
    case LateIncr(key, built, now) => Incremented(c, SlotOf(b, key, built), now)
    case LateExpire(key, built, now) => GivenLifetime(c, SlotOf(b, key, built), now, Span(b))
    case Request(key, now, lost, answered, expireOk) =>
      var slot := SlotOf(b, key, now);
      var d := IncrementedTimes(c, slot, now, lost);
      if !answered then d
      else
        var counted := Incremented(d, slot, now);
        if CountAfter(d, slot, now) == 1 && expireOk then GivenLifetime(counted, slot, now, Span(b)) else counted
  }

  function Run(b: Bucket, events: seq<Event>): map<Slot, Counter>
    requires b.seconds > 0
  {
    if events == [] then map[] else Step(Run(b, events[..|events| - 1]), b, events[|events| - 1])
  }

  /** The count a request's INCR is answered with, after the attempts that went unanswered. */
  function Answer(c: map<Slot, Counter>, b: Bucket, e: Event): nat
    requires b.seconds > 0 && e.Request?
  {
    var slot := SlotOf(b, e.key, e.now);
    CountAfter(IncrementedTimes(c, slot, e.now, e.lost), slot, e.now)
  }

  /** Whether the i-th event of the run is a request that goes through. */
  predicate Admitted(b: Bucket, events: seq<Event>, i: nat)
    requires b.seconds > 0 && i < |events|
  {
    var e := events[i];
    e.Request? && (!e.answered || Answer(Run(b, events[..i]), b, e) <= b.limit)
  }

  // ---------- the plain count the counters stand for ----------

  predicate Answered(b: Bucket, e: Event, slot: Slot)
    requires b.seconds > 0
  {
    e.Request? && e.answered && SlotOf(b, e.key, e.now) == slot
  }

  /** The INCRs of a slot that an event applies without anybody being answered. */
  function LostIn(b: Bucket, e: Event, slot: Slot): nat
    requires b.seconds > 0
  {
    match e
    case Request(key, now, lost, _, _) => if SlotOf(b, key, now) == slot then lost else 0
    case LateIncr(key, built, _) => if SlotOf(b, key, built) == slot then 1 else 0
    case LateExpire(_, _, _) => 0
    case Purge(_, _) => 0
  }

  function Lost(b: Bucket, events: seq<Event>, slot: Slot): nat
    requires b.seconds > 0
  {
    if events == [] then 0
    else Lost(b, events[..|events| - 1], slot) + LostIn(b, events[|events| - 1], slot)
  }

  /** How many requests of this key and window were answered. */
  function AnsweredCount(b: Bucket, events: seq<Event>, slot: Slot): nat
    requires b.seconds > 0
  {
    if events == [] then 0
    else
      AnsweredCount(b, events[..|events| - 1], slot) + if Answered(b, events[|events| - 1], slot) then 1 else 0
  }

  /** How many INCRs of this key and window Redis has applied. */
  function Seen(b: Bucket, events: seq<Event>, slot: Slot): nat
    requires b.seconds > 0
  {
    AnsweredCount(b, events, slot) + Lost(b, events, slot)
  }

  /** Redis acts in the order of time, and on no request before it is made. */
  predicate Chronological(events: seq<Event>) {
    && (forall i, j :: 0 <= i < j < |events| ==> events[i].now <= events[j].now)
    && (forall i :: 0 <= i < |events| && (events[i].LateIncr? || events[i].LateExpire?) ==>
          events[i].built <= events[i].now)
  }

  /** The first moment after the window. */
  function End(b: Bucket, slot: Slot): nat {
    (slot.index + 1) * Span(b)
  }

  lemma WindowHolds(b: Bucket, key: string, now: nat)
    requires b.seconds > 0
    ensures var slot := SlotOf(b, key, now);
      slot.index * Span(b) <= now < End(b, slot) <= now + Span(b)
  {
    var s := now / SECOND;
    var i := s / b.seconds;
    assert i * b.seconds <= s < i * b.seconds + b.seconds;
    assert i * Span(b) == i * b.seconds * SECOND;
    assert (i + 1) * Span(b) == i * Span(b) + Span(b);
  }

  /** Until its window is over, a counter holds the number of INCRs seen and outlives the window. */
  predicate Faithful(b: Bucket, c: map<Slot, Counter>, slot: Slot, seen: nat) {
    if slot in c then
      c[slot].count == seen >= 1 && (c[slot].expireAt.Some? ==> End(b, slot) <= c[slot].expireAt.value)
    else seen == 0
  }

  lemma IncrFaithful(b: Bucket, c: map<Slot, Counter>, slot: Slot, seen: nat, other: Slot, now: nat)
    requires Faithful(b, c, slot, seen) && now < End(b, slot)
    ensures Faithful(b, Incremented(c, other, now), slot, seen + if other == slot then 1 else 0)
    ensures CountAfter(c, slot, now) == seen + 1
  {
    hide End;
  }

  lemma {:induction false} TimesFaithful(b: Bucket, c: map<Slot, Counter>, slot: Slot, seen: nat, other: Slot,
                                         now: nat, n: nat)
    requires Faithful(b, c, slot, seen) && now < End(b, slot)
    ensures Faithful(b, IncrementedTimes(c, other, now, n), slot, seen + if other == slot then n else 0)
  {
    hide Faithful, Incremented, End;
    if n > 0 {
      TimesFaithful(b, c, slot, seen, other, now, n - 1);
      IncrFaithful(b, IncrementedTimes(c, other, now, n - 1), slot,
                   seen + if other == slot then n - 1 else 0, other, now);
    }
  }

  lemma LifetimeFaithful(b: Bucket, c: map<Slot, Counter>, slot: Slot, seen: nat, key: string, built: nat, now: nat)
    requires b.seconds > 0 && Faithful(b, c, slot, seen) && built <= now < End(b, slot)
    ensures Faithful(b, GivenLifetime(c, SlotOf(b, key, built), now, Span(b)), slot, seen)
  {
    WindowHolds(b, key, built);
    hide End;
  }

  lemma RequestFaithful(b: Bucket, c: map<Slot, Counter>, slot: Slot, seen: nat, e: Event)
    requires b.seconds > 0 && e.Request? && Faithful(b, c, slot, seen) && e.now < End(b, slot)
    ensures Faithful(b, Step(c, b, e), slot, seen + LostIn(b, e, slot) + if Answered(b, e, slot) then 1 else 0)
    ensures Answered(b, e, slot) ==> Answer(c, b, e) == seen + e.lost + 1
  {
    hide Faithful, Incremented, IncrementedTimes, GivenLifetime, CountAfter, End, SlotOf;
    var own := SlotOf(b, e.key, e.now);
    var d := IncrementedTimes(c, own, e.now, e.lost);
    var now_seen := seen + LostIn(b, e, slot);
    TimesFaithful(b, c, slot, seen, own, e.now, e.lost);
    IncrFaithful(b, d, slot, now_seen, own, e.now);
    LifetimeFaithful(b, Incremented(d, own, e.now), slot, now_seen + if own == slot then 1 else 0, e.key, e.now, e.now);
  }

  lemma StepFaithful(b: Bucket, c: map<Slot, Counter>, slot: Slot, seen: nat, e: Event)
    requires b.seconds > 0 && Faithful(b, c, slot, seen) && e.now < End(b, slot)
    requires e.LateIncr? || e.LateExpire? ==> e.built <= e.now
    ensures Faithful(b, Step(c, b, e), slot, seen + LostIn(b, e, slot) + if Answered(b, e, slot) then 1 else 0)
  {
    match e
    case Purge(other, now) => hide End;
    case LateIncr(key, built, now) => IncrFaithful(b, c, slot, seen, SlotOf(b, key, built), now);
    case LateExpire(key, built, now) => LifetimeFaithful(b, c, slot, seen, key, built, now);
    case Request(_, _, _, _, _) => RequestFaithful(b, c, slot, seen, e);
  }

  lemma {:induction false} RunFaithful(b: Bucket, events: seq<Event>, slot: Slot)
    requires b.seconds > 0 && Chronological(events)
    requires events == [] || events[|events| - 1].now < End(b, slot)
    ensures Faithful(b, Run(b, events), slot, Seen(b, events, slot))
  {
    if events != [] {
      var init := events[..|events| - 1];
      RunFaithful(b, init, slot);
      StepFaithful(b, Run(b, init), slot, Seen(b, init, slot), events[|events| - 1]);
    }
  }

  /** The counters refine the plain count: a request goes through exactly when it is not answered, or
      fewer INCRs than the limit, its own lost ones included, were applied before the one it is answered
      for, with its key and in its window. */
  lemma AdmittedExactly(b: Bucket, events: seq<Event>, i: nat)
    requires b.seconds > 0 && Chronological(events) && i < |events| && events[i].Request?
    ensures var e := events[i];
      Admitted(b, events, i)
      <==> !e.answered || Seen(b, events[..i], SlotOf(b, e.key, e.now)) + e.lost < b.limit
  {
    var e := events[i];
    var slot := SlotOf(b, e.key, e.now);
    WindowHolds(b, e.key, e.now);
    RunFaithful(b, events[..i], slot);
    RequestFaithful(b, Run(b, events[..i]), slot, Seen(b, events[..i], slot), e);
  }

  // ---------- how many go through ----------

  /** Answered requests of one window that went through, among the first n events. */
  function AdmittedInWindow(b: Bucket, events: seq<Event>, slot: Slot, n: nat): nat
    requires b.seconds > 0 && n <= |events|
  {
    if n == 0 then 0
    else
      AdmittedInWindow(b, events, slot, n - 1)
      + if Answered(b, events[n - 1], slot) && Admitted(b, events, n - 1) then 1 else 0
  }

  function Min(x: nat, y: nat): nat {
    if x <= y then x else y
  }

  /** At most `limit` answered requests of a key go through in a window. Without an INCR applied
      unanswered it is the first `limit` of them, and each such INCR costs at most one place. */
  lemma {:induction false} WindowExactly(b: Bucket, events: seq<Event>, slot: Slot, n: nat)
    requires b.seconds > 0 && Chronological(events) && n <= |events|
    ensures var through := AdmittedInWindow(b, events, slot, n);
      && through <= Min(AnsweredCount(b, events[..n], slot), b.limit)
      && Min(Seen(b, events[..n], slot), b.limit) <= through + Lost(b, events[..n], slot)
      && (Lost(b, events[..n], slot) == 0 ==> through == Min(AnsweredCount(b, events[..n], slot), b.limit))
  {
    if n > 0 {
      WindowExactly(b, events, slot, n - 1);
      assert events[..n][..n - 1] == events[..n - 1] && events[..n][n - 1] == events[n - 1];
      hide Admitted, SlotOf;
      if events[n - 1].Request? { AdmittedExactly(b, events, n - 1); }
    }
  }

  /** Answered requests of one key that went through from time a to time z. */
  function AdmittedInSpan(b: Bucket, events: seq<Event>, key: string, a: nat, z: nat, n: nat): nat
    requires b.seconds > 0 && n <= |events|
  {
    if n == 0 then 0
    else
      AdmittedInSpan(b, events, key, a, z, n - 1)
      + var e := events[n - 1];
        if e.Request? && e.key == key && e.answered && a <= e.now <= z && Admitted(b, events, n - 1) then 1 else 0
  }

  lemma {:induction false} SpanInTwoWindows(b: Bucket, events: seq<Event>, key: string, a: nat, n: nat)
    requires b.seconds > 0 && n <= |events|
    ensures var w := SlotOf(b, key, a);
      AdmittedInSpan(b, events, key, a, a + Span(b), n)
      <= AdmittedInWindow(b, events, w, n) + AdmittedInWindow(b, events, w.(index := w.index + 1), n)
  {
    if n > 0 {
      SpanInTwoWindows(b, events, key, a, n - 1);
      var e := events[n - 1];
      if a <= e.now <= a + Span(b) {
        hide Admitted;
        InTwoWindows(b, a, e.now);
      }
    }
  }

  lemma InTwoWindows(b: Bucket, a: nat, t: nat)
    requires b.seconds > 0 && a <= t <= a + Span(b)
    ensures a / SECOND / b.seconds <= t / SECOND / b.seconds <= a / SECOND / b.seconds + 1
  {
    WindowHolds(b, "", a);
    WindowHolds(b, "", t);
    hide Span;
    Neighbours(Span(b), a / SECOND / b.seconds, t / SECOND / b.seconds, a, t);
  }

  lemma Neighbours(w: nat, i: nat, j: nat, a: nat, t: nat)
    requires i * w <= a < (i + 1) * w && j * w <= t < (j + 1) * w && a <= t <= a + w
    ensures i <= j <= i + 1
  {
    assert a < (j + 1) * w && j * w < (i + 2) * w;
  }

  /** No span as long as the window, wherever it starts, lets more than twice the limit of answered
      requests through. */
  lemma SpanBounded(b: Bucket, events: seq<Event>, key: string, a: nat)
    requires b.seconds > 0 && Chronological(events)
    ensures AdmittedInSpan(b, events, key, a, a + Span(b), |events|) <= 2 * b.limit
  {
    var w := SlotOf(b, key, a);
    SpanInTwoWindows(b, events, key, a, |events|);
    WindowExactly(b, events, w, |events|);
    WindowExactly(b, events, w.(index := w.index + 1), |events|);
  }

  // ---------- how long a counter stays ----------

  /** The first INCR of a window, answered and followed by its EXPIRE, leaves a counter that lives exactly as
      long as the window is, from that moment. */
  lemma LivesExactly(b: Bucket, c: map<Slot, Counter>, key: string, now: nat, later: nat)
    requires b.seconds > 0 && SlotOf(b, key, now) !in c
    ensures Live(Step(c, b, Request(key, now, 0, true, true)), SlotOf(b, key, now), later)
      <==> later < now + b.seconds * 1_000_000
  {
    hide SlotOf;
  }

  // ---------- counters without a lifetime ----------

  predicate Lasting(c: map<Slot, Counter>, slot: Slot) {
    slot in c && c[slot].count >= 1 && c[slot].expireAt.None?
  }

  lemma {:induction false} TimesLast(c: map<Slot, Counter>, slot: Slot, other: Slot, now: nat, n: nat)
    requires Lasting(c, slot) || (slot !in c && other == slot && n >= 1)
    ensures Lasting(IncrementedTimes(c, other, now, n), slot)
  {
    if n > 0 {
      var d := IncrementedTimes(c, other, now, n - 1);
      if n > 1 || Lasting(c, slot) { TimesLast(c, slot, other, now, n - 1); }
      assert Lasting(Incremented(d, other, now), slot);
    }
  }

  /** No request gives a counter without a lifetime one: its INCR is answered with more than 1. */
  lemma StepLasts(b: Bucket, c: map<Slot, Counter>, slot: Slot, e: Event)
    requires b.seconds > 0 && Lasting(c, slot)
    requires e.LateExpire? ==> SlotOf(b, e.key, e.built) != slot
    ensures Lasting(Step(c, b, e), slot)
  {
    hide SlotOf, IncrementedTimes;
    if e.Request? { TimesLast(c, slot, SlotOf(b, e.key, e.now), e.now, e.lost); }
  }

  /** The first INCR of a window, when it is applied and its answer lost, leaves a counter that only an
      EXPIRE not asked for by any later request could ever remove. */
  lemma {:induction false} LostFirstLasts(b: Bucket, before: seq<Event>, first: Event, after: seq<Event>, slot: Slot)
    requires b.seconds > 0 && slot !in Run(b, before) && LostIn(b, first, slot) >= 1
    requires forall i :: 0 <= i < |after| && after[i].LateExpire? ==> SlotOf(b, after[i].key, after[i].built) != slot
    ensures Lasting(Run(b, before + [first] + after), slot)
  {
    hide SlotOf;
    var events := before + [first] + after;
    if after == [] {
      assert events[..|events| - 1] == before;
      if first.Request? {
        hide IncrementedTimes;
        TimesLast(Run(b, before), slot, slot, first.now, first.lost);
      }
    } else {
      var init := after[..|after| - 1];
      assert events[..|events| - 1] == before + [first] + init;
      LostFirstLasts(b, before, first, init, slot);
      StepLasts(b, Run(b, before + [first] + init), slot, after[|after| - 1]);
    }
  }

  // ---------- the middleware ----------

  class Redis {
    var counters: map<Slot, Counter>

    constructor ()
      ensures counters == map[]
    {
      counters := map[];
    }

    method Incr(slot: Slot, now: nat) returns (count: nat)
      modifies this
      ensures count == CountAfter(old(counters), slot, now)
      ensures counters == Incremented(old(counters), slot, now)
    {
      if slot in counters && (counters[slot].expireAt.None? || now < counters[slot].expireAt.value) {
        count := counters[slot].count + 1;
        counters := counters[slot := counters[slot].(count := count)];
      } else {
        count := 1;
        counters := counters[slot := Counter(1, None)];
      }
    }

    method Expire(slot: Slot, now: nat, span: nat)
      modifies this
      ensures counters == GivenLifetime(old(counters), slot, now, span)
    {
      if Live(counters, slot, now) {
        counters := counters[slot := counters[slot].(expireAt := Some(now + span))];
      }
    }

    /** The client's INCR, which it sends again when an answer does not come; None once it gives up. */
    method IncrCall(slot: Slot, now: nat, lost: nat, answered: bool) returns (count: Option<nat>)
      modifies this
      ensures var d := IncrementedTimes(old(counters), slot, now, lost);
        && counters == (if answered then Incremented(d, slot, now) else d)
        && count == (if answered then Some(CountAfter(d, slot, now)) else None)
    {
      for i := 0 to lost
        invariant counters == IncrementedTimes(old(counters), slot, now, i)
      {
        var _ := Incr(slot, now);
      }
      if !answered { return None; }
      var c := Incr(slot, now);
      count := Some(c);
    }
  }

  /** rateLimitMiddleware: whether the request is passed on. */
  method RateLimit(redis: Redis, b: Bucket, key: string, now: nat, lost: nat, answered: bool, expireOk: bool)
    returns (pass: bool)
    requires b.seconds > 0
    modifies redis
    ensures var e := Request(key, now, lost, answered, expireOk);
      && redis.counters == Step(old(redis.counters), b, e)
      && (pass <==> !answered || Answer(old(redis.counters), b, e) <= b.limit)
  {
    var slot := SlotOf(b, key, now);
    var count := redis.IncrCall(slot, now, lost, answered);
    if count.None? { return true; }
    if count.value == 1 && expireOk { redis.Expire(slot, now, Span(b)); }
    pass := count.value <= b.limit;
  }
}
