/** The pace of automated typing: the parameters the server chooses and the loop that types
    with them, for every outcome of the random draws. */
module Typing {

  // ---------- random draws ----------

  /** The server's draw: the upper end is excluded, and an empty range answers its lower end. */
  method ServerRandInt(min: int, max: int) returns (r: int)
    ensures if max <= min then r == min else min <= r < max
  {
    r := *;
    if max <= min || r < min || r >= max { r := min; }
  }

  /** The extension's draw: both ends are included. */
  method RandInt(min: int, max: int) returns (r: int)
    requires min <= max
    ensures min <= r <= max
  {
    r := *;
    if r < min || r > max { r := min; }
  }

  /** A draw from [0, 1). */
  method RandUnit() returns (r: real)
    ensures 0.0 <= r < 1.0
  {
    r := *;
    if r < 0.0 || r >= 1.0 { r := 0.0; }
  }

  // ---------- the server's parameters ----------

  datatype Pace = Pace(cpsMin: real, cpsMax: real, pauseEveryMin: int, pauseEveryMax: int,
                       pauseMsMin: int, pauseMsMax: int)

  /** Every minimum is positive and no larger than its maximum. */
  predicate Sane(p: Pace) {
    && 0.0 < p.cpsMin <= p.cpsMax
    && 1 <= p.pauseEveryMin <= p.pauseEveryMax
    && 1 <= p.pauseMsMin <= p.pauseMsMax
  }

  datatype Profile = Profile(clickMin: int, clickMax: int, cpsMin: real, cpsMax: real,
                             everyMin: int, everyMax: int, msMin: int, msMax: int)

  /** The numeric profile of a pacing level; an unknown level paces moderately. */
  function ProfileFor(level: string): Profile {
    if level == "conservative" then Profile(1400, 2600, 3.5, 6.0, 12, 26, 700, 1800)
    else if level == "energetic" then Profile(600, 1300, 7.0, 11.0, 25, 48, 300, 900)
    else Profile(900, 1800, 5.0, 8.5, 18, 36, 450, 1200)
  }

  class HumanizeParams {
    var clickDelayMs: int
    var cpsMin: real
    var cpsMax: real
    var pauseEveryMin: int
    var pauseEveryMax: int
    var pauseMsMin: int
    var pauseMsMax: int

    function AsPace(): Pace
      reads this
    {
      Pace(cpsMin, cpsMax, pauseEveryMin, pauseEveryMax, pauseMsMin, pauseMsMax)
    }

    /** The local curve used when nothing better is known. */
    constructor Fallback()
      ensures AsPace() == Pace(4.2, 7.5, 18, 34, 300, 950) && Sane(AsPace()) && 900 <= clickDelayMs < 2200
    {
      cpsMin, cpsMax := 4.2, 7.5;
      pauseEveryMin, pauseEveryMax := 18, 34;
      pauseMsMin, pauseMsMax := 300, 950;
      new;
      clickDelayMs := ServerRandInt(900, 2200);
    }

    method ApplyPacingProfile(level: string)
      modifies this
      ensures Sane(AsPace()) && InProfile(AsPace(), ProfileFor(level))
      ensures ProfileFor(level).clickMin <= clickDelayMs < ProfileFor(level).clickMax
    {
      var f := ProfileFor(level);
      clickDelayMs := ServerRandInt(f.clickMin, f.clickMax);
      var u := RandUnit();
      cpsMin := f.cpsMin + u * 0.5;
      u := RandUnit();
      cpsMax := f.cpsMax + u * 0.5;
      pauseEveryMin := ServerRandInt(f.everyMin, f.everyMin + 6);
      pauseEveryMax := ServerRandInt(f.everyMax, f.everyMax + 10);
      pauseMsMin := ServerRandInt(f.msMin, f.msMin + 150);
      pauseMsMax := ServerRandInt(f.msMax, f.msMax + 300);
    }

    /** The slower variant of the parameters; it stays sane exactly when twice the shortest
        pause still fits under the stretched longest one. */
    method SlowDown()
      requires Sane(AsPace())
      modifies this
      ensures AsPace() == Slowed(old(AsPace())) && clickDelayMs == 2 * old(clickDelayMs)
      ensures Sane(AsPace()) <==> 2 * old(pauseMsMin) <= old(pauseMsMax) * 3 / 2 + 200
    {
      clickDelayMs := clickDelayMs * 2;
      cpsMin, cpsMax := cpsMin * 0.7, cpsMax * 0.75;
      pauseMsMin := pauseMsMin * 2;
      pauseMsMax := pauseMsMax * 3 / 2 + 200;
    }
  }

  function Slowed(p: Pace): Pace {
    p.(cpsMin := p.cpsMin * 0.7, cpsMax := p.cpsMax * 0.75,
       pauseMsMin := p.pauseMsMin * 2, pauseMsMax := p.pauseMsMax * 3 / 2 + 200)
  }

  /** Each value where the profile allows it to be drawn. */
  predicate InProfile(p: Pace, f: Profile) {
    && f.cpsMin <= p.cpsMin < f.cpsMin + 0.5 && f.cpsMax <= p.cpsMax < f.cpsMax + 0.5
    && f.everyMin <= p.pauseEveryMin < f.everyMin + 6 && f.everyMax <= p.pauseEveryMax < f.everyMax + 10
    && f.msMin <= p.pauseMsMin < f.msMin + 150 && f.msMax <= p.pauseMsMax < f.msMax + 300
  }

  /** The numbers each level may yield: characters a second, characters between pauses, and milliseconds a
      pause lasts. */
  lemma LevelsExactly(p: Pace, level: string)
    requires InProfile(p, ProfileFor(level))
    ensures level == "conservative" ==>
      && 3.5 <= p.cpsMin < 4.0 && 6.0 <= p.cpsMax < 6.5 && 12 <= p.pauseEveryMin < 18 && 26 <= p.pauseEveryMax < 36
      && 700 <= p.pauseMsMin < 850 && 1800 <= p.pauseMsMax < 2100
    ensures level == "energetic" ==>
      && 7.0 <= p.cpsMin < 7.5 && 11.0 <= p.cpsMax < 11.5 && 25 <= p.pauseEveryMin < 31 && 48 <= p.pauseEveryMax < 58
      && 300 <= p.pauseMsMin < 450 && 900 <= p.pauseMsMax < 1200
    ensures level !in {"conservative", "energetic"} ==>
      && 5.0 <= p.cpsMin < 5.5 && 8.5 <= p.cpsMax < 9.0 && 18 <= p.pauseEveryMin < 24 && 36 <= p.pauseEveryMax < 46
      && 450 <= p.pauseMsMin < 600 && 1200 <= p.pauseMsMax < 1500
  {
    assert "energetic"[0] == 'e' && "conservative"[0] == 'c';
  }

  /** Faster speeds, pauses further apart and shorter. */
  predicate Livelier(p: Pace, q: Pace) {
    && q.cpsMin < p.cpsMin && q.cpsMax < p.cpsMax
    && q.pauseEveryMin < p.pauseEveryMin && q.pauseEveryMax <= p.pauseEveryMax
    && p.pauseMsMin <= q.pauseMsMin && p.pauseMsMax < q.pauseMsMax
  }

  /** However the draws fall, the levels keep their order. */
  lemma LevelsKeepOrder(c: Pace, m: Pace, e: Pace, unknown: string)
    requires InProfile(c, ProfileFor("conservative")) && InProfile(e, ProfileFor("energetic"))
    requires unknown !in {"conservative", "energetic"} && InProfile(m, ProfileFor(unknown))
    ensures Livelier(e, m) && Livelier(m, c)
  {
    assert "energetic"[0] == 'e' && "conservative"[0] == 'c';
  }

  /** Slowing down types more slowly and pauses longer, as often as before. */
  lemma SlowedIsSlower(p: Pace)
    requires Sane(p)
    ensures var s := Slowed(p);
      && s.cpsMin < p.cpsMin && s.cpsMax < p.cpsMax && s.pauseMsMin > p.pauseMsMin && s.pauseMsMax > p.pauseMsMax
      && s.pauseEveryMin == p.pauseEveryMin && s.pauseEveryMax == p.pauseEveryMax
  {
  }

  /** What the server answers for any decided level, slowed down or not. */
  method DecideParams(level: string, slow: bool) returns (p: HumanizeParams)
    ensures fresh(p) && Sane(p.AsPace())
    ensures exists q :: InProfile(q, ProfileFor(level)) && p.AsPace() == if slow then Slowed(q) else q
    ensures var f := ProfileFor(level);
      if slow then 2 * f.clickMin <= p.clickDelayMs < 2 * f.clickMax else f.clickMin <= p.clickDelayMs < f.clickMax
  {
    hide ProfileFor;
    p := new HumanizeParams.Fallback();
    p.ApplyPacingProfile(level);
    if slow {
      ghost var q := p.AsPace();
      ProfilesSlowDown(level, q);
      p.SlowDown();
      assert InProfile(q, ProfileFor(level));
    }
  }

  lemma ProfilesSlowDown(level: string, q: Pace)
    requires InProfile(q, ProfileFor(level))
    ensures 2 * q.pauseMsMin <= q.pauseMsMax * 3 / 2 + 200
  {
  }

  // ---------- typing ----------

  /** One chunk: its size, the size the loop was ready to insert, the time it should take at the speed
      drawn for it, and the sleep asked for after inserting it (milliseconds). */
  datatype Beat = Beat(size: nat, limit: nat, expected: real, asked: real)

  /** A pause: how many characters were typed before it, and the sleep asked for. */
  datatype Pause = Pause(at: nat, ms: int)

  /** What a run of the loop did. */
  datatype Typed = Typed(text: string, beats: seq<Beat>, pauses: seq<Pause>)

  /** The browser's part: the k-th chunk takes insertMs(k) to insert, and the k-th timer timerMs(k). */
  type Clock = nat -> real

  function Length(beats: seq<Beat>): nat {
    if beats == [] then 0 else Length(beats[..|beats| - 1]) + beats[|beats| - 1].size
  }

  function Asked(beats: seq<Beat>): real {
    if beats == [] then 0.0 else Asked(beats[..|beats| - 1]) + beats[|beats| - 1].asked
  }

  function Spent(insertMs: Clock, n: nat): real {
    if n == 0 then 0.0 else Spent(insertMs, n - 1) + insertMs(n - 1)
  }

  function PausedMs(pauses: seq<Pause>): int {
    if pauses == [] then 0 else PausedMs(pauses[..|pauses| - 1]) + pauses[|pauses| - 1].ms
  }

  function Last(pauses: seq<Pause>): nat {
    if pauses == [] then 0 else pauses[|pauses| - 1].at
  }

  function AskedInAll(r: Typed): real {
    Asked(r.beats) + PausedMs(r.pauses) as real
  }

  /** The time n characters take at the fastest speed of the range, and at the slowest. */
  function FastestMs(p: Pace, n: nat): real
    requires Sane(p)
  {
    (1000.0 / p.cpsMax) * (n as real)
  }

  function SlowestMs(p: Pace, n: nat): real
    requires Sane(p)
  {
    (1000.0 / p.cpsMin) * (n as real)
  }

  lemma TimesAddUp(p: Pace, m: nat, n: nat)
    requires Sane(p)
    ensures FastestMs(p, 0) == SlowestMs(p, 0) == 0.0 <= FastestMs(p, n) <= SlowestMs(p, n)
    ensures FastestMs(p, m + n) == FastestMs(p, m) + FastestMs(p, n)
    ensures SlowestMs(p, m + n) == SlowestMs(p, m) + SlowestMs(p, n)
  {
    var fast, slow := 1000.0 / p.cpsMax, 1000.0 / p.cpsMin;
    Faster(p.cpsMin, p.cpsMax);
    MultiplyBoth(fast, slow, n as real);
    MultiplyBoth(0.0, fast, n as real);
    Distribute(fast, m, n);
    Distribute(slow, m, n);
  }

  lemma Distribute(c: real, m: nat, n: nat)
    ensures c * ((m + n) as real) == c * (m as real) + c * (n as real)
  {
  }

  // ---------- chunks ----------

  /** A chunk of 1 to 12 characters, timed at a speed in the range; the sleep is what is left of that time
      once the chunk is inserted. */
  predicate BeatOk(b: Beat, p: Pace, spent: real)
    requires Sane(p)
  {
    && 1 <= b.size <= b.limit <= 12
    && FastestMs(p, b.size) <= b.expected <= SlowestMs(p, b.size) + 60.0
    && b.asked == if b.expected > spent then b.expected - spent else 0.0
  }

  predicate BeatsOk(beats: seq<Beat>, p: Pace, insertMs: Clock)
    requires Sane(p)
  {
    forall k :: 0 <= k < |beats| ==> BeatOk(beats[k], p, insertMs(k))
  }

  /** The chunk size after one timer, from how long the timer really took. */
  function NextChunk(chunk: nat, measured: real, expected: real): (r: nat)
    requires 1 <= chunk <= 12
    ensures 1 <= r <= 12
  {
    if measured > expected * 2.0 then (if chunk + 2 < 12 then chunk + 2 else 12)
    else if measured < expected * 1.3 && chunk > 1 then chunk - 1
    else chunk
  }

  /** The first chunk is one character, each limit follows from the timer before it, and `next` from the
      last one. */
  predicate Adapts(beats: seq<Beat>, next: nat, timerMs: Clock) {
    && (forall k :: 0 <= k < |beats| ==> 1 <= beats[k].limit <= 12)
    && (if beats == [] then next == 1
        else
          && beats[0].limit == 1
          && var b := beats[|beats| - 1]; next == NextChunk(b.limit, timerMs(|beats| - 1), b.expected))
    && forall k :: 0 < k < |beats| ==>
         beats[k].limit == NextChunk(beats[k - 1].limit, timerMs(k - 1), beats[k - 1].expected)
  }

  /** How many of the first n timers took more than twice the time expected. */
  function SlowTimers(beats: seq<Beat>, timerMs: Clock, n: nat): nat
    requires n <= |beats|
  {
    if n == 0 then 0
    else SlowTimers(beats, timerMs, n - 1) + if timerMs(n - 1) > beats[n - 1].expected * 2.0 then 1 else 0
  }

  predicate Prompt(beats: seq<Beat>, timerMs: Clock, k: nat)
    requires k < |beats|
  {
    timerMs(k) < beats[k].expected * 1.3 && timerMs(k) <= beats[k].expected * 2.0
  }

  /** A chunk grows by two characters for each timer that took more than twice its time, and by nothing
      else; without any, everything is typed one character at a time. */
  lemma {:induction false} GrowsOnlyWhenSlow(beats: seq<Beat>, next: nat, timerMs: Clock, k: nat)
    requires Adapts(beats, next, timerMs) && k < |beats|
    ensures beats[k].limit <= 1 + 2 * SlowTimers(beats, timerMs, k)
    ensures k > 0 && beats[k].limit > beats[k - 1].limit ==> timerMs(k - 1) > beats[k - 1].expected * 2.0
    ensures k > 0 && timerMs(k - 1) > beats[k - 1].expected * 2.0 ==>
      beats[k].limit == Min(12, beats[k - 1].limit + 2)
    ensures k > 0 && timerMs(k - 1) >= beats[k - 1].expected * 1.3 ==> beats[k].limit >= beats[k - 1].limit
  {
    if k > 0 { GrowsOnlyWhenSlow(beats, next, timerMs, k - 1); }
  }

  /** Each timer on time takes the chunk down by one character, to one at a time after eleven. */
  lemma {:induction false} ShrinksWhenPrompt(beats: seq<Beat>, next: nat, timerMs: Clock, k: nat, m: nat)
    requires Adapts(beats, next, timerMs) && k + m < |beats|
    requires forall j :: k <= j < k + m ==> Prompt(beats, timerMs, j)
    ensures beats[k + m].limit == if beats[k].limit > m then beats[k].limit - m else 1
    ensures m >= 11 ==> beats[k + m].limit == 1
  {
    if m > 0 {
      ShrinksWhenPrompt(beats, next, timerMs, k, m - 1);
      assert Prompt(beats, timerMs, k + m - 1);
      assert beats[k + m].limit
        == NextChunk(beats[k + m - 1].limit, timerMs(k + m - 1), beats[k + m - 1].expected);
    }
  }

  lemma BeatStep(beats: seq<Beat>, b: Beat, p: Pace, insertMs: Clock, next: nat, timerMs: Clock)
    requires Sane(p) && BeatsOk(beats, p, insertMs) && BeatOk(b, p, insertMs(|beats|))
    requires Adapts(beats, next, timerMs) && b.limit == next
    ensures BeatsOk(beats + [b], p, insertMs) && Length(beats + [b]) == Length(beats) + b.size
    ensures Adapts(beats + [b], NextChunk(next, timerMs(|beats|), b.expected), timerMs)
  {
    hide NextChunk;
    assert (beats + [b])[..|beats|] == beats;
  }

  // ---------- pauses ----------

  /** Between two pauses, and before the first, lie at least `min` and at most `max` characters. */
  predicate GapsWithin(pauses: seq<Pause>, min: int, max: int) {
    && (pauses != [] ==> min <= pauses[0].at <= max)
    && forall k :: 0 < k < |pauses| ==> min <= pauses[k].at - pauses[k - 1].at <= max
  }

  predicate PausesOk(pauses: seq<Pause>, p: Pace, n: nat) {
    && GapsWithin(pauses, p.pauseEveryMin, p.pauseEveryMax)
    && forall k :: 0 <= k < |pauses| ==> pauses[k].at < n && p.pauseMsMin <= pauses[k].ms <= p.pauseMsMax
  }

  lemma PauseStep(pauses: seq<Pause>, pause: Pause, p: Pace, n: nat)
    requires PausesOk(pauses, p, n) && pause.at < n && p.pauseMsMin <= pause.ms <= p.pauseMsMax
    requires p.pauseEveryMin <= pause.at - Last(pauses) <= p.pauseEveryMax
    ensures PausesOk(pauses + [pause], p, n) && Last(pauses + [pause]) == pause.at
  {
  }

  lemma NoPauses(p: Pace, n: nat)
    ensures PausesOk([], p, n) && Last([]) == 0
  {
  }

  predicate PausesAt(pauses: seq<Pause>, at: nat) {
    exists j :: 0 <= j < |pauses| && pauses[j].at == at
  }

  /** A chunk smaller than the loop was ready for stops short of a pause, or of the end. */
  predicate CutOnly(beats: seq<Beat>, pauses: seq<Pause>, due: int, n: nat) {
    forall k :: 0 < k <= |beats| && beats[k - 1].size < beats[k - 1].limit ==>
      var at := Length(beats[..k]); at == n || at == due || PausesAt(pauses, at)
  }

  lemma CutByChunk(beats: seq<Beat>, b: Beat, pauses: seq<Pause>, due: int, n: nat)
    requires CutOnly(beats, pauses, due, n)
    requires b.size < b.limit ==> Length(beats) + b.size == n || Length(beats) + b.size == due
    ensures CutOnly(beats + [b], pauses, due, n)
  {
    hide PausesAt;
    assert (beats + [b])[..|beats|] == beats;
    assert Length(beats + [b]) == Length(beats) + b.size;
    forall k | 0 < k <= |beats| + 1 ensures k <= |beats| ==> (beats + [b])[..k] == beats[..k] {}
    assert (beats + [b])[..|beats| + 1] == beats + [b];
  }

  lemma CutByPause(beats: seq<Beat>, pause: Pause, pauses: seq<Pause>, due: int, due': int, n: nat)
    requires CutOnly(beats, pauses, due, n) && pause.at == due
    ensures CutOnly(beats, pauses + [pause], due', n)
  {
    hide Length;
    assert (pauses + [pause])[|pauses|] == pause;
    forall at: nat | PausesAt(pauses, at) ensures PausesAt(pauses + [pause], at) {
      var j :| 0 <= j < |pauses| && pauses[j].at == at;
      assert (pauses + [pause])[j].at == at;
    }
    assert due >= 0 && PausesAt(pauses + [pause], due);
  }

  lemma {:induction false} LengthUpTo(beats: seq<Beat>, k: nat)
    requires k <= |beats|
    ensures Length(beats[..k]) <= Length(beats)
  {
    if k == |beats| {
      assert beats[..k] == beats;
    } else {
      var init := beats[..|beats| - 1];
      assert init[..k] == beats[..k];
      LengthUpTo(init, k);
    }
  }

  lemma CutAtEnd(beats: seq<Beat>, pauses: seq<Pause>, due: int, n: nat)
    requires CutOnly(beats, pauses, due, n) && Length(beats) == n <= due
    ensures CutOnly(beats, pauses, n, n)
  {
    hide PausesAt;
    forall k: nat | k <= |beats| ensures Length(beats[..k]) <= n { LengthUpTo(beats, k); }
  }

  // ---------- the time it takes ----------

  function Min(a: int, b: int): int {
    if a < b then a else b
  }

  function Bound(n: nat, p: Pace): real
    requires Sane(p)
  {
    SlowestMs(p, n) + 60.0 * (n as real) + ((n / p.pauseEveryMin) * p.pauseMsMax) as real
  }

  /** Inserting and sleeping together take at least the time of the fastest speed; the sleeps alone are
      at most that of the slowest, and 60 ms more for each chunk. */
  lemma {:induction false} BeatsTake(beats: seq<Beat>, p: Pace, insertMs: Clock)
    requires Sane(p) && BeatsOk(beats, p, insertMs) && forall k :: insertMs(k) >= 0.0
    ensures |beats| <= Length(beats)
    ensures Asked(beats) + Spent(insertMs, |beats|) >= FastestMs(p, Length(beats))
    ensures 0.0 <= Asked(beats) <= SlowestMs(p, Length(beats)) + 60.0 * (|beats| as real)
  {
    hide FastestMs, SlowestMs;
    TimesAddUp(p, 0, 0);
    if beats != [] {
      var m := |beats| - 1;
      var init, b := beats[..m], beats[m];
      BeatsTake(init, p, insertMs);
      assert BeatOk(b, p, insertMs(m));
      TimesAddUp(p, Length(init), b.size);
    }
  }

  lemma {:induction false} PausesTake(pauses: seq<Pause>, p: Pace, n: nat)
    requires Sane(p) && PausesOk(pauses, p, n)
    ensures |pauses| * p.pauseMsMin <= PausedMs(pauses) <= |pauses| * p.pauseMsMax
    ensures |pauses| * p.pauseEveryMin <= Last(pauses) <= |pauses| * p.pauseEveryMax && Last(pauses) <= n
  {
    if pauses != [] {
      var m := |pauses| - 1;
      var init := pauses[..m];
      PausesTake(init, p, n);
      assert p.pauseMsMin <= pauses[m].ms <= p.pauseMsMax;
      assert p.pauseEveryMin <= pauses[m].at - Last(init) <= p.pauseEveryMax;
      OneMore(m, p.pauseMsMin);
      OneMore(m, p.pauseMsMax);
      OneMore(m, p.pauseEveryMin);
      OneMore(m, p.pauseEveryMax);
    }
  }

  lemma OneMore(m: nat, x: int)
    ensures (m + 1) * x == m * x + x
  {
  }

  lemma CancelFactor(x: int, e: int)
    requires e >= 1 && x * e < e
    ensures x < 1
  {
  }

  lemma MultiplyBoth(a: real, b: real, c: real)
    requires a <= b && 0.0 <= c
    ensures a * c <= b * c
  {
  }

  lemma PausesFit(n: nat, e: int, pauses: nat, ms: int)
    requires e >= 1 && ms >= 0 && pauses * e <= n
    ensures pauses * ms <= (n / e) * ms
  {
    var q := n / e;
    assert n == q * e + n % e;
    assert (pauses - q) * e == pauses * e - q * e;
    CancelFactor(pauses - q, e);
    assert (q - pauses) * ms >= 0;
  }

  /** In all, the loop asks for no more than a time linear in the text; with the time spent inserting it
      takes no less than the fastest speed and the shortest pauses allow. */
  lemma TimeTaken(r: Typed, p: Pace, insertMs: Clock)
    requires Sane(p) && BeatsOk(r.beats, p, insertMs) && (forall k :: insertMs(k) >= 0.0)
    requires Length(r.beats) == |r.text| && PausesOk(r.pauses, p, |r.text|)
    ensures 0.0 <= AskedInAll(r) <= Bound(|r.text|, p)
    ensures AskedInAll(r) + Spent(insertMs, |r.beats|)
      >= FastestMs(p, |r.text|) + (|r.pauses| * p.pauseMsMin) as real
  {
    hide BeatsOk, PausesOk, FastestMs, SlowestMs, Asked, Spent, PausedMs, Length, Last;
    var n, chunks := |r.text|, |r.beats|;
    BeatsTake(r.beats, p, insertMs);
    PausesTake(r.pauses, p, n);
    PausesFit(n, p.pauseEveryMin, |r.pauses|, p.pauseMsMax);
    NonNegative(|r.pauses|, p.pauseMsMin);
  }

  lemma NonNegative(m: nat, x: int)
    requires x >= 0
    ensures m * x >= 0
  {
  }

  // ---------- the loop ----------

  lemma DivideBetween(cps: real, p: Pace, chunk: nat)
    requires Sane(p) && p.cpsMin <= cps <= p.cpsMax
    ensures FastestMs(p, chunk) <= (1000.0 / cps) * (chunk as real) <= SlowestMs(p, chunk)
  {
    Faster(cps, p.cpsMax);
    Faster(p.cpsMin, cps);
    MultiplyBoth(1000.0 / p.cpsMax, 1000.0 / cps, chunk as real);
    MultiplyBoth(1000.0 / cps, 1000.0 / p.cpsMin, chunk as real);
  }

  lemma Faster(slow: real, fast: real)
    requires 0.0 < slow <= fast
    ensures 1000.0 / fast <= 1000.0 / slow
  {
    var a, b := 1000.0 / fast, 1000.0 / slow;
    assert a * fast == 1000.0 && b * slow == 1000.0;
    MultiplyBoth(slow, fast, b);
    assert (b - a) * fast >= 0.0;
    CancelPositive(b - a, fast);
  }

  lemma CancelPositive(x: real, c: real)
    requires 0.0 < c && x * c >= 0.0
    ensures x >= 0.0
  {
  }

  function Part(u: real, d: real): real {
    u * d
  }

  lemma PartOf(u: real, d: real)
    requires 0.0 <= u < 1.0 && 0.0 <= d
    ensures 0.0 <= Part(u, d) <= d
  {
    MultiplyBoth(0.0, u, d);
    MultiplyBoth(u, 1.0, d);
  }

  /** A typing speed in the range. */
  method DrawCps(p: Pace) returns (cps: real)
    requires Sane(p)
    ensures p.cpsMin <= cps <= p.cpsMax
  {
    hide Part;
    var u := RandUnit();
    var range := p.cpsMax - p.cpsMin;
    PartOf(u, range);
    cps := p.cpsMin + Part(u, range);
  }

  /** The time a chunk should take at a speed drawn for it, and the sleep asked for after inserting it:
      the expected time less what inserting already took. */
  method PaceChunk(p: Pace, size: nat, limit: nat, spent: real) returns (b: Beat)
    requires Sane(p) && 1 <= size <= limit <= 12
    ensures BeatOk(b, p, spent) && b.size == size && b.limit == limit
  {
    hide FastestMs, SlowestMs;
    var cps := DrawCps(p);
    var v := RandUnit();
    DivideBetween(cps, p, size);
    var atSpeed := (1000.0 / cps) * (size as real);
    var expectedMs := atSpeed + v * 60.0;
    b := Beat(size, limit, expectedMs, if expectedMs - spent > 0.0 then expectedMs - spent else 0.0);
  }

  /** What a run over this text may be, for this pace and with these times taken by the browser. */
  ghost predicate Paced(r: Typed, text: string, p: Pace, insertMs: Clock, timerMs: Clock)
    requires Sane(p)
  {
    && r.text == text && Length(r.beats) == |text|
    && BeatsOk(r.beats, p, insertMs)
    && (exists next :: Adapts(r.beats, next, timerMs))
    && PausesOk(r.pauses, p, |text|) && |text| - Last(r.pauses) <= p.pauseEveryMax
    && CutOnly(r.beats, r.pauses, |text|, |text|)
  }

  /** However the draws fall and however the browser delays its timers, the loop ends; it inserts exactly
      the text, in order, in chunks that adapt to the timers, pauses at gaps within the given range up to
      the end, and takes a time between that of the fastest and that of the slowest allowed. */
  method TypeHumanly(text: string, p: Pace, insertMs: Clock, timerMs: Clock) returns (r: Typed)
    requires Sane(p) && forall k :: insertMs(k) >= 0.0
    ensures Paced(r, text, p, insertMs, timerMs)
    ensures 0.0 <= AskedInAll(r) <= Bound(|text|, p)
    ensures AskedInAll(r) + Spent(insertMs, |r.beats|)
      >= FastestMs(p, |text|) + (|r.pauses| * p.pauseMsMin) as real
    ensures |text| <= (|r.pauses| + 1) * p.pauseEveryMax
  {
    hide BeatOk, BeatsOk, Adapts, PausesOk, CutOnly, NextChunk, Bound, Last, Length, Asked, PausedMs, Spent, FastestMs;
    var n := |text|;
    var typed: string, beats: seq<Beat>, pauses: seq<Pause> := "", [], [];
    var nextPauseAt := RandInt(p.pauseEveryMin, p.pauseEveryMax);
    var chunkChars, i := 1, 0;
    NothingTyped(p, insertMs, timerMs, nextPauseAt, n);
    while i < n
      invariant 0 <= i <= n && i <= nextPauseAt && typed == text[..i] && Length(beats) == i
      invariant 1 <= chunkChars <= 12
      invariant BeatsOk(beats, p, insertMs) && Adapts(beats, chunkChars, timerMs)
      invariant PausesOk(pauses, p, n) && CutOnly(beats, pauses, nextPauseAt, n)
      invariant Last(pauses) <= i && p.pauseEveryMin <= nextPauseAt - Last(pauses) <= p.pauseEveryMax
      decreases n - i, if i >= nextPauseAt then 1 else 0
    {
      if i >= nextPauseAt {
        var ms := RandInt(p.pauseMsMin, p.pauseMsMax);
        var gap := RandInt(p.pauseEveryMin, p.pauseEveryMax);
        PauseStep(pauses, Pause(i, ms), p, n);
        CutByPause(beats, Pause(i, ms), pauses, nextPauseAt, i + gap, n);
        pauses := pauses + [Pause(i, ms)];
        nextPauseAt := i + gap;
        continue;
      }
      var chunkSize := Min(chunkChars, Min(nextPauseAt - i, n - i));
      typed := typed + text[i..i + chunkSize];
      var b := PaceChunk(p, chunkSize, chunkChars, insertMs(|beats|));
      BeatStep(beats, b, p, insertMs, chunkChars, timerMs);
      CutByChunk(beats, b, pauses, nextPauseAt, n);
      chunkChars := NextChunk(chunkChars, timerMs(|beats|), b.expected);
      beats := beats + [b];
      i := i + chunkSize;
    }
    r := Typed(typed, beats, pauses);
    CutAtEnd(beats, pauses, nextPauseAt, n);
    TimeTaken(r, p, insertMs);
    PausesTake(pauses, p, n);
    OneMore(|pauses|, p.pauseEveryMax);
  }

  lemma NothingTyped(p: Pace, insertMs: Clock, timerMs: Clock, due: int, n: nat)
    requires Sane(p)
    ensures BeatsOk([], p, insertMs) && Adapts([], 1, timerMs) && Length([]) == 0
    ensures PausesOk([], p, n) && Last([]) == 0 && CutOnly([], [], due, n)
  {
  }

  /** Typing with whatever the server decides: exact, adaptive and paced for the pace it chose. */
  method TypeWithServerPace(text: string, level: string, slow: bool, insertMs: Clock, timerMs: Clock)
    returns (r: Typed, p: Pace)
    requires forall k :: insertMs(k) >= 0.0
    ensures Sane(p) && Paced(r, text, p, insertMs, timerMs) && 0.0 <= AskedInAll(r) <= Bound(|text|, p)
    ensures exists q :: InProfile(q, ProfileFor(level)) && p == if slow then Slowed(q) else q
  {
    hide Bound, Paced, ProfileFor, InProfile;
    var params := DecideParams(level, slow);
    p := params.AsPace();
    r := TypeHumanly(text, p, insertMs, timerMs);
  }

  /** In a visible tab, where no timer takes more than twice its time, the text is typed one character at
      a time. */
  lemma OneByOneWhenVisible(r: Typed, text: string, p: Pace, insertMs: Clock, timerMs: Clock)
    requires Sane(p) && Paced(r, text, p, insertMs, timerMs)
    requires forall k :: 0 <= k < |r.beats| ==> timerMs(k) <= r.beats[k].expected * 2.0
    ensures |r.beats| == |text| && forall k :: 0 <= k < |r.beats| ==> r.beats[k].size == 1
  {
    hide Adapts, CutOnly, PausesOk;
    var next :| Adapts(r.beats, next, timerMs);
    forall k | 0 <= k < |r.beats| ensures r.beats[k].size == 1 {
      GrowsOnlyWhenSlow(r.beats, next, timerMs, k);
      NoneSlow(r.beats, timerMs, k);
      assert BeatOk(r.beats[k], p, insertMs(k));
    }
    LengthOfOnes(r.beats);
  }

  lemma {:induction false} NoneSlow(beats: seq<Beat>, timerMs: Clock, n: nat)
    requires n <= |beats| && forall k :: 0 <= k < n ==> timerMs(k) <= beats[k].expected * 2.0
    ensures SlowTimers(beats, timerMs, n) == 0
  {
    if n > 0 { NoneSlow(beats, timerMs, n - 1); }
  }

  lemma {:induction false} LengthOfOnes(beats: seq<Beat>)
    requires forall k :: 0 <= k < |beats| ==> beats[k].size == 1
    ensures Length(beats) == |beats|
  {
    if beats != [] { LengthOfOnes(beats[..|beats| - 1]); }
  }
}
