/** The assist service's request window and answer cache, and the handler that uses them. */
module Assist {
  import opened Text

  const MINUTE: int := 60_000_000        // times are microseconds
  const CACHE_TTL: int := 10 * MINUTE
  const CACHE_CAP: nat := 256

  // ---------- the request window ----------

  /** The window's start (None before the first request) and the requests admitted in it. */
  datatype Window = Window(start: Option<int>, seen: nat)

  predicate Resets(w: Window, now: int) {
    w.start.None? || now - w.start.value > MINUTE
  }

  function Rolled(w: Window, now: int): Window {
    if Resets(w, now) then Window(Some(now), 0) else w
  }

  predicate Admits(w: Window, limit: nat, now: int) {
    Rolled(w, now).seen < limit
  }

  function AfterRequest(w: Window, limit: nat, now: int): Window {
    var r := Rolled(w, now);
    if r.seen < limit then r.(seen := r.seen + 1) else r
  }

  predicate Sorted(times: seq<int>) {
    forall i, j :: 0 <= i < j < |times| ==> times[i] <= times[j]
  }

  /** How many of the requests at these times are admitted inside the span from a to b. */
  function AdmittedIn(w: Window, limit: nat, times: seq<int>, a: int, b: int): nat
    decreases |times|
  {
    if times == [] then 0
    else
      (if a <= times[0] <= b && Admits(w, limit, times[0]) then 1 else 0)
      + AdmittedIn(AfterRequest(w, limit, times[0]), limit, times[1..], a, b)
  }

  /** A window that has started admitted the request that started it. */
  predicate WindowOk(w: Window, limit: nat) {
    w.seen <= limit && (w.start.Some? ==> w.seen >= 1)
  }

  lemma {:induction false} WithinOneWindow(w: Window, limit: nat, times: seq<int>, a: int, b: int)
    requires w.seen <= limit && w.start.Some? && b <= w.start.value + MINUTE && Sorted(times)
    ensures AdmittedIn(w, limit, times, a, b) <= limit - w.seen
    decreases |times|
  {
    if times != [] {
      if times[0] > b {
        NothingAfter(AfterRequest(w, limit, times[0]), limit, times[1..], a, b);
      } else {
        WithinOneWindow(AfterRequest(w, limit, times[0]), limit, times[1..], a, b);
      }
    }
  }

  lemma {:induction false} NothingAfter(w: Window, limit: nat, times: seq<int>, a: int, b: int)
    requires forall i :: 0 <= i < |times| ==> times[i] > b
    ensures AdmittedIn(w, limit, times, a, b) == 0
    decreases |times|
  {
    if times != [] { NothingAfter(AfterRequest(w, limit, times[0]), limit, times[1..], a, b); }
  }

  /** No run admits 2 * limit requests in any span of a minute, ends included. */
  lemma {:induction false} SlidingBound(w: Window, limit: nat, times: seq<int>, a: int)
    requires limit >= 1 && WindowOk(w, limit) && Sorted(times)
    ensures AdmittedIn(w, limit, times, a, a + MINUTE) <= 2 * limit - 1
    decreases |times|
  {
    if times != [] {
      var t := times[0];
      var w' := AfterRequest(w, limit, t);
      if t < a {
        SlidingBound(w', limit, times[1..], a);
      } else {
        InSpan(w, limit, times, a);
      }
    }
  }

  lemma {:induction false} InSpan(w: Window, limit: nat, times: seq<int>, a: int)
    requires limit >= 1 && WindowOk(w, limit) && Sorted(times) && forall i :: 0 <= i < |times| ==> a <= times[i]
    ensures AdmittedIn(w, limit, times, a, a + MINUTE)
      <= if w.start.None? then limit else (limit - w.seen) + limit
    decreases |times|
  {
    if times != [] {
      var t := times[0];
      var w' := AfterRequest(w, limit, t);
      if t > a + MINUTE {
        NothingAfter(w', limit, times[1..], a, a + MINUTE);
      } else if Resets(w, t) {
        WithinOneWindow(w', limit, times[1..], a, a + MINUTE);
      } else {
        InSpan(w', limit, times[1..], a);
      }
    }
  }

  function Repeat(t: int, n: nat): seq<int> {
    seq(n, i => t)
  }

  lemma {:induction false} RepeatAdmitted(w: Window, limit: nat, t: int, n: nat, rest: seq<int>, a: int, b: int)
    requires a <= t <= b && !Resets(w, t) && w.seen + n <= limit
    ensures AdmittedIn(w, limit, Repeat(t, n) + rest, a, b)
         == n + AdmittedIn(w.(seen := w.seen + n), limit, rest, a, b)
    decreases n
  {
    if n == 0 {
      assert Repeat(t, 0) + rest == rest;
    } else {
      assert (Repeat(t, n) + rest)[1..] == Repeat(t, n - 1) + rest;
      RepeatAdmitted(w.(seen := w.seen + 1), limit, t, n - 1, rest, a, b);
    }
  }

  /** The bound is reached: one request, the rest of the window a minute later, and a full
      window right after it. */
  lemma SlidingBoundIsTight(limit: nat)
    requires limit >= 1
    ensures var times := [0] + (Repeat(MINUTE, limit - 1) + ([MINUTE + 1] + (Repeat(MINUTE + 1, limit - 1) + [])));
      Sorted(times) && AdmittedIn(Window(None, 0), limit, times, 1, 1 + MINUTE) == 2 * limit - 1
  {
    var tail := Repeat(MINUTE + 1, limit - 1) + [];
    var mid := [MINUTE + 1] + tail;
    var rest := Repeat(MINUTE, limit - 1) + mid;
    var times := [0] + rest;
    assert times[1..] == rest && mid[1..] == tail;
    RepeatAdmitted(Window(Some(0), 1), limit, MINUTE, limit - 1, mid, 1, 1 + MINUTE);
    RepeatAdmitted(Window(Some(MINUTE + 1), 1), limit, MINUTE + 1, limit - 1, [], 1, 1 + MINUTE);
  }

  // ---------- the answer cache ----------

  datatype Source = Unset | Typesafe | Fallback
  datatype Params = Params(source: Source, pageState: string, jevMs: nat)
  datatype Entry = Entry(params: Params, expireAt: int)
  datatype Write = Write(key: string, params: Params, at: int)

  datatype Cache = Cache(entries: map<string, Entry>, lru: seq<string>)

  function CacheGet(c: Cache, key: string, now: int): Option<Params> {
    if key in c.entries && now <= c.entries[key].expireAt then Some(c.entries[key].params) else None
  }

  function CacheSet(c: Cache, key: string, params: Params, now: int): Cache {
    var entries := c.entries[key := Entry(params, now + CACHE_TTL)];
    var lru := c.lru + [key];
    if |lru| > CACHE_CAP then Cache(entries - {lru[0]}, lru[1..]) else Cache(entries, lru)
  }

  function LastWrite(log: seq<Write>, key: string): Option<Write> {
    if log == [] then None
    else if log[|log| - 1].key == key then Some(log[|log| - 1])
    else LastWrite(log[..|log| - 1], key)
  }

  /** The i-th write is the last one of this key. */
  predicate LastAt(log: seq<Write>, key: string, i: nat) {
    i < |log| && log[i].key == key && forall j :: i < j < |log| ==> log[j].key != key
  }

  /** A key once stored is thrown out when the eviction list drops one of its entries, 256 writes after
      that entry was made, an entry older than its last write included. */
  predicate KeptSince(log: seq<Write>, key: string, i: nat) {
    forall j :: 0 <= j < |log| && i <= j + CACHE_CAP < |log| ==> log[j].key != key
  }

  /** The key has been stored and, since its last write, not thrown out. */
  predicate Kept(log: seq<Write>, key: string) {
    exists i :: 0 <= i < |log| && LastAt(log, key, i) && KeptSince(log, key, i)
  }

  /** The keys of the last 256 writes. */
  function Recent(log: seq<Write>): seq<string> {
    var from := if |log| > CACHE_CAP then |log| - CACHE_CAP else 0;
    seq(|log| - from, i requires 0 <= i < |log| - from => log[from + i].key)
  }

  /** The cache agrees with everything ever stored in it: it holds exactly the keys not thrown out, each
      with its last write. */
  ghost predicate CacheOk(c: Cache, log: seq<Write>) {
    && c.lru == Recent(log)
    && (forall k :: k in c.entries <==> Kept(log, k))
    && (forall k :: k in c.entries ==>
          LastWrite(log, k).Some? && LastWrite(log, k).value.params == c.entries[k].params
          && c.entries[k].expireAt == LastWrite(log, k).value.at + CACHE_TTL)
    && (forall i :: 0 <= i < |log| ==> log[i].params.source == Typesafe)
  }

  lemma LastWriteAppend(log: seq<Write>, w: Write, key: string)
    ensures LastWrite(log + [w], key) == if w.key == key then Some(w) else LastWrite(log, key)
  {
    assert (log + [w])[..|log|] == log;
  }

  lemma RecentAppend(log: seq<Write>, w: Write)
    ensures var lru := Recent(log) + [w.key];
      && Recent(log + [w]) == (if |lru| > CACHE_CAP then lru[1..] else lru)
      && |Recent(log)| == Min(|log|, CACHE_CAP)
      && (|log| >= CACHE_CAP ==> lru[0] == log[|log| - CACHE_CAP].key)
  {
  }

  function Min(a: nat, b: nat): nat {
    if a < b then a else b
  }

  /** A write keeps its own key, unless the list drops an entry of that very key, and every other key but
      the one the list drops. */
  lemma KeptAppend(log: seq<Write>, w: Write, key: string)
    ensures Kept(log + [w], key)
      <==> ((key == w.key || Kept(log, key))
            && !(|log| >= CACHE_CAP && log[|log| - CACHE_CAP].key == key))
  {
    var log', n := log + [w], |log|;
    if key == w.key {
      assert LastAt(log', key, n);
      if Kept(log', key) {
        var i :| 0 <= i < |log'| && LastAt(log', key, i) && KeptSince(log', key, i);
        assert i == n;
        assert n >= CACHE_CAP ==> log'[n - CACHE_CAP] == log[n - CACHE_CAP];
      }
      if !(n >= CACHE_CAP && log[n - CACHE_CAP].key == key) { assert KeptSince(log', key, n); }
    } else {
      forall i: nat | i < n ensures LastAt(log', key, i) <==> LastAt(log, key, i) {
        if LastAt(log', key, i) {
          forall j | i < j < n ensures log[j].key != key { assert log'[j] == log[j]; }
        }
      }
      forall i: nat | i < n
        ensures KeptSince(log', key, i)
          <==> (KeptSince(log, key, i) && !(n >= CACHE_CAP && log[n - CACHE_CAP].key == key))
      {
        KeptSinceAppend(log, w, key, i);
      }
    }
  }

  lemma KeptSinceAppend(log: seq<Write>, w: Write, key: string, i: nat)
    requires i < |log| && key != w.key
    ensures KeptSince(log + [w], key, i)
      <==> (KeptSince(log, key, i) && !(|log| >= CACHE_CAP && log[|log| - CACHE_CAP].key == key))
  {
    var log', n := log + [w], |log|;
    if KeptSince(log', key, i) {
      forall j | 0 <= j < n && i <= j + CACHE_CAP < n ensures log[j].key != key { assert log'[j] == log[j]; }
      if n >= CACHE_CAP { assert log'[n - CACHE_CAP] == log[n - CACHE_CAP]; }
    }
  }

  lemma CacheOkAfterSet(c: Cache, log: seq<Write>, key: string, params: Params, now: int)
    requires CacheOk(c, log) && params.source == Typesafe
    ensures CacheOk(CacheSet(c, key, params, now), log + [Write(key, params, now)])
  {
    hide LastWrite, Kept, Recent;
    var w := Write(key, params, now);
    RecentAppend(log, w);
    forall k
      ensures LastWrite(log + [w], k) == if k == key then Some(w) else LastWrite(log, k)
      ensures Kept(log + [w], k)
        <==> ((k == key || Kept(log, k)) && !(|log| >= CACHE_CAP && log[|log| - CACHE_CAP].key == k))
    {
      LastWriteAppend(log, w, k);
      KeptAppend(log, w, k);
    }
  }

  /** Every hit returns what was last stored under the key, at most ten minutes ago, and never
      a fallback answer. */
  lemma HitsAreCurrent(c: Cache, log: seq<Write>, key: string, now: int)
    requires CacheOk(c, log) && CacheGet(c, key, now).Some?
    ensures var w := LastWrite(log, key);
      w.Some? && w.value.params == CacheGet(c, key, now).value && now - w.value.at <= CACHE_TTL
      && CacheGet(c, key, now).value.source == Typesafe
  {
    hide LastWrite;
    LastWriteLogged(log, key);
  }

  /** The key was stored, not thrown out since, and its last write is at most ten minutes old. */
  ghost predicate Current(log: seq<Write>, key: string, now: int) {
    Kept(log, key) && LastWrite(log, key).Some? && now - LastWrite(log, key).value.at <= CACHE_TTL
  }

  /** There is a hit exactly when the key's last write is current, and it is what was written. */
  lemma HitsExactly(c: Cache, log: seq<Write>, key: string, now: int)
    requires CacheOk(c, log)
    ensures CacheGet(c, key, now)
      == if Current(log, key, now) then Some(LastWrite(log, key).value.params) else None
    ensures Current(log, key, now) ==> LastWrite(log, key).value.params.source == Typesafe
  {
    hide LastWrite, Kept;
    LastWriteLogged(log, key);
  }

  lemma {:induction false} LastWriteLogged(log: seq<Write>, key: string)
    ensures LastWrite(log, key).Some? ==> LastWrite(log, key).value in log && LastWrite(log, key).value.key == key
  {
    if log != [] && log[|log| - 1].key != key { LastWriteLogged(log[..|log| - 1], key); }
  }

  lemma {:induction false} SetOfSeq(s: seq<string>)
    ensures |set k | k in s| <= |s|
  {
    if s == [] {
      assert (set k | k in s) == {};
    } else {
      SetOfSeq(s[1..]);
      assert (set k | k in s) == {s[0]} + set k | k in s[1..];
    }
  }

  lemma KeptIsRecent(log: seq<Write>, key: string)
    requires Kept(log, key)
    ensures key in Recent(log)
  {
    var i :| 0 <= i < |log| && LastAt(log, key, i) && KeptSince(log, key, i);
    var from := if |log| > CACHE_CAP then |log| - CACHE_CAP else 0;
    assert i >= from;
    assert Recent(log)[i - from] == key;
  }

  /** The cache never holds more than 256 answers. */
  lemma CacheBounded(c: Cache, log: seq<Write>)
    requires CacheOk(c, log)
    ensures |c.entries| <= CACHE_CAP
  {
    hide LastWrite;
    forall k | k in c.entries ensures k in c.lru { KeptIsRecent(log, k); }
    SetOfSeq(c.lru);
    SubsetSize(c.entries.Keys, set k | k in c.lru);
    assert |c.entries| == |c.entries.Keys|;
  }

  lemma {:induction false} SubsetSize(a: set<string>, b: set<string>)
    requires a <= b
    ensures |a| <= |b|
  {
    if a != {} {
      var x :| x in a;
      SubsetSize(a - {x}, b - {x});
    }
  }

  /** An answer just stored can be read back exactly unless the eviction list was full with
      that very key as its oldest entry: then storing it again throws it out. */
  lemma StoredThenRead(c: Cache, log: seq<Write>, key: string, params: Params, now: int)
    requires CacheOk(c, log)
    ensures CacheGet(CacheSet(c, key, params, now), key, now) == Some(params)
      <==> !(|c.lru| == CACHE_CAP && c.lru[0] == key)
  {
  }

  // ---------- the service ----------

  /** The Typesafe call's outcome: an answer of its own when `ok`, otherwise nothing or a fallback. */
  datatype Asked = Asked(params: Params, ok: bool)

  predicate AskedOk(a: Asked) {
    a.ok <==> a.params.source == Typesafe
  }

  function FallbackParams(reason: string): Params {
    Params(Fallback, reason, 0)
  }

  class AssistService {
    const rateLimit: nat
    var window: Window
    var entries: map<string, Entry>
    var lru: seq<string>
    ghost var log: seq<Write>

    function AsCache(): Cache
      reads this
    {
      Cache(entries, lru)
    }

    ghost predicate Valid()
      reads this
    {
      rateLimit >= 1 && WindowOk(window, rateLimit) && CacheOk(AsCache(), log)
    }

    constructor (rateLimit: nat)
      requires rateLimit >= 1
      ensures Valid() && this.rateLimit == rateLimit && window == Window(None, 0) && AsCache() == Cache(map[], [])
    {
      this.rateLimit, window, entries, lru, log := rateLimit, Window(None, 0), map[], [], [];
    }

    method AllowRequest(now: int) returns (ok: bool)
      requires Valid()
      modifies this`window
      ensures Valid() && ok == Admits(old(window), rateLimit, now)
      ensures window == AfterRequest(old(window), rateLimit, now)
    {
      if window.start.None? || now - window.start.value > MINUTE {
        window := Window(Some(now), 0);
      }
      if window.seen >= rateLimit {
        return false;
      }
      window := window.(seen := window.seen + 1);
      return true;
    }

    method Store(key: string, params: Params, now: int)
      requires Valid() && params.source == Typesafe
      modifies this`entries, this`lru, this`log
      ensures Valid() && AsCache() == CacheSet(old(AsCache()), key, params, now)
      ensures log == old(log) + [Write(key, params, now)]
    {
      CacheOkAfterSet(AsCache(), log, key, params, now);
      entries := entries[key := Entry(params, now + CACHE_TTL)];
      lru := lru + [key];
      if |lru| > CACHE_CAP {
        entries := entries - {lru[0]};
        lru := lru[1..];
      }
      log := log + [Write(key, params, now)];
    }

    /** The handler up to its call: fallback when not configured or over the limit, the cached answer
        when there is one, nothing when the call is to be made. */
    method Consult(key: string, now: int, configured: bool) returns (answer: Option<Params>)
      requires Valid()
      modifies this`window
      ensures Valid()
      ensures window == if configured then AfterRequest(old(window), rateLimit, now) else old(window)
      ensures !configured ==> answer == Some(FallbackParams("assist_not_configured"))
      ensures configured && !Admits(old(window), rateLimit, now) ==>
        answer == Some(FallbackParams("assist_rate_limited"))
      ensures configured && Admits(old(window), rateLimit, now) ==>
        answer == if Current(log, key, now) then Some(LastWrite(log, key).value.params) else None
    {
      hide LastWrite, Kept;
      if !configured {
        return Some(FallbackParams("assist_not_configured"));
      }
      var allowed := AllowRequest(now);
      if !allowed {
        return Some(FallbackParams("assist_rate_limited"));
      }
      answer := CacheGet(AsCache(), key, now);
      HitsExactly(AsCache(), log, key, now);
    }

    /** The handler from the call's outcome on; other requests may have been served in between. An
        answer is stored only if it is Typesafe's own. */
    method Conclude(key: string, now: int, asked: Asked) returns (params: Params)
      requires Valid() && AskedOk(asked)
      modifies this`entries, this`lru, this`log
      ensures Valid()
      ensures params.source != Unset && (params.source == Typesafe <==> asked.ok)
      ensures asked.ok ==> params == asked.params && log == old(log) + [Write(key, params, now)]
      ensures asked.ok ==> AsCache() == CacheSet(old(AsCache()), key, params, now)
      ensures !asked.ok ==> log == old(log) && AsCache() == old(AsCache())
      ensures !asked.ok ==>
        params == if asked.params.jevMs == 0 && asked.params.pageState == "" then FallbackParams("assist_unavailable")
                  else asked.params.(source := Fallback)
    {
      params := asked.params;
      if !asked.ok {
        if params.jevMs == 0 && params.pageState == "" {
          params := FallbackParams("assist_unavailable");
        }
        if params.source == Unset {
          params := params.(source := Fallback);
        }
      }
      if params.source == Typesafe {
        Store(key, params, now);
      }
    }
  }
}
