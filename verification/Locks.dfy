/** The Redis token lock and the scheduler's batch loop that takes and gives it back. */
module Locks {
  import opened Text

  const TTL: int := 30_000_000   // microseconds

  datatype Lock = Lock(token: nat, expireAt: int)
  type Table = map<string, Lock>

  datatype Event =
    | Acquire(key: string, token: nat, now: int)
    | Release(key: string, token: nat, now: int)

  predicate Taken(t: Table, key: string, now: int) {
    key in t && now < t[key].expireAt
  }

  /** SET NX with a lifetime; compare-and-delete. */
  function Step(t: Table, e: Event): Table {
    match e
    case Acquire(key, token, now) => if Taken(t, key, now) then t else t[key := Lock(token, now + TTL)]
    case Release(key, token, now) => if Taken(t, key, now) && t[key].token == token then t - {key} else t
  }

  function Run(events: seq<Event>): Table {
    if events == [] then map[] else Step(Run(events[..|events| - 1]), events[|events| - 1])
  }

  /** The clock does not go back and no token is drawn twice. */
  ghost predicate Proper(events: seq<Event>) {
    && (forall i, j :: 0 <= i < j < |events| ==> events[i].now <= events[j].now)
    && (forall i, j :: 0 <= i < j < |events| && events[i].Acquire? && events[j].Acquire? ==>
          events[i].token != events[j].token)
  }

  // ---------- who holds what, read off the history alone ----------

  predicate Succeeded(events: seq<Event>, i: nat) {
    i < |events| && events[i].Acquire? && !Taken(Run(events[..i]), events[i].key, events[i].now)
  }

  /** The i-th event took the lock, its lifetime is not over, and its token has not released it. */
  ghost predicate Holds(events: seq<Event>, i: nat, now: int) {
    && Succeeded(events, i)
    && now < events[i].now + TTL
    && forall j :: i < j < |events| && events[j].Release? && events[j].key == events[i].key ==>
         events[j].token != events[i].token
  }

  ghost predicate InTable(events: seq<Event>, i: nat)
    requires i < |events|
  {
    var t := Run(events);
    events[i].key in t && t[events[i].key] == Lock(events[i].token, events[i].now + TTL)
  }

  /** A holder's lock stays in Redis: only its own release or its lifetime ends it, whatever other
      schedulers acquire and release. */
  lemma {:induction false} HolderIsStored(events: seq<Event>, i: nat, now: int)
    requires Proper(events) && Holds(events, i, now) && events[|events| - 1].now <= now
    ensures InTable(events, i)
    decreases |events|
  {
    var n := |events| - 1;
    var init := events[..n];
    if i < n {
      assert init[..i] == events[..i];
      assert Succeeded(init, i);
      HolderIsStored(init, i, now);
    }
  }

  /** No two acquisitions hold one key at the same time. */
  lemma MutualExclusion(events: seq<Event>, i: nat, j: nat, now: int)
    requires Proper(events) && events != [] && events[|events| - 1].now <= now
    requires Holds(events, i, now) && Holds(events, j, now) && events[i].key == events[j].key
    ensures i == j
  {
    HolderIsStored(events, i, now);
    HolderIsStored(events, j, now);
  }

  /** A release with any other token, an expired holder's included, leaves the holder its lock. */
  lemma ForeignReleaseIsHarmless(events: seq<Event>, i: nat, token: nat, now: int)
    requires Proper(events) && Holds(events, i, now) && events[|events| - 1].now <= now
    requires token != events[i].token
    ensures var after := events + [Release(events[i].key, token, now)];
      Holds(after, i, now) && InTable(after, i) && Run(after) == Run(events)
  {
    var after := events + [Release(events[i].key, token, now)];
    HolderIsStored(events, i, now);
    assert after[..|events|] == events && after[..i] == events[..i];
  }

  /** Whatever keeps a key taken is somebody's hold: a key nobody holds can be acquired. */
  lemma {:induction false} StoredIsHeld(events: seq<Event>, key: string, now: int) returns (i: nat)
    requires Proper(events) && events != [] && events[|events| - 1].now <= now
    requires Taken(Run(events), key, now)
    ensures Holds(events, i, now) && events[i].key == key && InTable(events, i)
    decreases |events|
  {
    var n := |events| - 1;
    var init, e := events[..n], events[n];
    if e.Acquire? && e.key == key && !Taken(Run(init), key, e.now) {
      i := n;
    } else {
      assert n == 0 ==> init == [];
      assert key in Run(init);
      i := StoredIsHeld(init, key, now);
      assert init[..i] == events[..i];
    }
  }

  // ---------- the batch loop ----------

  /** How a Redis call ends for its caller; one that fails may have been applied all the same. */
  datatype Reply = Answered | Failed(applied: bool)

  predicate Applied(r: Reply) {
    r.Answered? || r.applied
  }

  /** An eligible row, and how each call made for it turns out. */
  datatype Item = Item(
    key: string, hasStep: bool, setReply: Reply, account: bool, taskOk: bool, enqueueOk: bool, releaseReply: Reply,
    token: nat, acquireAt: int, releaseAt: int)

  datatype Call =
    | Acquired(key: string, token: nat)
    | Enqueued(key: string)
    | MarkedActive(key: string)
    | Released(key: string, token: nat)

  /** Between an acquisition and the release other schedulers use Redis too: `others` is what they
      do there, item by item. */
  function ItemTable(t: Table, it: Item, others: seq<Event>): Table {
    if !it.hasStep then t
    else
      var set_ := if Applied(it.setReply) then Step(t, Acquire(it.key, it.token, it.acquireAt)) else t;
      if it.setReply.Failed? || Taken(t, it.key, it.acquireAt) then set_
      else
        var meanwhile := Others(set_, others);
        if Applied(it.releaseReply) then Step(meanwhile, Release(it.key, it.token, it.releaseAt)) else meanwhile
  }

  function Others(t: Table, events: seq<Event>): Table {
    if events == [] then t else Step(Others(t, events[..|events| - 1]), events[|events| - 1])
  }

  function BatchTable(t: Table, items: seq<Item>, others: seq<seq<Event>>): Table
    requires |others| == |items|
  {
    if items == [] then t
    else
      var n := |items| - 1;
      ItemTable(BatchTable(t, items[..n], others[..n]), items[n], others[n])
  }

  /** Every acquisition is followed by the release of the same key with the same token before the
      next one, and rows are queued and marked only in between. */
  predicate WellBracketed(calls: seq<Call>, open: Option<Call>) {
    if calls == [] then open.None?
    else
      match calls[0]
      case Acquired(_, _) => open.None? && WellBracketed(calls[1..], Some(calls[0]))
      case Released(k, token) => open == Some(Acquired(k, token)) && WellBracketed(calls[1..], None)
      case Enqueued(k) => open.Some? && open.value.key == k && WellBracketed(calls[1..], open)
      case MarkedActive(k) => open.Some? && open.value.key == k && WellBracketed(calls[1..], open)
  }

  lemma {:induction false} BracketsJoin(a: seq<Call>, b: seq<Call>, open: Option<Call>)
    requires WellBracketed(a, open) && WellBracketed(b, None)
    ensures WellBracketed(a + b, open)
    decreases |a|
  {
    if a == [] {
      assert a + b == b;
    } else {
      assert (a + b)[1..] == a[1..] + b;
      BracketsJoin(a[1..], b, match a[0] case Acquired(_, _) => Some(a[0]) case Released(_, _) => None case _ => open);
    }
  }

  function ItemCalls(it: Item, taken: bool): seq<Call> {
    if !it.hasStep || it.setReply.Failed? || taken then []
    else
      [Acquired(it.key, it.token)]
      + (if it.account && it.taskOk && it.enqueueOk then [Enqueued(it.key), MarkedActive(it.key)] else [])
      + [Released(it.key, it.token)]
  }

  function BatchCalls(t: Table, items: seq<Item>, others: seq<seq<Event>>): seq<Call>
    requires |others| == |items|
  {
    if items == [] then []
    else
      var n := |items| - 1;
      BatchCalls(t, items[..n], others[..n])
      + ItemCalls(items[n], Taken(BatchTable(t, items[..n], others[..n]), items[n].key, items[n].acquireAt))
  }

  lemma BatchStep(t: Table, items: seq<Item>, others: seq<seq<Event>>, i: nat)
    requires |others| == |items| && i < |items|
    ensures var before := BatchTable(t, items[..i], others[..i]);
      && BatchTable(t, items[..i + 1], others[..i + 1]) == ItemTable(before, items[i], others[i])
      && BatchCalls(t, items[..i + 1], others[..i + 1])
         == BatchCalls(t, items[..i], others[..i])
            + ItemCalls(items[i], Taken(before, items[i].key, items[i].acquireAt))
  {
    assert items[..i + 1][..i] == items[..i] && others[..i + 1][..i] == others[..i];
    hide ItemTable, ItemCalls, Taken;
  }

  lemma ItemBracketed(it: Item, taken: bool)
    ensures WellBracketed(ItemCalls(it, taken), None)
  {
    var calls := ItemCalls(it, taken);
    if calls != [] {
      var a, r := Acquired(it.key, it.token), [Released(it.key, it.token)];
      assert r[1..] == [] && WellBracketed(r, Some(a));
      var rest := calls[1..];
      if rest != r {
        assert rest == [Enqueued(it.key), MarkedActive(it.key)] + r;
        assert rest[1..] == [MarkedActive(it.key)] + r;
        assert rest[1..][1..] == r;
      }
    }
  }

  /** The row is queued and marked active exactly when its lock was acquired and everything up to the
      enqueueing went well; marked only once it is queued. */
  lemma MarkedExactly(it: Item, taken: bool)
    ensures var calls := ItemCalls(it, taken);
      var done := it.hasStep && it.setReply.Answered? && !taken && it.account && it.taskOk && it.enqueueOk;
      && (Enqueued(it.key) in calls <==> done) && (MarkedActive(it.key) in calls <==> done)
      && (done ==> calls == [Acquired(it.key, it.token), Enqueued(it.key), MarkedActive(it.key),
                             Released(it.key, it.token)])
  {
  }

  /** The i-th row of the batch got its lock, and everything up to its enqueueing went well. */
  predicate QueuedAt(t: Table, items: seq<Item>, others: seq<seq<Event>>, i: nat)
    requires |others| == |items| && i < |items|
  {
    var it := items[i];
    && it.hasStep && it.setReply.Answered? && it.account && it.taskOk && it.enqueueOk
    && !Taken(BatchTable(t, items[..i], others[..i]), it.key, it.acquireAt)
  }

  /** Over the whole batch: a row is marked active exactly when it is queued, and these are the rows that
      got their lock and met no failure on the way. */
  lemma {:induction false} BatchMarksExactly(t: Table, items: seq<Item>, others: seq<seq<Event>>, key: string)
    requires |others| == |items|
    ensures var calls := BatchCalls(t, items, others);
      && (MarkedActive(key) in calls <==> Enqueued(key) in calls)
      && (MarkedActive(key) in calls
          <==> exists i :: 0 <= i < |items| && items[i].key == key && QueuedAt(t, items, others, i))
  {
    hide BatchTable, Taken, ItemCalls, BatchCalls;
    if items == [] {
      NoCalls(t);
    } else {
      var n := |items| - 1;
      var init, before := items[..n], BatchTable(t, items[..n], others[..n]);
      var taken := Taken(before, items[n].key, items[n].acquireAt);
      BatchMarksExactly(t, init, others[..n], key);
      MarkedExactly(items[n], taken);
      OwnKeyOnly(items[n], taken, key);
      BatchStep(t, items, others, n);
      assert items[..n + 1] == items && others[..n + 1] == others;
      forall i | 0 <= i < n ensures QueuedAt(t, init, others[..n], i) <==> QueuedAt(t, items, others, i) {
        assert init[..i] == items[..i] && others[..n][..i] == others[..i];
      }
    }
  }

  lemma NoCalls(t: Table)
    ensures BatchCalls(t, [], []) == []
  {
  }

  lemma OwnKeyOnly(it: Item, taken: bool, key: string)
    ensures MarkedActive(key) in ItemCalls(it, taken) || Enqueued(key) in ItemCalls(it, taken) ==> key == it.key
  {
  }

  /** What others do meanwhile leaves a lock alone: they only try to take it, or release it with tokens of
      their own, before its lifetime is over. */
  predicate LeaveAlone(others: seq<Event>, l: Lock, key: string) {
    forall i :: 0 <= i < |others| && others[i].key == key ==>
      others[i].now < l.expireAt && (others[i].Release? ==> others[i].token != l.token)
  }

  lemma {:induction false} LeftAlone(t: Table, others: seq<Event>, key: string)
    requires key in t && LeaveAlone(others, t[key], key)
    ensures key in Others(t, others) && Others(t, others)[key] == t[key]
  {
    if others != [] { LeftAlone(t, others[..|others| - 1], key); }
  }

  /** After a row whose lock was acquired, released before its lifetime is over, its key is free again;
      if the release never reached Redis, once the lifetime is over. */
  lemma ItemFrees(t: Table, it: Item, others: seq<Event>, later: int)
    requires it.hasStep && it.setReply.Answered? && !Taken(t, it.key, it.acquireAt)
    requires LeaveAlone(others, Lock(it.token, it.acquireAt + TTL), it.key) && it.releaseAt < it.acquireAt + TTL
    ensures Taken(ItemTable(t, it, others), it.key, later)
      <==> !Applied(it.releaseReply) && later < it.acquireAt + TTL
  {
    LeftAlone(t[it.key := Lock(it.token, it.acquireAt + TTL)], others, it.key);
    hide Others;
  }

  /** A lock set by a call that failed for its caller is left alone: nobody has its token to give
      back, and it keeps the row from every scheduler until its lifetime is over. */
  lemma UnansweredSetBlocks(t: Table, it: Item, others: seq<Event>, later: int)
    requires it.hasStep && it.setReply == Failed(true) && !Taken(t, it.key, it.acquireAt)
    ensures ItemCalls(it, false) == [] && ItemTable(t, it, others)[it.key] == Lock(it.token, it.acquireAt + TTL)
    ensures Taken(ItemTable(t, it, others), it.key, later) <==> later < it.acquireAt + TTL
  {
  }

  class Scheduler {
    var locks: Table
    var calls: seq<Call>

    constructor ()
      ensures locks == map[] && calls == []
    {
      locks, calls := map[], [];
    }

    method AcquireLock(key: string, token: nat, now: int, reply: Reply) returns (acquired: bool, failed: bool)
      modifies this
      ensures failed == reply.Failed? && acquired == (!failed && !Taken(old(locks), key, now))
      ensures locks == if Applied(reply) then Step(old(locks), Acquire(key, token, now)) else old(locks)
      ensures calls == old(calls) + if acquired then [Acquired(key, token)] else []
    {
      var free := key !in locks || now >= locks[key].expireAt;
      if free && Applied(reply) { locks := locks[key := Lock(token, now + TTL)]; }
      if reply.Failed? { return false, true; }
      if free { calls := calls + [Acquired(key, token)]; }
      return free, false;
    }

    method ReleaseLock(key: string, token: nat, now: int, reply: Reply) returns (released: bool)
      modifies this
      ensures released == (reply.Answered? && Taken(old(locks), key, now) && old(locks)[key].token == token)
      ensures locks == if Applied(reply) then Step(old(locks), Release(key, token, now)) else old(locks)
      ensures calls == old(calls) + [Released(key, token)]
    {
      calls := calls + [Released(key, token)];
      var mine := key in locks && now < locks[key].expireAt && locks[key].token == token;
      if mine && Applied(reply) { locks := locks - {key}; }
      return mine && reply.Answered?;
    }

    method Interfere(events: seq<Event>)
      modifies this
      ensures locks == Others(old(locks), events) && calls == old(calls)
    {
      var i := 0;
      while i < |events|
        invariant i <= |events| && locks == Others(old(locks), events[..i]) && calls == old(calls)
      {
        assert events[..i + 1][..i] == events[..i];
        locks := Step(locks, events[i]);
        i := i + 1;
      }
      assert events[..i] == events;
    }

    /** One row of the batch. */
    method ScheduleItem(it: Item, others: seq<Event>)
      modifies this
      ensures locks == ItemTable(old(locks), it, others)
      ensures calls == old(calls) + ItemCalls(it, Taken(old(locks), it.key, it.acquireAt))
    {
      if !it.hasStep { return; }
      var acquired, failed := AcquireLock(it.key, it.token, it.acquireAt, it.setReply);
      if failed || !acquired { return; }
      Interfere(others);
      if !it.account {
        var _ := ReleaseLock(it.key, it.token, it.releaseAt, it.releaseReply);
        return;
      }
      if !it.taskOk {
        var _ := ReleaseLock(it.key, it.token, it.releaseAt, it.releaseReply);
        return;
      }
      if !it.enqueueOk {
        var _ := ReleaseLock(it.key, it.token, it.releaseAt, it.releaseReply);
        return;
      }
      calls := calls + [Enqueued(it.key)];
      calls := calls + [MarkedActive(it.key)];
      var _ := ReleaseLock(it.key, it.token, it.releaseAt, it.releaseReply);
    }

    method PollAndSchedule(items: seq<Item>, others: seq<seq<Event>>)
      requires |others| == |items| && WellBracketed(calls, None)
      modifies this
      ensures locks == BatchTable(old(locks), items, others)
      ensures calls == old(calls) + BatchCalls(old(locks), items, others) && WellBracketed(calls, None)
    {
      hide ItemTable, ItemCalls, Taken, WellBracketed;
      assert calls == old(calls) + BatchCalls(old(locks), items[..0], others[..0]);
      var i := 0;
      while i < |items|
        invariant i <= |items| && locks == BatchTable(old(locks), items[..i], others[..i])
        invariant calls == old(calls) + BatchCalls(old(locks), items[..i], others[..i]) && WellBracketed(calls, None)
      {
        ghost var taken := Taken(locks, items[i].key, items[i].acquireAt);
        ItemBracketed(items[i], taken);
        BracketsJoin(calls, ItemCalls(items[i], taken), None);
        BatchStep(old(locks), items, others, i);
        ScheduleItem(items[i], others[i]);
        i := i + 1;
      }
      assert items[..i] == items && others[..i] == others;
    }
  }
}
