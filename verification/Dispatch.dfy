/** The extension's dispatch lock: a flag in the service worker's memory and a time-limited
    lock in chrome.storage, with any number of dispatch cycles interleaving at their awaits. */
module Dispatch {
  import opened Text

  /** How long a stored lock keeps other cycles out: JOB_TIMEOUT_MS plus a minute (microseconds). */
  const LOCK_TTL: int := (300_000 + 60_000) * 1000

  /** Where a cycle stands; it awaits a storage callback, a fetch, or the content script. */
  datatype Phase =
    | Reading(start: int)                     // the stored lock has been asked for
    | Sampled(start: int, lock: Option<int>)  // its value was read; the callback has not run
    | Locking(start: int)                     // past the gate; the lock is being written
    | Locked(start: int)                      // the lock is written; pairing is read, jobs are polled
    | Working(start: int)                     // a job was fetched
    | Reporting(start: int)                   // its report was sent; the response is awaited

  /** Storage requests are served in the order they were issued. */
  datatype Op = Get(pid: nat) | Set(pid: nat, since: int) | Remove

  datatype Worker = Worker(
    dispatching: bool,           // the flag in memory
    lock: Option<int>,           // dispatch_lock.since in storage
    queue: seq<Op>,              // storage requests not yet served
    cycles: map<nat, Phase>,     // the cycles of the running service worker
    nextPid: nat)

  predicate PastGate(ph: Phase) {
    !ph.Reading? && !ph.Sampled?
  }

  // ---------- the code between awaits ----------

  /** A timer, the alarm or DISPATCH_NOW calls dispatchNextJob. */
  function Invoke(w: Worker, now: int): Worker {
    w.(queue := w.queue + [Get(w.nextPid)],
       cycles := w.cycles[w.nextPid := Reading(now)],
       nextPid := w.nextPid + 1)
  }

  function Serve(w: Worker): Worker {
    if w.queue == [] then w
    else
      var rest := w.(queue := w.queue[1..]);
      match w.queue[0]
      case Get(p) =>
        if p in w.cycles && w.cycles[p].Reading?
        then rest.(cycles := w.cycles[p := Sampled(w.cycles[p].start, w.lock)]) else rest
      case Set(p, since) =>
        var set_ := rest.(lock := Some(since));
        if p in w.cycles && w.cycles[p].Locking?
        then set_.(cycles := w.cycles[p := Locked(w.cycles[p].start)]) else set_
      case Remove => rest.(lock := None)
  }

  predicate GateOpen(w: Worker, ph: Phase)
    requires ph.Sampled?
  {
    !w.dispatching && (ph.lock.None? || ph.start - ph.lock.value >= LOCK_TTL)
  }

  /** The callback of the lock's read: give up, or raise the flag and ask for the lock. */
  function Gate(w: Worker, p: nat): Worker {
    if p !in w.cycles || !w.cycles[p].Sampled? then w
    else if !GateOpen(w, w.cycles[p]) then w.(cycles := w.cycles - {p})
    else
      var start := w.cycles[p].start;
      w.(dispatching := true, queue := w.queue + [Set(p, start)], cycles := w.cycles[p := Locking(start)])
  }

  function Fetched(w: Worker, p: nat): Worker {
    if p in w.cycles && w.cycles[p].Locked? then w.(cycles := w.cycles[p := Working(w.cycles[p].start)]) else w
  }

  function Reported(w: Worker, p: nat): Worker {
    if p in w.cycles && w.cycles[p].Working? then w.(cycles := w.cycles[p := Reporting(w.cycles[p].start)]) else w
  }

  /** The early exit and the finally block: drop the flag and ask for the lock's removal. */
  function Finish(w: Worker, p: nat): Worker {
    if p in w.cycles && PastGate(w.cycles[p]) && !w.cycles[p].Locking?
    then w.(dispatching := false, queue := w.queue + [Remove], cycles := w.cycles - {p})
    else w
  }

  /** The browser stops the service worker and starts it again: memory is lost, storage and
      its pending requests are not. */
  function Restart(w: Worker): Worker {
    w.(dispatching := false, cycles := map[])
  }

  // ---------- the lock discipline ----------

  function LockAfter(lock: Option<int>, ops: seq<Op>): Option<int>
    decreases |ops|
  {
    if ops == [] then lock
    else
      LockAfter(match ops[0] case Get(_) => lock case Set(_, s) => Some(s) case Remove => None, ops[1..])
  }

  function Served(lock: Option<int>, op: Op): Option<int> {
    match op case Get(_) => lock case Set(_, s) => Some(s) case Remove => None
  }

  lemma {:induction false} LockAfterAppend(lock: Option<int>, ops: seq<Op>, op: Op)
    ensures LockAfter(lock, ops + [op]) == Served(LockAfter(lock, ops), op)
    decreases |ops|
  {
    if ops == [] {
      assert ops + [op] == [op];
    } else {
      assert (ops + [op])[1..] == ops[1..] + [op];
      LockAfterAppend(Served(lock, ops[0]), ops[1..], op);
    }
  }

  /** From position i on, the queue only reads. */
  predicate OnlyGetsFrom(ops: seq<Op>, i: int) {
    forall j :: i <= j < |ops| && 0 <= j ==> ops[j].Get?
  }

  lemma {:induction false} LockAfterGets(lock: Option<int>, ops: seq<Op>)
    requires OnlyGetsFrom(ops, 0)
    ensures LockAfter(lock, ops) == lock
    decreases |ops|
  {
    if ops != [] { LockAfterGets(lock, ops[1..]); }
  }

  /** The cycle that holds the gate: its lock is stored, or will be once storage has caught up,
      and nothing behind it in the queue touches the lock. */
  ghost predicate Holds(w: Worker, p: nat)
    requires p in w.cycles
  {
    var ph := w.cycles[p];
    if ph.Locking? then
      && LockAfter(w.lock, w.queue) == Some(ph.start)
      && forall i :: 0 <= i < |w.queue| && w.queue[i].Set? && w.queue[i].pid == p ==>
           w.queue[i].since == ph.start && OnlyGetsFrom(w.queue, i + 1)
    else w.lock == Some(ph.start) && OnlyGetsFrom(w.queue, 0)
  }

  /** After a restart cut a dispatch short, until a new one begins: whatever live cycle reads
      the lock finds the one left behind. */
  ghost predicate LeftBehind(w: Worker, since: int) {
    && LockAfter(w.lock, w.queue) == Some(since)
    && (forall i :: 0 <= i < |w.queue| && w.queue[i].Get? && w.queue[i].pid in w.cycles ==> OnlyGetsFrom(w.queue, i))
    && (forall p :: p in w.cycles && w.cycles[p].Sampled? ==> w.cycles[p].lock == Some(since))
  }

  datatype Cut = Cut(pid: nat, start: int)

  /** History: the cycle past the gate, and the last dispatch cut short since none began. */
  datatype Past = Past(holder: Option<nat>, cut: Option<Cut>)

  ghost predicate Disciplined(w: Worker, h: Past, now: int) {
    && (forall p :: p in w.cycles ==> p < w.nextPid && w.cycles[p].start <= now)
    && (forall i :: 0 <= i < |w.queue| && !w.queue[i].Remove? ==> w.queue[i].pid < w.nextPid)
    && (forall i :: 0 <= i < |w.queue| && w.queue[i].Set? && w.queue[i].pid in w.cycles ==>
          PastGate(w.cycles[w.queue[i].pid]))
    && (forall p :: p in w.cycles ==> (PastGate(w.cycles[p]) <==> h.holder == Some(p)))
    && (w.dispatching <==> h.holder.Some?)
    && (h.holder.Some? ==> h.cut.None? && h.holder.value in w.cycles && Holds(w, h.holder.value))
    && (h.cut.Some? ==>
          h.cut.value.pid < w.nextPid && h.cut.value.pid !in w.cycles && LeftBehind(w, h.cut.value.start))
  }

  function PastAfterGate(w: Worker, h: Past, p: nat): Past {
    if p in w.cycles && w.cycles[p].Sampled? && GateOpen(w, w.cycles[p]) then Past(Some(p), None) else h
  }

  function PastAfterFinish(w: Worker, h: Past, p: nat): Past {
    if Finish(w, p) == w then h else Past(None, None)
  }

  function PastAfterRestart(w: Worker, h: Past): Past {
    if h.holder.Some? && h.holder.value in w.cycles
    then Past(None, Some(Cut(h.holder.value, w.cycles[h.holder.value].start))) else h
  }

  lemma InvokeDisciplined(w: Worker, h: Past, now: int)
    requires Disciplined(w, h, now)
    ensures Disciplined(Invoke(w, now), h, now)
  {
    LockAfterAppend(w.lock, w.queue, Get(w.nextPid));
  }

  lemma ServeDisciplined(w: Worker, h: Past, now: int)
    requires Disciplined(w, h, now)
    ensures Disciplined(Serve(w), h, now)
  {
    if w.queue != [] {
      var w' := Serve(w);
      var op := w.queue[0];
      assert w'.lock == Served(w.lock, op);
      assert forall i :: 0 <= i < |w'.queue| ==> w'.queue[i] == w.queue[i + 1];
      ServeHolder(w, h, now);
      ServeCut(w, h, now);
    }
  }

  lemma ServeHolder(w: Worker, h: Past, now: int)
    requires Disciplined(w, h, now) && w.queue != []
    ensures h.holder.Some? ==> h.holder.value in Serve(w).cycles && Holds(Serve(w), h.holder.value)
  {
    var w' := Serve(w);
    assert forall i :: 0 <= i < |w'.queue| ==> w'.queue[i] == w.queue[i + 1];
    assert LockAfter(w'.lock, w'.queue) == LockAfter(w.lock, w.queue);
  }

  lemma ServeCut(w: Worker, h: Past, now: int)
    requires Disciplined(w, h, now) && w.queue != []
    ensures h.cut.Some? ==> LeftBehind(Serve(w), h.cut.value.start)
  {
    var w' := Serve(w);
    assert forall i :: 0 <= i < |w'.queue| ==> w'.queue[i] == w.queue[i + 1];
    assert LockAfter(w'.lock, w'.queue) == LockAfter(w.lock, w.queue);
    if h.cut.Some? && w.queue[0].Get? && w.queue[0].pid in w.cycles {
      LockAfterGets(w.lock, w.queue);
    }
  }

  lemma GateDisciplined(w: Worker, h: Past, now: int, p: nat)
    requires Disciplined(w, h, now)
    ensures Disciplined(Gate(w, p), PastAfterGate(w, h, p), now)
  {
    if p in w.cycles && w.cycles[p].Sampled? && GateOpen(w, w.cycles[p]) {
      LockAfterAppend(w.lock, w.queue, Set(p, w.cycles[p].start));
    }
  }

  lemma FinishDisciplined(w: Worker, h: Past, now: int, p: nat)
    requires Disciplined(w, h, now)
    ensures Disciplined(Finish(w, p), PastAfterFinish(w, h, p), now)
  {
  }

  lemma RestartDisciplined(w: Worker, h: Past, now: int)
    requires Disciplined(w, h, now)
    ensures Disciplined(Restart(w), PastAfterRestart(w, h), now)
  {
    if h.holder.Some? && !w.cycles[h.holder.value].Locking? { LockAfterGets(w.lock, w.queue); }
  }

  lemma ProgressDisciplined(w: Worker, h: Past, now: int, later: int, p: nat)
    requires Disciplined(w, h, now) && now <= later
    ensures Disciplined(w, h, later) && Disciplined(Fetched(w, p), h, now) && Disciplined(Reported(w, p), h, now)
  {
  }

  /** Mutual exclusion: however cycles interleave, at most one is past the gate. */
  lemma OneDispatchAtATime(w: Worker, h: Past, now: int, p: nat, q: nat)
    requires Disciplined(w, h, now)
    requires p in w.cycles && q in w.cycles && PastGate(w.cycles[p]) && PastGate(w.cycles[q])
    ensures p == q && w.dispatching
  {
  }

  /** After one was cut short, a dispatch gets through exactly when it started no sooner than the lock's
      lifetime after the start of the other: the lock left behind delays, but never blocks for good. */
  lemma NewDispatchExactly(w: Worker, h: Past, now: int, p: nat)
    requires Disciplined(w, h, now) && h.cut.Some?
    requires p in w.cycles && w.cycles[p].Sampled?
    ensures GateOpen(w, w.cycles[p]) <==> h.cut.value.start + LOCK_TTL <= w.cycles[p].start
    ensures w.cycles[p].start <= now
  {
  }

  // ---------- the service worker ----------

  /** The service worker's memory and storage; each method is the code one callback runs up to
      its next await. */
  class ServiceWorker {
    var dispatching: bool
    var lock: Option<int>
    var queue: seq<Op>
    var cycles: map<nat, Phase>
    var nextPid: nat

    function View(): Worker
      reads this
    {
      Worker(dispatching, lock, queue, cycles, nextPid)
    }

    constructor ()
      ensures View() == Worker(false, None, [], map[], 0)
    {
      dispatching, lock, queue, cycles, nextPid := false, None, [], map[], 0;
    }

    method DispatchNextJob(now: int) returns (p: nat)
      modifies this
      ensures p == old(nextPid) && View() == Invoke(old(View()), now)
    {
      p := nextPid;
      cycles := cycles[p := Reading(now)];
      queue := queue + [Get(p)];
      nextPid := p + 1;
    }

    method ServeStorage()
      modifies this
      ensures View() == Serve(old(View()))
    {
      if queue == [] { return; }
      var op := queue[0];
      queue := queue[1..];
      match op
      case Get(p) =>
        if p in cycles && cycles[p].Reading? { cycles := cycles[p := Sampled(cycles[p].start, lock)]; }
      case Set(p, since) =>
        lock := Some(since);
        if p in cycles && cycles[p].Locking? { cycles := cycles[p := Locked(cycles[p].start)]; }
      case Remove =>
        lock := None;
    }

    method OnLockRead(p: nat) returns (entered: bool)
      requires p in cycles && cycles[p].Sampled?
      modifies this
      ensures entered == GateOpen(old(View()), old(cycles[p]))
      ensures View() == Gate(old(View()), p)
    {
      var start, seen := cycles[p].start, cycles[p].lock;
      if seen.Some? && start - seen.value < LOCK_TTL {
        cycles := cycles - {p};
        return false;
      }
      if dispatching {
        cycles := cycles - {p};
        return false;
      }
      dispatching := true;
      queue := queue + [Set(p, start)];
      cycles := cycles[p := Locking(start)];
      return true;
    }

    method Release(p: nat)
      requires p in cycles && PastGate(cycles[p]) && !cycles[p].Locking?
      modifies this
      ensures View() == Finish(old(View()), p)
    {
      dispatching := false;
      queue := queue + [Remove];
      cycles := cycles - {p};
    }
  }
}
