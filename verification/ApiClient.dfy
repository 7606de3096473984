/** The panel's API client: requests that run concurrently share one refresh of the session. */
module ApiClient {
  import opened Text

  /** refreshInFlight's promises, in order of creation; `sent` is the refresh token posted. */
  datatype Promise = Pending(sent: nat) | Settled(result: Option<nat>)

  /** What a refresh fetch brings: a new pair, or anything else (an error status, no token, a
      network failure). */
  datatype Answer = NewPair(access: nat, refresh: nat) | NoPair

  datatype Status = Fine | Unauthorized | OtherError

  /** A request: waiting for its response, for a refresh (`creator` if it started it), or over. */
  datatype Request =
    | Fetching(auth: bool, retried: bool, fetches: nat)
    | Waiting(promise: nat, creator: bool, fetches: nat)
    | Done(succeeded: bool, fetches: nat)

  datatype Client = Client(
    token: Option<nat>,           // the access token in memory
    stored: Option<nat>,          // the refresh token in localStorage
    inFlight: Option<nat>,        // refreshInFlight
    promises: seq<Promise>,
    requests: seq<Request>)

  datatype Event =
    | Send(auth: bool)                                   // a call; auth if its path is under /auth/
    | Respond(rid: nat, status: Status)
    | Refreshed(i: nat, answer: Answer, kept: bool)      // kept: localStorage took the pair
    | Resume(rid: nat)                                   // the await on the promise continues

  // ---------- the code between awaits ----------

  function Step(c: Client, e: Event): Client {
    match e
    case Send(auth) => c.(requests := c.requests + [Fetching(auth, false, 1)])
    case Respond(rid, status) =>
      if rid >= |c.requests| || !c.requests[rid].Fetching? then c else Responded(c, rid, status)
    case Refreshed(i, answer, kept) =>
      if i >= |c.promises| || !c.promises[i].Pending? then c else RefreshDone(c, i, answer, kept)
    case Resume(rid) =>
      if rid < |c.requests| && c.requests[rid].Waiting? && c.requests[rid].promise < |c.promises|
         && c.promises[c.requests[rid].promise].Settled?
      then Resumed(c, rid) else c
  }

  function Responded(c: Client, rid: nat, status: Status): Client
    requires rid < |c.requests| && c.requests[rid].Fetching?
  {
    var r := c.requests[rid];
    if status == Unauthorized && !r.retried && !r.auth then TryRefresh(c, rid)
    else c.(requests := c.requests[rid := Done(status == Fine, r.fetches)])
  }

  /** Join the refresh in flight or start one; without a stored token it settles at once. */
  function TryRefresh(c: Client, rid: nat): Client
    requires rid < |c.requests|
  {
    var f := c.requests[rid].fetches;
    if c.inFlight.Some? then c.(requests := c.requests[rid := Waiting(c.inFlight.value, false, f)])
    else
      c.(promises := c.promises + [if c.stored.Some? then Pending(c.stored.value) else Settled(None)],
         inFlight := Some(|c.promises|),
         requests := c.requests[rid := Waiting(|c.promises|, true, f)])
  }

  function RefreshDone(c: Client, i: nat, answer: Answer, kept: bool): Client
    requires i < |c.promises|
  {
    match answer
    case NoPair => c.(promises := c.promises[i := Settled(None)])
    case NewPair(access, refresh) =>
      c.(promises := c.promises[i := Settled(Some(access))],
         token := Some(access),
         stored := if kept then Some(refresh) else c.stored)
  }

  /** The request that started the refresh clears it; each request repeats once or fails. */
  function Resumed(c: Client, rid: nat): Client
    requires rid < |c.requests| && c.requests[rid].Waiting?
    requires c.requests[rid].promise < |c.promises| && c.promises[c.requests[rid].promise].Settled?
  {
    var r := c.requests[rid];
    var next :=
      if c.promises[r.promise].result.Some? then Fetching(false, true, r.fetches + 1) else Done(false, r.fetches);
    c.(inFlight := if r.creator then None else c.inFlight, requests := c.requests[rid := next])
  }

  // ---------- what every interleaving keeps ----------

  predicate RequestOk(c: Client, r: Request) {
    match r
    case Fetching(auth, retried, f) => f == (if retried then 2 else 1) && !(auth && retried)
    case Waiting(p, creator, f) => f == 1 && p < |c.promises| && (creator ==> c.inFlight == Some(p))
    case Done(_, f) => 1 <= f <= 2
  }

  predicate Creates(c: Client, rid: nat) {
    rid < |c.requests| && c.requests[rid].Waiting? && c.requests[rid].creator
  }

  ghost predicate ClientOk(c: Client) {
    && (forall i :: 0 <= i < |c.promises| && c.promises[i].Pending? ==> c.inFlight == Some(i))
    && (c.inFlight.Some? ==> c.inFlight.value < |c.promises| && exists rid: nat :: Creates(c, rid))
    && (forall r1: nat, r2: nat :: Creates(c, r1) && Creates(c, r2) ==> r1 == r2)
    && (forall rid :: 0 <= rid < |c.requests| ==> RequestOk(c, c.requests[rid]))
  }

  lemma ClientKept(c: Client, e: Event)
    requires ClientOk(c)
    ensures ClientOk(Step(c, e))
  {
    hide ClientOk;
    match e
    case Send(auth) => SendKept(c, auth);
    case Respond(rid, status) =>
      if rid < |c.requests| && c.requests[rid].Fetching? { RespondedKept(c, rid, status); }
    case Refreshed(i, answer, kept) =>
      if i < |c.promises| && c.promises[i].Pending? { RefreshDoneKept(c, i, answer, kept); }
    case Resume(rid) =>
      if rid < |c.requests| && c.requests[rid].Waiting? && c.requests[rid].promise < |c.promises|
         && c.promises[c.requests[rid].promise].Settled? { ResumedKept(c, rid); }
  }

  lemma SendKept(c: Client, auth: bool)
    requires ClientOk(c)
    ensures ClientOk(Step(c, Send(auth)))
  {
    var c' := Step(c, Send(auth));
    assert forall rid: nat :: Creates(c', rid) <==> Creates(c, rid);
    assert forall rid :: 0 <= rid < |c.requests| ==> RequestOk(c, c.requests[rid]);
  }

  lemma RespondedKept(c: Client, rid: nat, status: Status)
    requires ClientOk(c) && rid < |c.requests| && c.requests[rid].Fetching?
    ensures ClientOk(Responded(c, rid, status))
  {
    var c' := Responded(c, rid, status);
    assert forall r: nat :: Creates(c, r) ==> RequestOk(c, c.requests[r]);
    assert forall r: nat :: Creates(c, r) ==> Creates(c', r);
    assert forall r: nat :: Creates(c', r) ==> Creates(c, r) || (r == rid && c.inFlight.None?);
    assert c'.inFlight != c.inFlight ==> Creates(c', rid);
    assert RequestOk(c, c.requests[rid]);
  }

  lemma RefreshDoneKept(c: Client, i: nat, answer: Answer, kept: bool)
    requires ClientOk(c) && i < |c.promises| && c.promises[i].Pending?
    ensures ClientOk(RefreshDone(c, i, answer, kept))
  {
    assert forall r: nat :: Creates(RefreshDone(c, i, answer, kept), r) <==> Creates(c, r);
  }

  lemma ResumedKept(c: Client, rid: nat)
    requires ClientOk(c) && rid < |c.requests| && c.requests[rid].Waiting?
    requires c.requests[rid].promise < |c.promises| && c.promises[c.requests[rid].promise].Settled?
    ensures ClientOk(Resumed(c, rid))
  {
    var c' := Resumed(c, rid);
    assert RequestOk(c, c.requests[rid]);
    assert forall r: nat :: Creates(c', r) <==> Creates(c, r) && r != rid;
    if c.requests[rid].creator { assert Creates(c, rid); }
    forall r | 0 <= r < |c.requests|
      ensures RequestOk(c', c'.requests[r])
    {
      assert RequestOk(c, c.requests[r]);
      if c.requests[rid].creator && r != rid { assert !Creates(c, r); }
    }
  }

  function Run(c: Client, events: seq<Event>): Client {
    if events == [] then c else Step(Run(c, events[..|events| - 1]), events[|events| - 1])
  }

  function Fresh(token: Option<nat>, stored: Option<nat>): Client {
    Client(token, stored, None, [], [])
  }

  lemma {:induction false} RunKept(c: Client, events: seq<Event>)
    requires ClientOk(c)
    ensures ClientOk(Run(c, events))
  {
    if events != [] {
      RunKept(c, events[..|events| - 1]);
      ClientKept(Run(c, events[..|events| - 1]), events[|events| - 1]);
    }
  }

  /** Whatever the interleaving, one refresh is outstanding at most, no request is fetched more
      than twice, and a request that waits can go on: its refresh is the one outstanding or settled. */
  lemma OneRefreshTwoFetches(token: Option<nat>, stored: Option<nat>, events: seq<Event>, i: nat, j: nat, rid: nat)
    ensures var c := Run(Fresh(token, stored), events);
      && (i < |c.promises| && j < |c.promises| && c.promises[i].Pending? && c.promises[j].Pending? ==> i == j)
      && (rid < |c.requests| ==> 1 <= c.requests[rid].fetches <= 2)
      && (rid < |c.requests| && c.requests[rid].Waiting? ==>
            var p := c.requests[rid].promise;
            p < |c.promises| && (c.promises[p].Settled? || c.inFlight == Some(p)))
  {
    RunKept(Fresh(token, stored), events);
    var c := Run(Fresh(token, stored), events);
    if rid < |c.requests| { assert RequestOk(c, c.requests[rid]); }
  }

  // ---------- how a request ends ----------

  predicate Finished(c: Client, rid: nat) {
    rid < |c.requests| && c.requests[rid].Done?
  }

  /** The response that ends the request: to its fetch under way, and no 401 that still allows a refresh. */
  predicate EndsBy(c: Client, e: Event, rid: nat) {
    && e.Respond? && e.rid == rid && rid < |c.requests| && c.requests[rid].Fetching?
    && (e.status != Unauthorized || c.requests[rid].retried || c.requests[rid].auth)
  }

  /** The refresh it waited for brought nothing. */
  predicate GivesUp(c: Client, e: Event, rid: nat) {
    && e == Resume(rid) && rid < |c.requests| && c.requests[rid].Waiting?
    && c.requests[rid].promise < |c.promises| && c.promises[c.requests[rid].promise] == Settled(None)
  }

  /** A request ends with such a response, in success exactly if that is fine, or in failure with a refresh
      that brought nothing; and once over it stays as it is. */
  lemma EndsExactly(c: Client, e: Event, rid: nat)
    requires rid < |c.requests|
    ensures rid < |Step(c, e).requests|
    ensures var r' := Step(c, e).requests[rid];
      if c.requests[rid].Done? then r' == c.requests[rid]
      else
        && (r'.Done? <==> EndsBy(c, e, rid) || GivesUp(c, e, rid))
        && (r'.Done? ==>
              r'.fetches == c.requests[rid].fetches && (r'.succeeded <==> EndsBy(c, e, rid) && e.status == Fine))
  {
  }

  /** A request succeeds exactly when, at some moment of the run, the fetch it had under way was answered
      well. */
  lemma {:induction false} SucceedsExactly(c: Client, events: seq<Event>, rid: nat)
    requires |c.requests| == 0
    ensures Finished(Run(c, events), rid) && Run(c, events).requests[rid].succeeded
      <==> exists i :: 0 <= i < |events|
             && events[i] == Respond(rid, Fine) && EndsBy(Run(c, events[..i]), events[i], rid)
  {
    if events != [] {
      var n := |events| - 1;
      var init, e := events[..n], events[n];
      SucceedsExactly(c, init, rid);
      var before := Run(c, init);
      hide EndsBy, GivesUp, Step, Run;
      RunLast(c, events);
      assert forall i :: 0 <= i < n ==> init[..i] == events[..i];
      if rid < |before.requests| {
        EndsExactly(before, e, rid);
        FineIsFine(before, e, rid);
      } else {
        NotYetSent(before, e, rid);
      }
    }
  }

  lemma RunLast(c: Client, events: seq<Event>)
    requires events != []
    ensures Run(c, events) == Step(Run(c, events[..|events| - 1]), events[|events| - 1])
  {
  }

  lemma FineIsFine(c: Client, e: Event, rid: nat)
    ensures EndsBy(c, e, rid) ==> e.Respond? && e.rid == rid && !Finished(c, rid)
  {
  }

  lemma NotYetSent(c: Client, e: Event, rid: nat)
    requires rid >= |c.requests|
    ensures !Finished(Step(c, e), rid) && !EndsBy(c, e, rid)
  {
  }

  // ---------- the client object ----------

  /** Each method is the code one continuation runs up to its next await. */
  class VibexApiClient {
    var token: Option<nat>
    var stored: Option<nat>
    var refreshInFlight: Option<nat>
    var promises: seq<Promise>
    var requests: seq<Request>

    function View(): Client
      reads this
    {
      Client(token, stored, refreshInFlight, promises, requests)
    }

    constructor (t: Option<nat>, s: Option<nat>)
      ensures View() == Fresh(t, s)
    {
      token, stored, refreshInFlight, promises, requests := t, s, None, [], [];
    }

    method BeginRequest(auth: bool) returns (rid: nat)
      modifies this
      ensures rid == |old(requests)| && View() == Step(old(View()), Send(auth))
    {
      rid := |requests|;
      requests := requests + [Fetching(auth, false, 1)];
    }

    method StartOrJoinRefresh(rid: nat)
      requires rid < |requests| && requests[rid].Fetching?
      modifies this
      ensures View() == TryRefresh(old(View()), rid)
    {
      var f := requests[rid].fetches;
      if refreshInFlight.Some? {
        requests := requests[rid := Waiting(refreshInFlight.value, false, f)];
        return;
      }
      var i := |promises|;
      if stored.Some? {
        promises := promises + [Pending(stored.value)];
      } else {
        promises := promises + [Settled(None)];
      }
      refreshInFlight := Some(i);
      requests := requests[rid := Waiting(i, true, f)];
    }

    method OnResponse(rid: nat, status: Status)
      requires rid < |requests| && requests[rid].Fetching?
      modifies this
      ensures View() == Step(old(View()), Respond(rid, status))
    {
      var r := requests[rid];
      if status == Unauthorized && !r.retried && !r.auth {
        StartOrJoinRefresh(rid);
      } else {
        requests := requests[rid := Done(status == Fine, r.fetches)];
      }
    }

    method OnRefreshAnswer(i: nat, answer: Answer, kept: bool)
      requires i < |promises| && promises[i].Pending?
      modifies this
      ensures View() == Step(old(View()), Refreshed(i, answer, kept))
    {
      if answer.NoPair? {
        promises := promises[i := Settled(None)];
        return;
      }
      token := Some(answer.access);
      if kept { stored := Some(answer.refresh); }
      promises := promises[i := Settled(Some(answer.access))];
    }

    method OnRefreshSettled(rid: nat)
      requires rid < |requests| && requests[rid].Waiting?
      requires requests[rid].promise < |promises| && promises[requests[rid].promise].Settled?
      modifies this
      ensures View() == Step(old(View()), Resume(rid))
    {
      var r := requests[rid];
      if r.creator { refreshInFlight := None; }
      if promises[r.promise].result.Some? {
        requests := requests[rid := Fetching(false, true, r.fetches + 1)];
      } else {
        requests := requests[rid := Done(false, r.fetches)];
      }
    }
  }
}
