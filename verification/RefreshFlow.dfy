/** One panel client and the backend together: every refresh the client posts is a rotation there,
    and a post may fail at the client while it is still under way. */
module RefreshFlow {
  import opened Text
  import C = ApiClient
  import S = Sessions

  /** `posts` are the refresh requests sent, by the promise that waits for them, with the token they
      carry; `arrived` those that have reached the backend or never will. `lost` says that a token
      was revoked and the pair replacing it was not made, not kept, or not awaited; `out` that
      somebody signed out. */
  datatype System = System(
    now: int, c: C.Client, s: S.Server, posts: map<nat, nat>, arrived: set<nat>, answers: map<nat, C.Answer>,
    lost: bool, out: bool)

  datatype Event =
    | Elapses(micros: nat)
    | Calls(auth: bool)
    | Responds(rid: nat, status: C.Status)
    | Resumes(rid: nat)
    | Arrives(i: nat)
    | Vanishes(i: nat)                  // the network loses the post
    | Revokes(i: nat)
    | StoresAccess(i: nat, access: nat)
    | StoresRefresh(i: nat, refresh: nat)
    | Fails(i: nat)
    | Answered(i: nat, kept: bool)
    | Drops(i: nat)                     // the post fails at the client, whatever becomes of it
    | SignsOut(logins: set<nat>)

  predicate Outstanding(sys: System, i: nat) {
    i < |sys.c.promises| && sys.c.promises[i].Pending?
  }

  predicate HasPair(sys: System, i: nat) {
    i in sys.answers && sys.answers[i].NewPair?
  }

  /** The rotation is past revoking its token, and not over. */
  predicate MidWay(sys: System, i: nat) {
    i in sys.s.inFlight && !sys.s.inFlight[i].Looked?
  }

  /** A new promise that is not settled at once has posted its token. */
  function WithClient(sys: System, c: C.Client): System {
    var n := |sys.c.promises|;
    sys.(c := c,
         posts := if |c.promises| > n && c.promises[n].Pending? then sys.posts[n := c.promises[n].sent] else sys.posts)
  }

  function Step(sys: System, e: Event): System {
    match e
    case Elapses(d) => sys.(now := sys.now + d)
    case Calls(auth) => WithClient(sys, C.Step(sys.c, C.Send(auth)))
    case Responds(rid, status) => WithClient(sys, C.Step(sys.c, C.Respond(rid, status)))
    case Resumes(rid) => WithClient(sys, C.Step(sys.c, C.Resume(rid)))
    case Arrives(i) =>
      if i !in sys.posts || i in sys.arrived then sys
      else
        var s' := S.Step(sys.s, S.Lookup(i, sys.posts[i], sys.now));
        sys.(s := s', arrived := sys.arrived + {i},
             answers := if i in s'.inFlight then sys.answers else sys.answers[i := C.NoPair])
    case Vanishes(i) =>
      if i !in sys.posts || i in sys.arrived then sys else sys.(arrived := sys.arrived + {i})
    case Revokes(i) =>
      sys.(s := S.Step(sys.s, S.Revoke(i)),
           lost := sys.lost || (i in sys.s.inFlight && sys.s.inFlight[i].Looked? && !Outstanding(sys, i)))
    case StoresAccess(i, access) => sys.(s := S.Step(sys.s, S.IssueAccess(i, access, sys.now)))
    case StoresRefresh(i, refresh) =>
      var s' := S.Step(sys.s, S.IssueRefresh(i, refresh, sys.now));
      if i in sys.s.inFlight && sys.s.inFlight[i].Granted? && i !in s'.inFlight
      then sys.(s := s', answers := sys.answers[i := C.NewPair(sys.s.inFlight[i].access, refresh)])
      else sys
    case Fails(i) =>
      if i !in sys.s.inFlight then sys
      else
        sys.(s := S.Step(sys.s, S.Abort(i)), answers := sys.answers[i := C.NoPair], lost := sys.lost || MidWay(sys, i))
    case Answered(i, kept) =>
      if !Outstanding(sys, i) || i !in sys.answers then sys
      else sys.(c := C.Step(sys.c, C.Refreshed(i, sys.answers[i], kept)),
                lost := sys.lost || (HasPair(sys, i) && !kept))
    case Drops(i) =>
      if !Outstanding(sys, i) then sys
      else sys.(c := C.Step(sys.c, C.Refreshed(i, C.NoPair, false)),
                lost := sys.lost || HasPair(sys, i) || MidWay(sys, i))
    case SignsOut(logins) => sys.(s := S.Step(sys.s, S.SignOut(logins)), out := true)
  }

  /** The backend's part of a step. */
  function ServerEvent(sys: System, e: Event): Option<S.Event> {
    match e
    case Arrives(i) =>
      if i in sys.posts && i !in sys.arrived then Some(S.Lookup(i, sys.posts[i], sys.now)) else None
    case Revokes(i) => Some(S.Revoke(i))
    case StoresAccess(i, access) => Some(S.IssueAccess(i, access, sys.now))
    case StoresRefresh(i, refresh) => Some(S.IssueRefresh(i, refresh, sys.now))
    case Fails(i) => Some(S.Abort(i))
    case SignsOut(logins) => Some(S.SignOut(logins))
    case _ => None
  }

  predicate Overlaps(sys: System, e: Event) {
    ServerEvent(sys, e).Some? && S.Overlaps(sys.s, ServerEvent(sys, e).value)
  }

  // ---------- the invariant ----------

  /** The post may still be looked up, or has been and its token is not revoked yet. */
  predicate Loose(sys: System, i: nat) {
    i in sys.posts && (i !in sys.arrived || (i in sys.s.inFlight && sys.s.inFlight[i].Looked?))
  }

  /** The post fails at the client while its token is good and it is on the wire, or its rotation
      has not revoked the token. */
  predicate FailsEarly(sys: System, e: Event) {
    e.Drops? && Outstanding(sys, e.i) && Loose(sys, e.i) && S.Accepts(sys.s, sys.posts[e.i], sys.now)
  }

  /** The backend rotates what was posted, and answers when it is done. */
  ghost predicate Rotating(sys: System) {
    && (forall i :: i in sys.s.inFlight ==> i in sys.arrived && i !in sys.answers)
    && (forall i :: i in sys.s.inFlight && sys.s.inFlight[i].Looked? ==>
          i in sys.posts && sys.s.inFlight[i].token == sys.posts[i])
    && (forall i :: i in sys.answers ==> i in sys.arrived)
    && (forall i :: i in sys.arrived ==> i in sys.posts)
  }

  /** Tokens posted, stored or answered are known to the backend; the post awaited carries the
      stored one. */
  ghost predicate Posted(sys: System) {
    && (forall i :: i in sys.posts ==> i < |sys.c.promises| && sys.posts[i] in sys.s.sessions)
    && (sys.c.stored.Some? ==> sys.c.stored.value in sys.s.sessions)
    && (forall i :: i in sys.answers && sys.answers[i].NewPair? ==> sys.answers[i].refresh in sys.s.sessions)
    && (forall i: nat :: Outstanding(sys, i) ==>
          i in sys.posts && sys.posts[i] == sys.c.promises[i].sent && sys.c.stored == Some(sys.posts[i]))
  }

  /** Only the post the client waits for can still have its token accepted. */
  ghost predicate LooseAwaited(sys: System) {
    forall i :: Loose(sys, i) ==> Outstanding(sys, i) || !S.Accepts(sys.s, sys.posts[i], sys.now)
  }

  predicate Current(sys: System, t: nat) {
    S.Usable(sys.s, t) && sys.s.sessions[t].login == 0
  }

  /** The refresh the client waits for has got past revoking the stored token. */
  ghost predicate Moving(sys: System) {
    exists i: nat :: Outstanding(sys, i) && (HasPair(sys, i) || MidWay(sys, i))
  }

  ghost predicate Synced(sys: System) {
    && sys.c.stored.Some?
    && (forall i :: i in sys.s.inFlight ==> sys.s.inFlight[i].login == 0)
    && (forall i: nat :: MidWay(sys, i) ==> Outstanding(sys, i))
    && (forall i: nat :: Outstanding(sys, i) && HasPair(sys, i) ==> Current(sys, sys.answers[i].refresh))
    && (Moving(sys) || Current(sys, sys.c.stored.value))
  }

  ghost predicate SystemOk(sys: System) {
    && C.ClientOk(sys.c) && S.ChainOk(sys.s) && Rotating(sys) && Posted(sys) && LooseAwaited(sys)
    && (!sys.lost && !sys.out ==> Synced(sys))
  }

  lemma OneOutstanding(sys: System, i: nat, j: nat)
    requires C.ClientOk(sys.c) && Outstanding(sys, i) && Outstanding(sys, j)
    ensures i == j
  {
  }

  /** Short of an early failure, no two rotations overlap at the backend. */
  lemma NeverOverlaps(sys: System, e: Event)
    requires SystemOk(sys)
    ensures !Overlaps(sys, e)
  {
    hide S.ChainOk, Synced, S.Accepts;
    if Overlaps(sys, e) {
      var t := sys.posts[e.i];
      assert Loose(sys, e.i) && Outstanding(sys, e.i);
      var j :| j in sys.s.inFlight && sys.s.inFlight[j].Looked? && sys.s.inFlight[j].token == t;
      assert Loose(sys, j) && Outstanding(sys, j);
      OneOutstanding(sys, e.i, j);
      assert false;
    }
  }

  lemma ChainKept(sys: System, e: Event)
    requires SystemOk(sys)
    ensures S.ChainOk(Step(sys, e).s)
  {
    NeverOverlaps(sys, e);
    if ServerEvent(sys, e).Some? { S.ChainExactly(sys.s, ServerEvent(sys, e).value); }
    hide S.ChainOk, S.Overlaps, S.Step, C.Step, SystemOk;
  }

  lemma ClientKept(sys: System, e: Event)
    requires C.ClientOk(sys.c)
    ensures C.ClientOk(Step(sys, e).c)
  {
    hide C.ClientOk, C.Step, S.Step;
    match e
    case Calls(auth) => C.ClientKept(sys.c, C.Send(auth));
    case Responds(rid, status) => C.ClientKept(sys.c, C.Respond(rid, status));
    case Resumes(rid) => C.ClientKept(sys.c, C.Resume(rid));
    case Answered(i, kept) =>
      if i in sys.answers { C.ClientKept(sys.c, C.Refreshed(i, sys.answers[i], kept)); }
    case Drops(i) => C.ClientKept(sys.c, C.Refreshed(i, C.NoPair, false));
    case _ =>
  }

  /** What the code of a request does to promises and storage. */
  lemma RequestPart(c: C.Client, e: C.Event)
    requires C.ClientOk(c) && !e.Refreshed?
    ensures var c' := C.Step(c, e);
      && c.promises <= c'.promises && c'.stored == c.stored && |c'.promises| <= |c.promises| + 1
      && (|c'.promises| == |c.promises| + 1 ==>
            (forall i :: 0 <= i < |c.promises| ==> !c.promises[i].Pending?)
            && (c'.promises[|c.promises|].Pending? ==> c.stored == Some(c'.promises[|c.promises|].sent)))
  {
  }

  predicate IsRequestEvent(e: Event) {
    e.Calls? || e.Responds? || e.Resumes?
  }

  function ClientEvent(e: Event): C.Event
    requires IsRequestEvent(e)
  {
    match e
    case Calls(auth) => C.Send(auth)
    case Responds(rid, status) => C.Respond(rid, status)
    case Resumes(rid) => C.Resume(rid)
  }

  lemma RequestKept(sys: System, e: Event)
    requires SystemOk(sys) && IsRequestEvent(e)
    ensures SystemOk(Step(sys, e))
  {
    ClientKept(sys, e);
    RequestPart(sys.c, ClientEvent(e));
    var sys' := Step(sys, e);
    RequestIs(sys, e);
    hide C.ClientOk, C.Step, S.ChainOk, Step, LooseAwaited, Synced, Posted, Rotating, WithClient, ClientEvent;
    RequestPosted(sys, sys'.c);
    RequestLoose(sys, sys'.c);
    if !sys.lost && !sys.out { RequestSynced(sys, sys'); }
  }

  lemma RequestIs(sys: System, e: Event)
    requires IsRequestEvent(e)
    ensures var sys', c' := Step(sys, e), C.Step(sys.c, ClientEvent(e));
      && sys' == WithClient(sys, c') && sys'.c == c' && sys'.s == sys.s && sys'.answers == sys.answers
      && sys'.lost == sys.lost && sys'.out == sys.out && (Rotating(sys) && Posted(sys) ==> Rotating(sys'))
  {
    hide C.Step;
  }

  lemma RequestPosted(sys: System, c': C.Client)
    requires Rotating(sys) && Posted(sys) && sys.c.promises <= c'.promises && c'.stored == sys.c.stored
    requires |c'.promises| <= |sys.c.promises| + 1
    requires |c'.promises| == |sys.c.promises| + 1 ==>
      c'.promises[|sys.c.promises|].Pending? ==> sys.c.stored == Some(c'.promises[|sys.c.promises|].sent)
    ensures Posted(WithClient(sys, c'))
  {
    var sys' := WithClient(sys, c');
    forall i: nat | Outstanding(sys', i)
      ensures i in sys'.posts && sys'.posts[i] == c'.promises[i].sent && c'.stored == Some(sys'.posts[i])
    {
      if i < |sys.c.promises| { assert Outstanding(sys, i); }
    }
  }

  lemma RequestLoose(sys: System, c': C.Client)
    requires Rotating(sys) && Posted(sys) && LooseAwaited(sys) && sys.c.promises <= c'.promises
    ensures LooseAwaited(WithClient(sys, c'))
  {
    hide S.Accepts;
    var sys' := WithClient(sys, c');
    forall i | i in sys'.posts && Loose(sys', i)
      ensures Outstanding(sys', i) || !S.Accepts(sys'.s, sys'.posts[i], sys'.now)
    {
      if i < |sys.c.promises| { assert Loose(sys, i); }
    }
  }

  lemma RequestSynced(sys: System, sys': System)
    requires Synced(sys) && Rotating(sys) && Posted(sys)
    requires sys'.s == sys.s && sys'.answers == sys.answers && sys'.c.stored == sys.c.stored
    requires sys.c.promises <= sys'.c.promises
    ensures Synced(sys')
  {
    forall i: nat | Outstanding(sys', i) && HasPair(sys', i)
      ensures Current(sys', sys'.answers[i].refresh)
    {
      assert Outstanding(sys, i);
    }
    if Moving(sys) {
      var i: nat :| Outstanding(sys, i) && (HasPair(sys, i) || MidWay(sys, i));
      assert Outstanding(sys', i);
    }
    forall i: nat | MidWay(sys', i)
      ensures Outstanding(sys', i)
    {
      assert MidWay(sys, i) && Outstanding(sys, i);
    }
  }

  // ---------- the backend's steps ----------

  /** No token is accepted that was not accepted before. */
  lemma AcceptsShrinks(s: S.Server, e: S.Event, t: nat, now: int, later: int)
    requires t in s.sessions && now <= later
    ensures t in S.Step(s, e).sessions && (S.Accepts(S.Step(s, e), t, later) ==> S.Accepts(s, t, now))
  {
    S.SessionsKept(s, e, t);
    hide S.Step;
  }

  lemma ServerPosted(sys: System, e: Event)
    requires Posted(sys) && ServerEvent(sys, e).Some?
    ensures Posted(Step(sys, e))
  {
    var se := ServerEvent(sys, e).value;
    forall t ensures t in sys.s.sessions ==> t in S.Step(sys.s, se).sessions { S.SessionsKept(sys.s, se, t); }
    ServerLeavesClient(sys, e);
    NewPairs(sys, e);
    hide S.Step, Step;
    assert forall i: nat :: Outstanding(Step(sys, e), i) ==> Outstanding(sys, i);
  }

  lemma NewPairs(sys: System, e: Event)
    requires ServerEvent(sys, e).Some?
    ensures var sys' := Step(sys, e);
      forall i :: i in sys'.answers && sys'.answers[i].NewPair? ==>
        (i in sys.answers && sys.answers[i] == sys'.answers[i]) || sys'.answers[i].refresh in sys'.s.sessions
  {
  }

  lemma ArrivesRotating(sys: System, i: nat)
    requires Rotating(sys)
    ensures Rotating(Step(sys, Arrives(i)))
  {
    hide S.Accepts;
  }

  lemma StageStepRotating(sys: System, e: Event)
    requires Rotating(sys) && (e.Revokes? || e.StoresAccess? || e.SignsOut?)
    ensures Rotating(Step(sys, e))
  {
  }

  lemma DoneRotating(sys: System, e: Event)
    requires Rotating(sys) && (e.StoresRefresh? || e.Fails?)
    ensures Rotating(Step(sys, e))
  {
  }

  lemma ServerRotating(sys: System, e: Event)
    requires Rotating(sys) && ServerEvent(sys, e).Some?
    ensures Rotating(Step(sys, e))
  {
    hide S.Step, Step, Rotating;
    match e
    case Arrives(i) => ArrivesRotating(sys, i);
    case StoresRefresh(_, _) => DoneRotating(sys, e);
    case Fails(_) => DoneRotating(sys, e);
    case _ => StageStepRotating(sys, e);
  }

  lemma ServerLoose(sys: System, e: Event)
    requires Rotating(sys) && Posted(sys) && LooseAwaited(sys) && ServerEvent(sys, e).Some?
    ensures LooseAwaited(Step(sys, e))
  {
    var sys', se := Step(sys, e), ServerEvent(sys, e).value;
    forall i | i in sys'.posts && Loose(sys', i)
      ensures Outstanding(sys', i) || !S.Accepts(sys'.s, sys'.posts[i], sys'.now)
    {
      LooseBefore(sys, e, i);
      AcceptsShrinks(sys.s, se, sys.posts[i], sys.now, sys.now);
      ServerLeavesClient(sys, e);
      hide S.Accepts, S.Step, Step;
    }
  }

  lemma ServerLeavesClient(sys: System, e: Event)
    requires ServerEvent(sys, e).Some?
    ensures var sys' := Step(sys, e);
      sys'.c == sys.c && sys'.posts == sys.posts && sys'.now == sys.now
      && (sys'.s == S.Step(sys.s, ServerEvent(sys, e).value) || sys'.s == sys.s)
  {
    hide S.Step;
  }

  lemma LooseBefore(sys: System, e: Event, i: nat)
    requires Rotating(sys) && ServerEvent(sys, e).Some? && Loose(Step(sys, e), i)
    ensures Loose(sys, i)
  {
    hide S.Accepts;
  }

  /** If the refresh the client waits for has not got past revoking, nothing has. */
  lemma NotMoving(sys: System, i: nat)
    requires C.ClientOk(sys.c) && Outstanding(sys, i) && !HasPair(sys, i) && !MidWay(sys, i)
    ensures !Moving(sys)
  {
    forall j: nat | Outstanding(sys, j)
      ensures !HasPair(sys, j) && !MidWay(sys, j)
    {
      OneOutstanding(sys, i, j);
    }
  }

  lemma ArrivesSynced(sys: System, i: nat)
    requires SystemOk(sys) && Synced(sys)
    ensures Synced(Step(sys, Arrives(i)))
  {
    hide S.ChainOk;
    if i in sys.posts && i !in sys.arrived {
      if S.Accepts(sys.s, sys.posts[i], sys.now) {
        assert Loose(sys, i) && Outstanding(sys, i);
        NotMoving(sys, i);
      }
      hide C.ClientOk, LooseAwaited;
      LookedUpSynced(sys, Step(sys, Arrives(i)), i, sys.posts[i]);
    }
  }

  lemma LookedUpSynced(sys: System, sys': System, i: nat, t: nat)
    requires Synced(sys) && sys'.c == sys.c && sys'.s.sessions == sys.s.sessions
    requires sys'.s.inFlight == sys.s.inFlight
      || (i !in sys.s.inFlight && sys'.s.inFlight == sys.s.inFlight[i := S.Looked(t, 0)])
    requires sys'.answers == sys.answers || (i !in sys.answers && sys'.answers == sys.answers[i := C.NoPair])
    ensures Synced(sys')
  {
    assert forall j: nat :: MidWay(sys', j) <==> MidWay(sys, j);
    assert forall j: nat :: HasPair(sys', j) <==> HasPair(sys, j);
    assert forall j: nat :: Outstanding(sys', j) <==> Outstanding(sys, j);
    if Moving(sys) {
      var j: nat :| Outstanding(sys, j) && (HasPair(sys, j) || MidWay(sys, j));
      assert Outstanding(sys', j);
    }
  }

  lemma RevokesSynced(sys: System, i: nat)
    requires SystemOk(sys) && Synced(sys) && !Step(sys, Revokes(i)).lost
    ensures Synced(Step(sys, Revokes(i)))
  {
    var sys' := Step(sys, Revokes(i));
    if i in sys.s.inFlight && sys.s.inFlight[i].Looked? {
      assert Outstanding(sys', i) && MidWay(sys', i);
      NotMoving(sys, i);
      forall j: nat | Outstanding(sys', j) ensures !HasPair(sys', j) { OneOutstanding(sys, i, j); }
      hide C.ClientOk, S.ChainOk, LooseAwaited;
      assert forall j: nat :: MidWay(sys', j) ==> j == i || MidWay(sys, j);
    }
  }

  /** The stages of the rotations stay what they are, and current tokens stay current. */
  lemma SyncedFrame(sys: System, sys': System)
    requires Synced(sys) && sys'.c == sys.c && sys'.answers == sys.answers
    requires forall j: nat :: MidWay(sys', j) <==> MidWay(sys, j)
    requires forall j :: j in sys'.s.inFlight ==>
      j in sys.s.inFlight && sys'.s.inFlight[j].login == sys.s.inFlight[j].login
    requires forall t :: Current(sys, t) ==> Current(sys', t)
    ensures Synced(sys')
  {
    hide Current, MidWay;
    assert forall j: nat :: Outstanding(sys', j) <==> Outstanding(sys, j);
    assert forall j: nat :: HasPair(sys', j) <==> HasPair(sys, j);
    if Moving(sys) {
      var j: nat :| Outstanding(sys, j) && (HasPair(sys, j) || MidWay(sys, j));
      assert Outstanding(sys', j);
    }
  }

  lemma StoresAccessSynced(sys: System, i: nat, access: nat)
    requires Synced(sys)
    ensures Synced(Step(sys, StoresAccess(i, access)))
  {
    var sys' := Step(sys, StoresAccess(i, access));
    assert forall j: nat :: MidWay(sys', j) <==> MidWay(sys, j);
    assert forall t :: Current(sys, t) ==> Current(sys', t);
    hide Current;
    assert forall j :: j in sys'.s.inFlight ==>
      j in sys.s.inFlight && sys'.s.inFlight[j].login == sys.s.inFlight[j].login;
    hide Synced, Step;
    SyncedFrame(sys, sys');
  }

  lemma StoresRefreshSynced(sys: System, i: nat, refresh: nat)
    requires SystemOk(sys) && Synced(sys)
    ensures Synced(Step(sys, StoresRefresh(i, refresh)))
  {
    hide C.ClientOk, S.ChainOk, LooseAwaited;
    var sys' := Step(sys, StoresRefresh(i, refresh));
    if sys' != sys {
      assert MidWay(sys, i) && Outstanding(sys', i) && HasPair(sys', i);
      assert forall t :: Current(sys, t) ==> Current(sys', t);
    }
  }

  lemma FailsSynced(sys: System, i: nat)
    requires SystemOk(sys) && Synced(sys) && !Step(sys, Fails(i)).lost
    ensures Synced(Step(sys, Fails(i)))
  {
    hide C.ClientOk, S.ChainOk, LooseAwaited;
    var sys' := Step(sys, Fails(i));
    if i in sys.s.inFlight {
      assert forall j: nat :: MidWay(sys', j) <==> MidWay(sys, j);
      if Moving(sys) {
        var j: nat :| Outstanding(sys, j) && (HasPair(sys, j) || MidWay(sys, j));
        assert j != i && Outstanding(sys', j);
      }
    }
  }

  // ---------- the client's answers ----------

  lemma EndPosted(sys: System, e: Event)
    requires C.ClientOk(sys.c) && Rotating(sys) && Posted(sys) && (e.Answered? || e.Drops?)
    ensures Rotating(Step(sys, e)) && Posted(Step(sys, e))
  {
    var sys' := Step(sys, e);
    if sys' != sys {
      NothingAwaited(sys, e);
      EndLeaves(sys, e);
      hide C.ClientOk, C.Step, Step, Outstanding;
    }
  }

  lemma EndLeaves(sys: System, e: Event)
    requires e.Answered? || e.Drops?
    ensures var sys' := Step(sys, e);
      && sys'.s == sys.s && sys'.posts == sys.posts && sys'.arrived == sys.arrived && sys'.answers == sys.answers
      && sys'.now == sys.now && |sys'.c.promises| == |sys.c.promises|
      && (sys'.c.stored == sys.c.stored
          || (e.i in sys.answers && sys.answers[e.i].NewPair? && sys'.c.stored == Some(sys.answers[e.i].refresh)))
  {
  }

  lemma EndLoose(sys: System, e: Event)
    requires C.ClientOk(sys.c) && Rotating(sys) && LooseAwaited(sys) && (e.Answered? || e.Drops?)
    ensures LooseAwaited(Step(sys, e)) <==> !FailsEarly(sys, e)
  {
    hide S.Accepts;
    var sys' := Step(sys, e);
    assert forall i: nat :: Loose(sys', i) <==> Loose(sys, i);
    if FailsEarly(sys, e) {
      assert Loose(sys', e.i) && !Outstanding(sys', e.i);
    } else {
      forall i | i in sys'.posts && Loose(sys', i)
        ensures Outstanding(sys', i) || !S.Accepts(sys'.s, sys'.posts[i], sys'.now)
      {
        assert Loose(sys, i);
        if Outstanding(sys, i) && i == e.i && e.Answered? { assert i !in sys.s.inFlight || i !in sys.answers; }
      }
    }
  }

  lemma NothingAwaited(sys: System, e: Event)
    requires C.ClientOk(sys.c) && (e.Answered? || e.Drops?) && Step(sys, e) != sys
    ensures Outstanding(sys, e.i) && forall j: nat :: !Outstanding(Step(sys, e), j)
    ensures forall j: nat :: Outstanding(sys, j) ==> j == e.i
  {
    forall j: nat | Outstanding(sys, j) ensures j == e.i { OneOutstanding(sys, e.i, j); }
  }

  lemma EndStored(sys: System, e: Event)
    requires (e.Answered? || e.Drops?) && Step(sys, e) != sys && !Step(sys, e).lost
    ensures var sys' := Step(sys, e);
      && sys'.s == sys.s && sys'.answers == sys.answers
      && (e.Drops? ==> !HasPair(sys, e.i) && !MidWay(sys, e.i))
      && sys'.c.stored == if HasPair(sys, e.i) then Some(sys.answers[e.i].refresh) else sys.c.stored
  {
  }

  lemma EndSynced(sys: System, e: Event)
    requires SystemOk(sys) && Synced(sys) && (e.Answered? || e.Drops?) && !Step(sys, e).lost
    ensures Synced(Step(sys, e))
  {
    hide S.ChainOk, LooseAwaited, S.Accepts, Posted;
    if Step(sys, e) != sys {
      NothingAwaited(sys, e);
      if !HasPair(sys, e.i) && !MidWay(sys, e.i) { NotMoving(sys, e.i); }
      hide C.ClientOk;
      assert !MidWay(sys, e.i);
      assert forall j: nat :: !MidWay(sys, j);
      EndStored(sys, e);
      hide Outstanding, Step;
      var sys' := Step(sys, e);
      forall j: nat ensures !MidWay(sys', j) { assert !MidWay(sys, j); }
    }
  }

  // ---------- runs ----------

  /** The joint invariant survives an event if and only if no post fails early. */
  lemma SystemExactly(sys: System, e: Event)
    requires SystemOk(sys)
    ensures SystemOk(Step(sys, e)) <==> !FailsEarly(sys, e)
  {
    hide C.ClientOk, S.ChainOk, Rotating, Posted, LooseAwaited, Synced, Step, FailsEarly;
    if IsRequestEvent(e) {
      RequestKept(sys, e);
      OnlyDropsFailEarly(sys, e);
    } else if e.Elapses? {
      TimePasses(sys, e);
      OnlyDropsFailEarly(sys, e);
    } else if e.Vanishes? {
      VanishKept(sys, e);
      OnlyDropsFailEarly(sys, e);
    } else if e.Answered? || e.Drops? {
      ChainKept(sys, e);
      ClientKept(sys, e);
      EndPosted(sys, e);
      EndLoose(sys, e);
      HistoryGrows(sys, e);
      if !Step(sys, e).lost && !Step(sys, e).out { EndSynced(sys, e); }
    } else {
      OnlyDropsFailEarly(sys, e);
      ServerKept(sys, e);
    }
  }

  lemma OnlyDropsFailEarly(sys: System, e: Event)
    requires !e.Drops?
    ensures !FailsEarly(sys, e)
  {
  }

  lemma HistoryGrows(sys: System, e: Event)
    ensures (sys.lost ==> Step(sys, e).lost) && (sys.out ==> Step(sys, e).out)
  {
    hide C.Step, S.Step;
  }

  lemma TimePasses(sys: System, e: Event)
    requires SystemOk(sys) && e.Elapses?
    ensures SystemOk(Step(sys, e))
  {
    hide C.ClientOk, S.ChainOk;
    var sys' := Step(sys, e);
    assert sys' == sys.(now := sys'.now) && sys'.now >= sys.now;
    assert forall i: nat :: Loose(sys', i) ==> Loose(sys, i);
    assert forall i: nat :: Outstanding(sys', i) <==> Outstanding(sys, i);
    if !sys.lost && !sys.out { SameButClock(sys, sys'); }
    hide Synced;
  }

  lemma SameButClock(sys: System, sys': System)
    requires Synced(sys) && sys'.c == sys.c && sys'.s == sys.s && sys'.answers == sys.answers
    ensures Synced(sys')
  {
    assert forall j: nat :: MidWay(sys', j) <==> MidWay(sys, j);
    if Moving(sys) {
      var j: nat :| Outstanding(sys, j) && (HasPair(sys, j) || MidWay(sys, j));
      assert Outstanding(sys', j) && (HasPair(sys', j) || MidWay(sys', j));
    }
    assert forall j: nat :: Outstanding(sys', j) && HasPair(sys', j) ==> Outstanding(sys, j) && HasPair(sys, j);
  }

  lemma VanishKept(sys: System, e: Event)
    requires SystemOk(sys) && e.Vanishes?
    ensures SystemOk(Step(sys, e))
  {
    var sys' := Step(sys, e);
    VanishRotating(sys, e);
    hide C.ClientOk, S.ChainOk, Step, Posted, Rotating, LooseAwaited, Synced;
    VanishLoose(sys, sys');
    if !sys.lost && !sys.out { SameButClock(sys, sys'); }
  }

  lemma VanishRotating(sys: System, e: Event)
    requires Rotating(sys) && e.Vanishes?
    ensures var sys' := Step(sys, e);
      && Rotating(sys') && sys' == sys.(arrived := sys'.arrived) && sys.arrived <= sys'.arrived
      && (Posted(sys) ==> Posted(sys'))
  {
  }

  lemma VanishLoose(sys: System, sys': System)
    requires LooseAwaited(sys) && sys' == sys.(arrived := sys'.arrived) && sys.arrived <= sys'.arrived
    ensures LooseAwaited(sys')
  {
    hide S.Accepts;
    forall i | i in sys'.posts && Loose(sys', i)
      ensures Outstanding(sys', i) || !S.Accepts(sys'.s, sys'.posts[i], sys'.now)
    {
      assert Loose(sys, i);
    }
  }

  lemma ServerKept(sys: System, e: Event)
    requires SystemOk(sys) && (ServerEvent(sys, e).Some? || e.Arrives?)
    ensures SystemOk(Step(sys, e))
  {
    hide C.ClientOk, S.ChainOk, Rotating, Posted, LooseAwaited, Synced, Step;
    if ServerEvent(sys, e).None? {
      ArrivesAgain(sys, e);
    } else {
      ChainKept(sys, e);
      ClientKept(sys, e);
      ServerRotating(sys, e);
      ServerPosted(sys, e);
      ServerLoose(sys, e);
      HistoryGrows(sys, e);
      if !Step(sys, e).lost && !Step(sys, e).out { ServerSynced(sys, e); }
    }
  }

  lemma ArrivesAgain(sys: System, e: Event)
    requires e.Arrives? && ServerEvent(sys, e).None?
    ensures Step(sys, e) == sys
  {
  }

  lemma ServerSynced(sys: System, e: Event)
    requires SystemOk(sys) && Synced(sys) && ServerEvent(sys, e).Some? && !Step(sys, e).lost && !Step(sys, e).out
    ensures Synced(Step(sys, e))
  {
    hide C.ClientOk, S.ChainOk, Rotating, Posted, LooseAwaited, Synced;
    match e
    case Arrives(i) => ArrivesSynced(sys, i);
    case Revokes(i) => RevokesSynced(sys, i);
    case StoresAccess(i, access) => StoresAccessSynced(sys, i, access);
    case StoresRefresh(i, refresh) => StoresRefreshSynced(sys, i, refresh);
    case Fails(i) => FailsSynced(sys, i);
    case SignsOut(_) =>
  }

  function Run(sys: System, events: seq<Event>): System
    decreases |events|
  {
    if events == [] then sys else Run(Step(sys, events[0]), events[1..])
  }

  predicate NoEarlyFailure(sys: System, events: seq<Event>)
    decreases |events|
  {
    events == [] || (!FailsEarly(sys, events[0]) && NoEarlyFailure(Step(sys, events[0]), events[1..]))
  }

  /** No token is looked up while another rotation of it has yet to revoke it. */
  predicate OverlapFree(sys: System, events: seq<Event>)
    decreases |events|
  {
    events == [] || (!Overlaps(sys, events[0]) && OverlapFree(Step(sys, events[0]), events[1..]))
  }

  /** Right after a sign-in on an empty store. */
  function Start(access: nat, refresh: nat, now: int): System {
    System(now, C.Fresh(Some(access), Some(refresh)), S.Step(S.Empty, S.SignIn(access, refresh, now)), map[], {}, map[],
           false, false)
  }

  lemma StartOk(access: nat, refresh: nat, now: int)
    requires access != refresh
    ensures SystemOk(Start(access, refresh, now))
  {
    assert Current(Start(access, refresh, now), refresh);
  }

  lemma {:induction false} RunKept(sys: System, events: seq<Event>)
    requires SystemOk(sys) && NoEarlyFailure(sys, events)
    ensures SystemOk(Run(sys, events)) && OverlapFree(sys, events)
    decreases |events|
  {
    hide SystemOk, Step, FailsEarly, Overlaps;
    if events != [] {
      NeverOverlaps(sys, events[0]);
      SystemExactly(sys, events[0]);
      RunKept(Step(sys, events[0]), events[1..]);
    }
  }

  lemma {:induction false} RunsJoin(sys: System, a: seq<Event>, b: seq<Event>)
    ensures Run(sys, a + b) == Run(Run(sys, a), b)
    ensures NoEarlyFailure(sys, a + b) <==> NoEarlyFailure(sys, a) && NoEarlyFailure(Run(sys, a), b)
    ensures OverlapFree(sys, a + b) <==> OverlapFree(sys, a) && OverlapFree(Run(sys, a), b)
    decreases |a|
  {
    hide Step, FailsEarly, Overlaps;
    if a == [] {
      assert a + b == b;
    } else {
      assert (a + b)[1..] == a[1..] + b;
      RunsJoin(Step(sys, a[0]), a[1..], b);
    }
  }

  lemma RunOne(sys: System, e: Event)
    ensures Run(sys, [e]) == Step(sys, e)
  {
    hide Step;
    assert [e][1..] == [];
  }

  // ---------- the run that overlaps ----------

  /** The request that started the refresh gives up; the next 401 posts the same token; both posts
      are looked up. */
  function SecondPost(creator: nat, rid: nat, i: nat, j: nat): seq<Event> {
    [Resumes(creator), Calls(false), Responds(rid, C.Unauthorized), Arrives(i), Arrives(j)]
  }

  lemma PostAgain(sys: System, i: nat, creator: nat)
    requires C.ClientOk(sys.c) && Outstanding(sys, i) && C.Creates(sys.c, creator)
    requires sys.c.stored.Some?
    ensures var sys1 := Step(sys, Drops(i));
      var rid, j := |sys.c.requests|, |sys.c.promises|;
      var sys4 := Step(Step(Step(sys1, Resumes(creator)), Calls(false)), Responds(rid, C.Unauthorized));
      && sys4.now == sys.now && sys4.s == sys.s && sys4.arrived == sys.arrived && sys4.answers == sys.answers
      && sys4.posts == sys.posts[j := sys.c.stored.value]
  {
    assert C.RequestOk(sys.c, sys.c.requests[creator]);
    var c1 := C.Step(sys.c, C.Refreshed(i, C.NoPair, false));
    assert c1.inFlight == Some(i) && c1.requests == sys.c.requests;
    assert c1.promises == sys.c.promises[i := C.Settled(None)];
    var c2 := C.Step(c1, C.Resume(creator));
    assert c2.inFlight == None && |c2.requests| == |sys.c.requests| && c2.promises == c1.promises;
    var c3 := C.Step(c2, C.Send(false));
    assert c3.requests[|sys.c.requests|] == C.Fetching(false, false, 1) && c3.promises == c1.promises;
    var c4 := C.Step(c3, C.Respond(|sys.c.requests|, C.Unauthorized));
    assert c4.promises == c1.promises + [C.Pending(sys.c.stored.value)];
    hide C.ClientOk, C.Step;
  }

  lemma BothLookedUp(sys: System, i: nat, j: nat)
    requires S.ChainOk(sys.s) && Rotating(sys)
    requires i in sys.posts && j in sys.posts && i != j && sys.posts[i] == sys.posts[j]
    requires Loose(sys, i) && j !in sys.arrived && S.Accepts(sys.s, sys.posts[i], sys.now)
    ensures var sys1 := Step(sys, Arrives(i)); var sys2 := Step(sys1, Arrives(j));
      && Overlaps(sys1, Arrives(j))
      && i in sys2.s.inFlight && j in sys2.s.inFlight && sys2.s.inFlight[i].Looked?
      && sys2.s.inFlight[j] == sys2.s.inFlight[i] && sys2.s.inFlight[i].token in sys2.s.sessions
  {
    var sys1 := Step(sys, Arrives(i));
    if i in sys.s.inFlight { assert S.StageOk(sys.s, sys.s.inFlight[i]); }
    assert i in sys1.s.inFlight && sys1.s.inFlight[i] == S.Looked(sys.posts[i], sys.s.sessions[sys.posts[i]].login);
    assert sys1.s.sessions == sys.s.sessions && sys1.posts == sys.posts;
    hide S.ChainOk;
  }

  lemma RunTwo(sys: System, a: Event, b: Event)
    ensures Run(sys, [a, b]) == Step(Step(sys, a), b)
    ensures OverlapFree(sys, [a, b]) ==> !Overlaps(Step(sys, a), b)
  {
    hide Step, Overlaps;
    assert [a, b][1..] == [b];
    assert OverlapFree(sys, [a, b]) ==> OverlapFree(Step(sys, a), [b]);
    RunOne(Step(sys, a), b);
  }

  lemma RunFive(sys: System, es: seq<Event>)
    requires |es| == 5
    ensures Run(sys, es) == Step(Step(Step(Step(Step(sys, es[0]), es[1]), es[2]), es[3]), es[4])
    ensures OverlapFree(sys, es) ==> !Overlaps(Step(Step(Step(Step(sys, es[0]), es[1]), es[2]), es[3]), es[4])
  {
    hide Step, Overlaps, Run, OverlapFree;
    RunTwo(sys, es[0], es[1]);
    RunOne(Step(Step(sys, es[0]), es[1]), es[2]);
    RunsJoin(sys, [es[0], es[1]], [es[2]]);
    var sys3 := Step(Step(Step(sys, es[0]), es[1]), es[2]);
    RunTwo(sys3, es[3], es[4]);
    RunsJoin(sys, [es[0], es[1]] + [es[2]], [es[3], es[4]]);
    assert es == [es[0], es[1]] + [es[2]] + [es[3], es[4]];
  }

  lemma {:induction false} NoDropNoFailure(sys: System, events: seq<Event>)
    requires forall i :: 0 <= i < |events| ==> !events[i].Drops?
    ensures NoEarlyFailure(sys, events)
    decreases |events|
  {
    hide Step;
    if events != [] { NoDropNoFailure(Step(sys, events[0]), events[1..]); }
  }

  /** What an early failure leads to: the client posts the token once more, and both posts are looked
      up before either rotation revokes it; from there two unrevoked tokens can come of one sign-in
      (Sessions.OverlapForks). */
  lemma EarlyFailureOverlaps(sys: System, e: Event) returns (more: seq<Event>, j: nat)
    requires SystemOk(sys) && FailsEarly(sys, e)
    ensures NoEarlyFailure(Step(sys, e), more) && !OverlapFree(Step(sys, e), more)
    ensures var s := Run(Step(sys, e), more).s;
      && e.i != j && e.i in s.inFlight && j in s.inFlight && s.inFlight[j] == s.inFlight[e.i]
      && s.inFlight[e.i].Looked? && s.inFlight[e.i].token in s.sessions
  {
    var i, rid := e.i, |sys.c.requests|;
    j := |sys.c.promises|;
    var creator: nat := CreatorOf(sys, i);
    more := SecondPost(creator, rid, i, j);
    hide C.ClientOk, S.ChainOk, LooseAwaited, Synced, Step, Overlaps, OverlapFree, NoEarlyFailure, Run;
    NoDropNoFailure(Step(sys, e), more);
    PostAgain(sys, i, creator);
    var sys4 := Step(Step(Step(Step(sys, e), more[0]), more[1]), more[2]);
    SameRotations(sys, sys4, i, j);
    hide Rotating, Posted;
    BothLookedUp(sys4, i, j);
    RunFive(Step(sys, e), more);
  }

  lemma CreatorOf(sys: System, i: nat) returns (creator: nat)
    requires SystemOk(sys) && Outstanding(sys, i)
    ensures C.Creates(sys.c, creator)
  {
    creator :| C.Creates(sys.c, creator);
  }

  lemma SameRotations(sys: System, sys': System, i: nat, j: nat)
    requires Rotating(sys) && Posted(sys) && Outstanding(sys, i) && Loose(sys, i) && j == |sys.c.promises|
    requires sys'.s == sys.s && sys'.arrived == sys.arrived && sys'.answers == sys.answers
    requires sys.c.stored.Some? && sys'.posts == sys.posts[j := sys.c.stored.value]
    ensures Rotating(sys') && Loose(sys', i) && i != j && j !in sys'.arrived
    ensures i in sys'.posts && sys'.posts[i] == sys.posts[i] == sys'.posts[j]
  {
  }

  lemma {:induction false} FirstEarlyFailure(sys: System, events: seq<Event>) returns (i: nat)
    requires !NoEarlyFailure(sys, events)
    ensures i < |events| && NoEarlyFailure(sys, events[..i]) && FailsEarly(Run(sys, events[..i]), events[i])
    decreases |events|
  {
    hide Step, FailsEarly;
    if FailsEarly(sys, events[0]) {
      i := 0;
    } else {
      var j := FirstEarlyFailure(Step(sys, events[0]), events[1..]);
      i := j + 1;
      assert events[..i][1..] == events[1..][..j];
    }
  }

  lemma OverlapReached(sys: System, events: seq<Event>) returns (n: nat, more: seq<Event>)
    requires SystemOk(sys) && !NoEarlyFailure(sys, events)
    ensures n <= |events| && NoEarlyFailure(Run(sys, events[..n]), more) && !OverlapFree(sys, events[..n] + more)
  {
    hide Step, SystemOk, FailsEarly, Overlaps, NoEarlyFailure, OverlapFree, Run;
    var i := FirstEarlyFailure(sys, events);
    RunKept(sys, events[..i]);
    var j;
    more, j := EarlyFailureOverlaps(Run(sys, events[..i]), events[i]);
    n := i + 1;
    assert events[..n] == events[..i] + [events[i]];
    RunsJoin(sys, events[..i], [events[i]]);
    RunOne(Run(sys, events[..i]), events[i]);
    RunsJoin(sys, events[..n], more);
  }

  /** The exact condition for one panel client: no post of a run fails at the client while its token
      is good and it is still on the wire or its rotation has not revoked the token, if and only if
      whatever happens after any moment of the run, short of such a failure, no two rotations of one
      token overlap at the backend. */
  lemma OverlapFreeExactly(access: nat, refresh: nat, start: int, events: seq<Event>)
    requires access != refresh
    ensures var begin := Start(access, refresh, start);
      NoEarlyFailure(begin, events)
      <==> forall n, more :: 0 <= n <= |events| && NoEarlyFailure(Run(begin, events[..n]), more) ==>
             OverlapFree(begin, events[..n] + more)
  {
    hide Step, SystemOk, FailsEarly, Overlaps, NoEarlyFailure, OverlapFree, Run, Start;
    var begin := Start(access, refresh, start);
    StartOk(access, refresh, start);
    if NoEarlyFailure(begin, events) {
      forall n, more | 0 <= n <= |events| && NoEarlyFailure(Run(begin, events[..n]), more)
        ensures OverlapFree(begin, events[..n] + more)
      {
        assert events == events[..n] + events[n..];
        RunsJoin(begin, events[..n], events[n..]);
        RunsJoin(begin, events[..n], more);
        RunKept(begin, events[..n] + more);
      }
    } else {
      var n, more := OverlapReached(begin, events);
    }
  }

  // ---------- what the client holds ----------

  /** Short of an early failure one client never forks its chain: at every moment of every run each
      sign-in has one unrevoked refresh token at most. Unless a pair was lost on the way or somebody
      signed out, the client holds that token whenever no refresh is outstanding. */
  lemma ClientHoldsTheUnrevokedToken(access: nat, refresh: nat, start: int, events: seq<Event>, t: nat, u: nat)
    requires access != refresh && NoEarlyFailure(Start(access, refresh, start), events)
    ensures var end := Run(Start(access, refresh, start), events);
      && (Current(end, t) && Current(end, u) ==> t == u)
      && (!end.lost && !end.out && (forall i: nat :: !Outstanding(end, i)) ==>
            end.c.stored.Some? && Current(end, end.c.stored.value))
  {
    hide Start, Run, NoEarlyFailure;
    StartOk(access, refresh, start);
    RunKept(Start(access, refresh, start), events);
    hide C.ClientOk, Rotating, Posted, LooseAwaited;
  }

  /** A delivered and stored pair leaves the client with the unrevoked token. */
  lemma DeliveredPairIsUnrevoked(access: nat, refresh: nat, start: int, events: seq<Event>, i: nat)
    requires access != refresh && NoEarlyFailure(Start(access, refresh, start), events)
    requires var sys := Run(Start(access, refresh, start), events);
      !sys.lost && !sys.out && Outstanding(sys, i) && HasPair(sys, i)
    ensures var sys := Run(Start(access, refresh, start), events);
      var after := Step(sys, Answered(i, true));
      && after.c.stored == Some(sys.answers[i].refresh) && after.c.token == Some(sys.answers[i].access)
      && Current(after, sys.answers[i].refresh)
  {
    hide Start, Run, NoEarlyFailure, Step, SystemOk, Synced;
    StartOk(access, refresh, start);
    RunKept(Start(access, refresh, start), events);
    PairDelivered(Run(Start(access, refresh, start), events), i);
  }

  lemma PairDelivered(sys: System, i: nat)
    requires SystemOk(sys) && !sys.lost && !sys.out && Outstanding(sys, i) && HasPair(sys, i)
    ensures var after := Step(sys, Answered(i, true));
      && after.c.stored == Some(sys.answers[i].refresh) && after.c.token == Some(sys.answers[i].access)
      && Current(after, sys.answers[i].refresh)
  {
    assert Current(sys, sys.answers[i].refresh);
    hide SystemOk, Synced;
  }
}
