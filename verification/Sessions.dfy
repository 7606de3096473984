/** The backend's sessions and the rotation of refresh tokens. A token stands for its hash, which
    is taken as injective. A rotation is several transactions (look the token up, revoke it, insert
    an access session, insert the next refresh session), so concurrent requests interleave. */
module Sessions {

  const PANEL_TTL: int := 900_000_000           // microseconds
  const REFRESH_TTL: int := 604_800_000_000

  datatype Kind = Refresh | Panel | Extension

  /** `login` is the sign-in a session descends from. */
  datatype Session = Session(kind: Kind, login: nat, revoked: bool, expiresAt: int)

  /** A rotation past its lookup. */
  datatype Stage =
    | Looked(token: nat, login: nat)   // the token was found live
    | Rotated(login: nat)              // the token is revoked
    | Granted(login: nat, access: nat) // the access session is stored

  datatype Server = Server(sessions: map<nat, Session>, inFlight: map<nat, Stage>, nextLogin: nat)

  datatype Event =
    | SignIn(access: nat, refresh: nat, now: int)
    | Lookup(id: nat, token: nat, now: int)
    | Revoke(id: nat)
    | IssueAccess(id: nat, access: nat, now: int)
    | IssueRefresh(id: nat, refresh: nat, now: int)
    | Abort(id: nat)                   // any later step of the rotation fails
    | SignOut(logins: set<nat>)        // every session of these sign-ins is revoked

  /** A refresh token that has not been revoked (it may have expired). */
  predicate Usable(s: Server, t: nat) {
    t in s.sessions && s.sessions[t].kind == Refresh && !s.sessions[t].revoked
  }

  predicate Accepts(s: Server, t: nat, now: int) {
    Usable(s, t) && now < s.sessions[t].expiresAt
  }

  function Revoked(s: Server, t: nat): Server {
    if t in s.sessions then s.(sessions := s.sessions[t := s.sessions[t].(revoked := true)]) else s
  }

  function Step(s: Server, e: Event): Server {
    match e
    case SignIn(access, refresh, now) =>
      if access in s.sessions || refresh in s.sessions || access == refresh then s
      else
        s.(sessions := s.sessions[access := Session(Panel, s.nextLogin, false, now + PANEL_TTL)]
                                 [refresh := Session(Refresh, s.nextLogin, false, now + REFRESH_TTL)],
           nextLogin := s.nextLogin + 1)
    case Lookup(id, t, now) =>
      if id in s.inFlight || !Accepts(s, t, now) then s
      else s.(inFlight := s.inFlight[id := Looked(t, s.sessions[t].login)])
    case Revoke(id) =>
      if id in s.inFlight && s.inFlight[id].Looked?
      then Revoked(s, s.inFlight[id].token).(inFlight := s.inFlight[id := Rotated(s.inFlight[id].login)]) else s
    case IssueAccess(id, access, now) =>
      if id in s.inFlight && s.inFlight[id].Rotated? && access !in s.sessions
      then
        var l := s.inFlight[id].login;
        s.(sessions := s.sessions[access := Session(Panel, l, false, now + PANEL_TTL)],
           inFlight := s.inFlight[id := Granted(l, access)])
      else s
    case IssueRefresh(id, refresh, now) =>
      if id in s.inFlight && s.inFlight[id].Granted? && refresh !in s.sessions
      then s.(sessions := s.sessions[refresh := Session(Refresh, s.inFlight[id].login, false, now + REFRESH_TTL)],
              inFlight := s.inFlight - {id})
      else s
    case Abort(id) => s.(inFlight := s.inFlight - {id})
    case SignOut(logins) =>
      s.(sessions := map t | t in s.sessions ::
           if s.sessions[t].login in logins then s.sessions[t].(revoked := true) else s.sessions[t])
  }

  function Run(s: Server, events: seq<Event>): Server
    decreases |events|
  {
    if events == [] then s else Run(Step(s, events[0]), events[1..])
  }

  const Empty: Server := Server(map[], map[], 0)

  // ---------- chains ----------

  /** Each sign-in has one refresh token not yet revoked, or one rotation under way, or neither. */
  ghost predicate ChainOk(s: Server) {
    && (forall t :: t in s.sessions ==> s.sessions[t].login < s.nextLogin)
    && (forall t, u :: Usable(s, t) && Usable(s, u) && s.sessions[t].login == s.sessions[u].login ==> t == u)
    && (forall id :: id in s.inFlight ==> StageOk(s, s.inFlight[id]))
    && (forall i, j :: i in s.inFlight && j in s.inFlight && s.inFlight[i].login == s.inFlight[j].login ==> i == j)
  }

  ghost predicate StageOk(s: Server, st: Stage) {
    && st.login < s.nextLogin
    && (st.Looked? ==> st.token in s.sessions && s.sessions[st.token].kind == Refresh
                       && s.sessions[st.token].login == st.login)
    && (forall t :: Usable(s, t) && s.sessions[t].login == st.login ==> st.Looked? && t == st.token)
  }

  /** A token is looked up while another rotation of it has yet to revoke it. */
  predicate Overlaps(s: Server, e: Event) {
    && e.Lookup? && e.id !in s.inFlight && Accepts(s, e.token, e.now)
    && exists i :: i in s.inFlight && s.inFlight[i].Looked? && s.inFlight[i].token == e.token
  }

  /** A step keeps the chains in order exactly when it is not such a lookup. */
  lemma ChainExactly(s: Server, e: Event)
    requires ChainOk(s)
    ensures ChainOk(Step(s, e)) <==> !Overlaps(s, e)
  {
    var s' := Step(s, e);
    if Overlaps(s, e) {
      var i :| i in s.inFlight && s.inFlight[i].Looked? && s.inFlight[i].token == e.token;
      assert StageOk(s, s.inFlight[i]);
      assert s'.inFlight[i].login == s'.inFlight[e.id].login && i != e.id;
    } else {
      hide Step, Usable, StageOk;
      LoginsKept(s, e);
      OneRotationKept(s, e);
      StagesKept(s, e);
      UsableKept(s, e);
    }
  }

  lemma LoginsKept(s: Server, e: Event)
    requires ChainOk(s)
    ensures forall t :: t in Step(s, e).sessions ==> Step(s, e).sessions[t].login < Step(s, e).nextLogin
  {
  }

  lemma UsableKept(s: Server, e: Event)
    requires ChainOk(s) && !Overlaps(s, e)
    ensures var s' := Step(s, e);
      forall t, u :: Usable(s', t) && Usable(s', u) && s'.sessions[t].login == s'.sessions[u].login ==> t == u
  {
    var s' := Step(s, e);
    forall t, u | Usable(s', t) && Usable(s', u) && s'.sessions[t].login == s'.sessions[u].login
      ensures t == u
    {
      if e.IssueRefresh? && s' != s { assert StageOk(s, s.inFlight[e.id]); }
    }
  }

  lemma OneRotationKept(s: Server, e: Event)
    requires ChainOk(s) && !Overlaps(s, e)
    ensures var s' := Step(s, e);
      forall i, j :: i in s'.inFlight && j in s'.inFlight && s'.inFlight[i].login == s'.inFlight[j].login ==> i == j
  {
    if e.Lookup? && Accepts(s, e.token, e.now) && e.id !in s.inFlight {
      forall i | i in s.inFlight
        ensures s.inFlight[i].login != s.sessions[e.token].login
      {
        assert StageOk(s, s.inFlight[i]);
      }
    }
  }

  lemma StagesKept(s: Server, e: Event)
    requires ChainOk(s) && !Overlaps(s, e)
    ensures forall id :: id in Step(s, e).inFlight ==> StageOk(Step(s, e), Step(s, e).inFlight[id])
  {
    forall id | id in Step(s, e).inFlight
      ensures StageOk(Step(s, e), Step(s, e).inFlight[id])
    {
      StageKept(s, e, id);
    }
  }

  lemma StageKept(s: Server, e: Event, id: nat)
    requires ChainOk(s) && id in Step(s, e).inFlight
    ensures StageOk(Step(s, e), Step(s, e).inFlight[id])
  {
    var s', st := Step(s, e), Step(s, e).inFlight[id];
    StageOrigin(s, e, id);
    if id in s.inFlight { assert StageOk(s, s.inFlight[id]); }
    hide Step;
    SessionsKept(s, e, if st.Looked? then st.token else 0);
    forall t | Usable(s', t) && s'.sessions[t].login == st.login
      ensures st.Looked? && t == st.token
    {
      SessionsKept(s, e, t);
    }
  }

  lemma StageOrigin(s: Server, e: Event, id: nat)
    requires id in Step(s, e).inFlight
    ensures var s', st := Step(s, e), Step(s, e).inFlight[id];
      && s'.nextLogin >= s.nextLogin
      && if id !in s.inFlight then
           e.Lookup? && e.id == id && Usable(s, e.token) && st == Looked(e.token, s.sessions[e.token].login)
         else
           && st.login == s.inFlight[id].login
           && (st == s.inFlight[id]
               || (s.inFlight[id].Looked? && !st.Looked? && !Usable(s', s.inFlight[id].token))
               || (s.inFlight[id].Rotated? && !st.Looked?))
  {
  }

  /** A step that makes a token usable is the one that creates it. */
  lemma SessionsKept(s: Server, e: Event, t: nat)
    ensures var s' := Step(s, e);
      && (t in s.sessions ==>
            && t in s'.sessions && s'.sessions[t].kind == s.sessions[t].kind
            && s'.sessions[t].expiresAt == s.sessions[t].expiresAt
            && s'.sessions[t].login == s.sessions[t].login && (Usable(s', t) ==> Usable(s, t)))
      && (Usable(s', t) && t !in s.sessions ==>
            || (e.SignIn? && s'.sessions[t].login == s.nextLogin)
            || (e.IssueRefresh? && e.id in s.inFlight && s'.sessions[t].login == s.inFlight[e.id].login
                && s'.inFlight == s.inFlight - {e.id}))
  {
  }

  /** Two rotations that both found the token live end with two live refresh tokens of one sign-in. */
  lemma OverlapForks(s: Server, i: nat, j: nat, access: seq<nat>, refresh: seq<nat>, now: int)
    requires i != j && i in s.inFlight && j in s.inFlight
    requires s.inFlight[i].Looked? && s.inFlight[j] == s.inFlight[i] && s.inFlight[i].token in s.sessions
    requires |access| == |refresh| == 2 && access[0] !in s.sessions && access[1] !in s.sessions
    requires refresh[0] !in s.sessions && refresh[1] !in s.sessions
    requires access[0] != access[1] && refresh[0] != refresh[1] && access[0] !in refresh && access[1] !in refresh
    ensures var end := Run(s, Rotation(i, access[0], refresh[0], now) + Rotation(j, access[1], refresh[1], now));
      && Accepts(end, refresh[0], now) && Accepts(end, refresh[1], now)
      && end.sessions[refresh[0]].login == end.sessions[refresh[1]].login
  {
    RunJoins(s, Rotation(i, access[0], refresh[0], now), Rotation(j, access[1], refresh[1], now));
    RotationRuns(s, i, access[0], refresh[0], now);
    RotationRuns(Run(s, Rotation(i, access[0], refresh[0], now)), j, access[1], refresh[1], now);
  }

  /** The rest of a rotation after its lookup. */
  function Rotation(id: nat, access: nat, refresh: nat, now: int): seq<Event> {
    [Revoke(id), IssueAccess(id, access, now), IssueRefresh(id, refresh, now)]
  }

  lemma RotationRuns(s: Server, id: nat, access: nat, refresh: nat, now: int)
    requires id in s.inFlight && s.inFlight[id].Looked? && s.inFlight[id].token in s.sessions
    requires access !in s.sessions && refresh !in s.sessions && access != refresh
    ensures var l := s.inFlight[id].login;
      Run(s, Rotation(id, access, refresh, now))
      == Revoked(s, s.inFlight[id].token).(
           sessions := Revoked(s, s.inFlight[id].token).sessions
             [access := Session(Panel, l, false, now + PANEL_TTL)]
             [refresh := Session(Refresh, l, false, now + REFRESH_TTL)],
           inFlight := s.inFlight - {id})
  {
    var es := Rotation(id, access, refresh, now);
    assert es[1..] == [es[1], es[2]] && es[1..][1..] == [es[2]] && es[1..][1..][1..] == [];
    var s1 := Step(s, es[0]);
    var s2 := Step(s1, es[1]);
    var s3 := Step(s2, es[2]);
    assert Run(s, es) == Run(s1, es[1..]) == Run(s2, [es[2]]) == s3;
    assert s3.inFlight == s.inFlight - {id};
  }

  lemma {:induction false} RunJoins(s: Server, a: seq<Event>, b: seq<Event>)
    ensures Run(s, a + b) == Run(Run(s, a), b)
    decreases |a|
  {
    if a == [] {
      assert a + b == b;
    } else {
      assert (a + b)[1..] == a[1..] + b;
      RunJoins(Step(s, a[0]), a[1..], b);
    }
  }

  // ---------- runs ----------

  predicate Serial(s: Server, events: seq<Event>)
    decreases |events|
  {
    events != [] ==> !Overlaps(s, events[0]) && Serial(Step(s, events[0]), events[1..])
  }

  /** How many rotations use the token up. */
  function Rotations(s: Server, events: seq<Event>, t: nat): nat
    decreases |events|
  {
    if events == [] then 0
    else
      Rotations(Step(s, events[0]), events[1..], t)
      + var e := events[0];
        if e.Revoke? && e.id in s.inFlight && s.inFlight[e.id].Looked? && s.inFlight[e.id].token == t then 1 else 0
  }

  predicate CanStillRotate(s: Server, t: nat) {
    t in s.sessions ==>
      !s.sessions[t].revoked
      || exists i :: i in s.inFlight && s.inFlight[i].Looked? && s.inFlight[i].token == t
  }

  lemma OnceSpent(s: Server, e: Event, t: nat)
    requires ChainOk(s) && !CanStillRotate(s, t)
    ensures !CanStillRotate(Step(s, e), t)
  {
  }

  lemma SpentByRevoke(s: Server, e: Event, t: nat)
    requires ChainOk(s) && e.Revoke? && e.id in s.inFlight && s.inFlight[e.id].Looked? && s.inFlight[e.id].token == t
    ensures CanStillRotate(s, t) && !CanStillRotate(Step(s, e), t)
  {
    assert StageOk(s, s.inFlight[e.id]);
    forall i | i in s.inFlight && s.inFlight[i].Looked? && s.inFlight[i].token == t
      ensures i == e.id
    {
      assert StageOk(s, s.inFlight[i]);
    }
  }

  /** Along a run in which no lookup overlaps a rotation of the same token, the chains stay in
      order and no refresh token is used up twice. */
  lemma {:induction false} ChainsNeverFork(s: Server, events: seq<Event>, t: nat)
    requires ChainOk(s) && Serial(s, events)
    ensures ChainOk(Run(s, events))
    ensures Rotations(s, events, t) <= if CanStillRotate(s, t) then 1 else 0
    decreases |events|
  {
    if events != [] {
      var e := events[0];
      ChainExactly(s, e);
      ChainsNeverFork(Step(s, e), events[1..], t);
      if !CanStillRotate(s, t) { OnceSpent(s, e, t); }
      if e.Revoke? && e.id in s.inFlight && s.inFlight[e.id].Looked? && s.inFlight[e.id].token == t {
        SpentByRevoke(s, e, t);
      }
    }
  }

  // ---------- signing out ----------

  predicate UnrevokedOf(s: Server, t: nat, l: nat) {
    Usable(s, t) && s.sessions[t].login == l
  }

  /** The sign-in has no usable refresh token and no rotation under way. */
  ghost predicate Ended(s: Server, l: nat) {
    l < s.nextLogin && (forall t :: !UnrevokedOf(s, t, l)) && (forall i :: i in s.inFlight ==> s.inFlight[i].login != l)
  }

  lemma EndedStays(s: Server, e: Event, l: nat)
    requires Ended(s, l)
    ensures Ended(Step(s, e), l)
  {
    var s' := Step(s, e);
    forall t ensures !UnrevokedOf(s', t, l) {
      SessionsKept(s, e, t);
      assert !UnrevokedOf(s, t, l);
    }
    forall i | i in s'.inFlight ensures s'.inFlight[i].login != l {
      StageOrigin(s, e, i);
      if i !in s.inFlight { assert !UnrevokedOf(s, e.token, l); }
    }
    LoginsGrow(s, e);
    hide Step;
  }

  lemma LoginsGrow(s: Server, e: Event)
    ensures s.nextLogin <= Step(s, e).nextLogin
  {
  }

  lemma {:induction false} EndedForever(s: Server, events: seq<Event>, l: nat)
    requires Ended(s, l)
    ensures Ended(Run(s, events), l)
    decreases |events|
  {
    hide Step, Ended;
    if events != [] {
      EndedStays(s, events[0], l);
      EndedForever(Step(s, events[0]), events[1..], l);
    }
  }

  lemma {:induction false} AboveAll(tokens: set<nat>) returns (n: nat)
    ensures forall t :: t in tokens ==> t < n
  {
    if tokens == {} {
      n := 0;
    } else {
      var t :| t in tokens;
      var m := AboveAll(tokens - {t});
      n := if t < m then m else t + 1;
      assert forall u :: u in tokens ==> u == t || u in tokens - {t};
    }
  }

  /** A rotation under way issues its pair, whatever was revoked in the meantime. */
  lemma RotationOutlives(s: Server, i: nat) returns (events: seq<Event>, t: nat)
    requires i in s.inFlight
    ensures UnrevokedOf(Run(s, events), t, s.inFlight[i].login)
  {
    var n := AboveAll(s.sessions.Keys);
    t := n + 1;
    var s1 := Step(s, Revoke(i));
    assert s1.sessions.Keys == s.sessions.Keys && n !in s1.sessions && t !in s1.sessions;
    var s2 := Step(s1, IssueAccess(i, n, 0));
    assert t !in s2.sessions;
    var s3 := Step(s2, IssueRefresh(i, t, 0));
    assert UnrevokedOf(s3, t, s.inFlight[i].login);
    hide Step;
    RunOne(s, Revoke(i));
    RunLast(s, [Revoke(i)], IssueAccess(i, n, 0));
    RunLast(s, [Revoke(i)] + [IssueAccess(i, n, 0)], IssueRefresh(i, t, 0));
    events := [Revoke(i)] + [IssueAccess(i, n, 0)] + [IssueRefresh(i, t, 0)];
  }

  /** A sign-out ends a sign-in for good, no later event making a refresh token of it usable, if and
      only if no rotation of it is past its lookup when it happens. */
  lemma SignOutEndsExactly(s: Server, logins: set<nat>, l: nat)
    requires l in logins && l < s.nextLogin
    ensures (forall events, t :: !UnrevokedOf(Run(Step(s, SignOut(logins)), events), t, l))
      <==> forall i :: i in s.inFlight ==> s.inFlight[i].login != l
  {
    var out := Step(s, SignOut(logins));
    assert out.inFlight == s.inFlight && out.nextLogin == s.nextLogin && forall t :: !UnrevokedOf(out, t, l);
    hide Step, UnrevokedOf;
    if forall i :: i in s.inFlight ==> s.inFlight[i].login != l {
      forall events, t ensures !UnrevokedOf(Run(out, events), t, l) { EndedForever(out, events, l); }
    } else {
      var i :| i in s.inFlight && s.inFlight[i].login == l;
      var events, t := RotationOutlives(out, i);
    }
  }

  // ---------- whole requests ----------

  /** Where a rotation that passed its lookup stops. */
  datatype Outcome = RevokeFails | NoAccess | NoRefresh | Completes

  /** A sign-in, a sign-out, or a refresh request served from start to end. */
  datatype Request =
    | SignsIn(access: nat, refresh: nat, now: int)
    | SignsOut(logins: set<nat>)
    | Refreshes(id: nat, token: nat, access: nat, refresh: nat, now: int, outcome: Outcome)

  function Events(r: Request): seq<Event> {
    match r
    case SignsIn(access, refresh, now) => [SignIn(access, refresh, now)]
    case SignsOut(logins) => [SignOut(logins)]
    case Refreshes(id, t, access, refresh, now, outcome) =>
      [Lookup(id, t, now)]
      + (if outcome.RevokeFails? then [] else [Revoke(id)])
      + (if outcome.RevokeFails? || outcome.NoAccess? then [] else [IssueAccess(id, access, now)])
      + (if outcome.Completes? then [IssueRefresh(id, refresh, now)] else [])
      + [Abort(id)]
  }

  function AllEvents(rs: seq<Request>): seq<Event> {
    if rs == [] then [] else Events(rs[0]) + AllEvents(rs[1..])
  }

  lemma {:induction false} SerialJoins(s: Server, a: seq<Event>, b: seq<Event>)
    requires Serial(s, a) && Serial(Run(s, a), b)
    ensures Serial(s, a + b)
    decreases |a|
  {
    if a == [] {
      assert a + b == b;
    } else {
      assert (a + b)[1..] == a[1..] + b;
      SerialJoins(Step(s, a[0]), a[1..], b);
    }
  }

  lemma {:induction false} SerialWithoutLookups(s: Server, events: seq<Event>)
    requires forall i :: 0 <= i < |events| ==> !events[i].Lookup?
    ensures Serial(s, events)
    decreases |events|
  {
    if events != [] { SerialWithoutLookups(Step(s, events[0]), events[1..]); }
  }

  lemma {:induction false} OnlyThisRotation(s: Server, events: seq<Event>, id: nat)
    requires s.inFlight.Keys <= {id}
    requires forall i :: 0 <= i < |events| ==>
      events[i].SignIn? || events[i].SignOut? || (!events[i].Lookup? && events[i].id == id)
    ensures Run(s, events).inFlight.Keys <= {id}
    decreases |events|
  {
    if events != [] { OnlyThisRotation(Step(s, events[0]), events[1..], id); }
  }

  lemma RequestIsSerial(s: Server, r: Request)
    requires s.inFlight == map[]
    ensures Serial(s, Events(r)) && Run(s, Events(r)).inFlight == map[]
  {
    var es := Events(r);
    if r.Refreshes? {
      var mid := es[1..|es| - 1];
      var s1 := Step(s, es[0]);
      assert es == [es[0]] + (mid + [Abort(r.id)]);
      assert es[1..] == mid + [Abort(r.id)];
      SerialWithoutLookups(s1, es[1..]);
      OnlyThisRotation(s1, mid, r.id);
      RunJoins(s1, mid, [Abort(r.id)]);
      var s2 := Run(s1, mid);
      assert [Abort(r.id)][1..] == [];
      assert Run(s2, [Abort(r.id)]) == Step(s2, Abort(r.id));
    } else {
      assert es[1..] == [];
    }
  }

  lemma {:induction false} RequestsAreSerial(s: Server, rs: seq<Request>)
    requires s.inFlight == map[]
    ensures Serial(s, AllEvents(rs)) && Run(s, AllEvents(rs)).inFlight == map[]
    decreases |rs|
  {
    if rs != [] {
      RequestIsSerial(s, rs[0]);
      RequestsAreSerial(Run(s, Events(rs[0])), rs[1..]);
      RunJoins(s, Events(rs[0]), AllEvents(rs[1..]));
      SerialJoins(s, Events(rs[0]), AllEvents(rs[1..]));
    }
  }

  /** With requests served one at a time, each refresh token is used up at most once and each
      sign-in has at most one live refresh token. */
  lemma AtomicRequestsNeverFork(rs: seq<Request>, t: nat, u: nat, now: int)
    ensures var events := AllEvents(rs);
      var end := Run(Empty, events);
      && Rotations(Empty, events, t) <= 1
      && (Accepts(end, t, now) && Accepts(end, u, now) && end.sessions[t].login == end.sessions[u].login ==> t == u)
  {
    RequestsAreSerial(Empty, rs);
    ChainsNeverFork(Empty, AllEvents(rs), t);
  }

  // ---------- the handler ----------

  datatype Answer = Issued(access: nat, refresh: nat) | Refused

  /** A refresh request served without interruption; the arguments after the token are the fresh
      tokens, the time, and where the store gives out. */
  class SessionStore {
    var sessions: map<nat, Session>

    function View(nextLogin: nat): Server
      reads this
    {
      Server(sessions, map[], nextLogin)
    }

    method LookupSession(token: nat, now: int) returns (found: bool, kind: Kind, login: nat)
      ensures found <==> token in sessions && !sessions[token].revoked && now < sessions[token].expiresAt
      ensures found ==> kind == sessions[token].kind && login == sessions[token].login
    {
      found, kind, login := false, Extension, 0;
      if token in sessions && !sessions[token].revoked && now < sessions[token].expiresAt {
        found, kind, login := true, sessions[token].kind, sessions[token].login;
      }
    }

    method InsertSession(token: nat, kind: Kind, login: nat, now: int, ttl: int)
      requires token !in sessions
      modifies this
      ensures sessions == old(sessions)[token := Session(kind, login, false, now + ttl)]
    {
      sessions := sessions[token := Session(kind, login, false, now + ttl)];
    }

    method HandleRefresh(ghost id: nat, token: nat, access: nat, refresh: nat, now: int, outcome: Outcome,
                         ghost nextLogin: nat)
      returns (a: Answer)
      requires access !in sessions && refresh !in sessions && access != refresh
      modifies this
      ensures View(nextLogin) == Run(old(View(nextLogin)), Events(Refreshes(id, token, access, refresh, now, outcome)))
      ensures a == if Accepts(old(View(nextLogin)), token, now) && outcome.Completes?
                   then Issued(access, refresh) else Refused
    {
      ghost var start := View(nextLogin);
      HandlerRuns(start, id, token, access, refresh, now, outcome);
      var found, kind, login := LookupSession(token, now);
      if !found || kind != Refresh { return Refused; }
      if outcome.RevokeFails? { return Refused; }
      sessions := sessions[token := sessions[token].(revoked := true)];
      if outcome.NoAccess? { return Refused; }
      InsertSession(access, Panel, login, now, PANEL_TTL);
      if outcome.NoRefresh? { return Refused; }
      InsertSession(refresh, Refresh, login, now, REFRESH_TTL);
      return Issued(access, refresh);
    }
  }

  /** Which of four successive values a rotation with this outcome gets to. */
  function AtOutcome<T>(outcome: Outcome, a: T, b: T, c: T, d: T): T {
    match outcome case RevokeFails => a case NoAccess => b case NoRefresh => c case Completes => d
  }

  lemma HandlerRuns(s: Server, id: nat, t: nat, access: nat, refresh: nat, now: int, outcome: Outcome)
    requires s.inFlight == map[] && access !in s.sessions && refresh !in s.sessions && access != refresh
    ensures var end := Run(s, Events(Refreshes(id, t, access, refresh, now, outcome)));
      && end.inFlight == map[] && end.nextLogin == s.nextLogin
      && end.sessions
         == if !Accepts(s, t, now) || outcome.RevokeFails? then s.sessions
            else
              var l := s.sessions[t].login;
              var s1 := s.sessions[t := s.sessions[t].(revoked := true)];
              var s2 := s1[access := Session(Panel, l, false, now + PANEL_TTL)];
              if outcome.NoAccess? then s1
              else if outcome.NoRefresh? then s2
              else s2[refresh := Session(Refresh, l, false, now + REFRESH_TTL)]
  {
    var s1 := Step(s, Lookup(id, t, now));
    var s2 := Step(s1, Revoke(id));
    var s3 := Step(s2, IssueAccess(id, access, now));
    var s4 := Step(s3, IssueRefresh(id, refresh, now));
    RequestSteps(s, id, t, access, refresh, now, outcome);
    assert Step(AtOutcome(outcome, s1, s2, s3, s4), Abort(id)).inFlight == map[];
  }

  lemma RequestSteps(s: Server, id: nat, t: nat, access: nat, refresh: nat, now: int, outcome: Outcome)
    ensures var s1 := Step(s, Lookup(id, t, now));
      var s2 := Step(s1, Revoke(id));
      var s3 := Step(s2, IssueAccess(id, access, now));
      var s4 := Step(s3, IssueRefresh(id, refresh, now));
      Run(s, Events(Refreshes(id, t, access, refresh, now, outcome)))
      == Step(AtOutcome(outcome, s1, s2, s3, s4), Abort(id))
  {
    hide Step;
    var es := Events(Refreshes(id, t, access, refresh, now, outcome));
    var e1 := [Lookup(id, t, now)];
    var e2 := e1 + [Revoke(id)];
    var e3 := e2 + [IssueAccess(id, access, now)];
    var e4 := e3 + [IssueRefresh(id, refresh, now)];
    RunOne(s, Lookup(id, t, now));
    RunLast(s, e1, Revoke(id));
    RunLast(s, e2, IssueAccess(id, access, now));
    RunLast(s, e3, IssueRefresh(id, refresh, now));
    var before := AtOutcome(outcome, e1, e2, e3, e4);
    assert es == before + [Abort(id)];
    RunLast(s, before, Abort(id));
  }

  lemma RunOne(s: Server, e: Event)
    ensures Run(s, [e]) == Step(s, e)
  {
    hide Step;
    assert [e][1..] == [];
  }

  lemma RunLast(s: Server, events: seq<Event>, e: Event)
    ensures Run(s, events + [e]) == Step(Run(s, events), e)
  {
    RunJoins(s, events, [e]);
    RunOne(Run(s, events), e);
  }
}
