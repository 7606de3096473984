/** How long each token is good: from the moment it is issued until its lifetime is over, it is rotated
    or its sign-in signs out. */
module SessionLife {
  import opened Sessions

  /** The event issues this token. A sign-in issues an access token for a quarter of an hour and a refresh
      token for seven days; a rotation issues the same to the sign-in it is for. */
  predicate Issues(s: Server, e: Event, t: nat, kind: Kind, login: nat, until: int) {
    && t !in s.sessions
    && match e
       case SignIn(access, refresh, now) =>
         && access !in s.sessions && refresh !in s.sessions && access != refresh && login == s.nextLogin
         && ((t == access && kind == Panel && until == now + 15 * 60 * SECOND)
             || (t == refresh && kind == Refresh && until == now + 7 * 24 * 60 * 60 * SECOND))
       case IssueAccess(id, access, now) =>
         && t == access && kind == Panel && until == now + 15 * 60 * SECOND
         && id in s.inFlight && s.inFlight[id] == Rotated(login)
       case IssueRefresh(id, refresh, now) =>
         && t == refresh && kind == Refresh && until == now + 7 * 24 * 60 * 60 * SECOND
         && id in s.inFlight && s.inFlight[id].Granted? && s.inFlight[id].login == login
       case _ => false
  }

  const SECOND: int := 1_000_000

  /** A rotation that looked the token up revokes it, or its sign-in signs out. */
  predicate Withdraws(s: Server, e: Event, t: nat) {
    match e
    case Revoke(id) => id in s.inFlight && s.inFlight[id].Looked? && s.inFlight[id].token == t
    case SignOut(logins) => t in s.sessions && s.sessions[t].login in logins
    case _ => false
  }

  predicate Alive(s: Server, t: nat, kind: Kind, login: nat, until: int) {
    t in s.sessions && s.sessions[t] == Session(kind, login, false, until)
  }

  lemma AliveStep(s: Server, e: Event, t: nat, kind: Kind, login: nat, until: int)
    ensures Alive(Step(s, e), t, kind, login, until)
      <==> Issues(s, e, t, kind, login, until) || (Alive(s, t, kind, login, until) && !Withdraws(s, e, t))
  {
  }

  /** The i-th event issued the token and no later one withdrew it. */
  ghost predicate IssuedAt(events: seq<Event>, i: nat, t: nat, kind: Kind, login: nat, until: int) {
    && i < |events| && Issues(Run(Empty, events[..i]), events[i], t, kind, login, until)
    && forall j :: i < j < |events| ==> !Withdraws(Run(Empty, events[..j]), events[j], t)
  }

  /** In every run a session is good exactly when some event issued it and none withdrew it since. */
  lemma {:induction false} AliveExactly(events: seq<Event>, t: nat, kind: Kind, login: nat, until: int)
    ensures Alive(Run(Empty, events), t, kind, login, until)
      <==> exists i :: 0 <= i < |events| && IssuedAt(events, i, t, kind, login, until)
  {
    hide Step, Issues, Withdraws;
    if events != [] {
      var n := |events| - 1;
      var init, e := events[..n], events[n];
      assert events == init + [e];
      var before := Run(Empty, init);
      AliveExactly(init, t, kind, login, until);
      RunLast(Empty, init, e);
      AliveStep(before, e, t, kind, login, until);
      assert forall i :: 0 <= i < n ==> init[..i] == events[..i];
      forall i | 0 <= i < n
        ensures IssuedAt(events, i, t, kind, login, until)
          <==> (IssuedAt(init, i, t, kind, login, until) && !Withdraws(before, e, t))
      {
        Extended(init, e, i, t, kind, login, until);
      }
      assert Issues(before, e, t, kind, login, until) ==> IssuedAt(events, n, t, kind, login, until);
      hide Run, Alive, IssuedAt;
      if IssuedAt(events, n, t, kind, login, until) { IssuedNow(events, t, kind, login, until); }
    }
  }

  lemma IssuedNow(events: seq<Event>, t: nat, kind: Kind, login: nat, until: int)
    requires events != [] && IssuedAt(events, |events| - 1, t, kind, login, until)
    ensures Issues(Run(Empty, events[..|events| - 1]), events[|events| - 1], t, kind, login, until)
  {
  }

  lemma Extended(init: seq<Event>, e: Event, i: nat, t: nat, kind: Kind, login: nat, until: int)
    requires i < |init|
    ensures IssuedAt(init + [e], i, t, kind, login, until)
      <==> IssuedAt(init, i, t, kind, login, until) && !Withdraws(Run(Empty, init), e, t)
  {
    hide Run, Issues, Withdraws;
    var events, n := init + [e], |init|;
    assert forall j :: 0 <= j < n ==> events[..j] == init[..j] && events[j] == init[j];
    assert events[..n] == init;
    if IssuedAt(init, i, t, kind, login, until) && !Withdraws(Run(Empty, init), e, t) {
      forall j | i < j < |events| ensures !Withdraws(Run(Empty, events[..j]), events[j], t) {
        if j < n { assert !Withdraws(Run(Empty, init[..j]), init[j], t); }
      }
    }
    if IssuedAt(events, i, t, kind, login, until) {
      assert !Withdraws(Run(Empty, events[..n]), events[n], t);
      forall j | i < j < n ensures !Withdraws(Run(Empty, init[..j]), init[j], t) {
        assert !Withdraws(Run(Empty, events[..j]), events[j], t);
      }
    }
  }

  /** A refresh token is accepted exactly for seven days from its issue, unless it was withdrawn. */
  lemma AcceptedExactly(events: seq<Event>, t: nat, now: int)
    ensures Accepts(Run(Empty, events), t, now)
      <==> exists i, login, until :: 0 <= i < |events| && now < until && IssuedAt(events, i, t, Refresh, login, until)
  {
    hide Run, IssuedAt;
    var s := Run(Empty, events);
    if Accepts(s, t, now) {
      var x := s.sessions[t];
      assert Alive(s, t, Refresh, x.login, x.expiresAt);
      AliveExactly(events, t, Refresh, x.login, x.expiresAt);
    }
    if i, login, until :| 0 <= i < |events| && now < until && IssuedAt(events, i, t, Refresh, login, until) {
      AliveExactly(events, t, Refresh, login, until);
    }
  }
}
