/** The event broker behind the server-sent-event streams. Publishing shares a read lock and sends
    channel by channel, so publications interleave; subscribing and unsubscribing wait until no
    publication is under way. */
module Broker {

  const CAPACITY: nat := 64

  datatype Channel = Channel(buffer: seq<nat>, open: bool)

  /** A publication under way and the channels it has still to try. */
  datatype Publishing = Publishing(org: nat, rest: seq<nat>)

  datatype State = State(
    subscribers: map<nat, seq<nat>>,        // the channels of each organisation
    channels: map<nat, Channel>,
    publishing: map<nat, Publishing>)       // by the event's fresh id

  datatype Event =
    | Subscribe(org: nat, ch: nat)
    | Unsubscribe(org: nat, ch: nat)
    | Begin(org: nat, msg: nat)
    | Offer(msg: nat)
    | Receive(ch: nat)

  function Subs(b: State, org: nat): seq<nat> {
    if org in b.subscribers then b.subscribers[org] else []
  }

  /** A send that drops the event when the buffer is full. */
  function Sent(c: Channel, msg: nat): Channel {
    if |c.buffer| < CAPACITY then c.(buffer := c.buffer + [msg]) else c
  }

  function Without(s: seq<nat>, x: nat): seq<nat> {
    if s == [] then [] else if s[0] == x then s[1..] else [s[0]] + Without(s[1..], x)
  }

  predicate NoDuplicates(s: seq<nat>) {
    forall i, j :: 0 <= i < j < |s| ==> s[i] != s[j]
  }

  function Step(b: State, e: Event): State {
    match e
    case Subscribe(org, ch) =>
      if b.publishing != map[] || ch in b.channels then b
      else b.(channels := b.channels[ch := Channel([], true)], subscribers := b.subscribers[org := Subs(b, org) + [ch]])
    case Unsubscribe(org, ch) =>
      if b.publishing != map[] || ch !in Subs(b, org) || ch !in b.channels then b
      else b.(subscribers := b.subscribers[org := Without(Subs(b, org), ch)],
              channels := b.channels[ch := b.channels[ch].(open := false)])
    case Begin(org, msg) =>
      if msg in b.publishing || Subs(b, org) == [] then b
      else b.(publishing := b.publishing[msg := Publishing(org, Subs(b, org))])
    case Offer(msg) =>
      if msg !in b.publishing || b.publishing[msg].rest == [] || b.publishing[msg].rest[0] !in b.channels then b
      else
        var p := b.publishing[msg];
        var ch, rest := p.rest[0], p.rest[1..];
        b.(channels := b.channels[ch := Sent(b.channels[ch], msg)],
           publishing := if rest == [] then b.publishing - {msg} else b.publishing[msg := p.(rest := rest)])
    case Receive(ch) =>
      if ch !in b.channels || b.channels[ch].buffer == [] then b
      else b.(channels := b.channels[ch := b.channels[ch].(buffer := b.channels[ch].buffer[1..])])
  }

  // ---------- what a run has done ----------

  /** A channel's organisation, what its reader got, what was offered to it in order, the events
      its organisation published while it was subscribed, and whether an offer found it full. */
  datatype Log = Log(org: nat, read: seq<nat>, offered: seq<nat>, due: set<nat>, overflowed: bool)

  datatype World = World(b: State, logs: map<nat, Log>, origin: map<nat, nat>)

  /** Event ids are drawn fresh. */
  function Next(w: World, e: Event): World {
    match e
    case Subscribe(org, ch) =>
      if w.b.publishing != map[] || ch in w.b.channels then w
      else w.(b := Step(w.b, e), logs := w.logs[ch := Log(org, [], [], {}, false)])
    case Unsubscribe(_, _) => w.(b := Step(w.b, e))
    case Begin(org, msg) =>
      if msg in w.origin then w
      else
        w.(b := Step(w.b, e), origin := w.origin[msg := org],
           logs := map ch | ch in w.logs ::
             if ch in Subs(w.b, org) then w.logs[ch].(due := w.logs[ch].due + {msg}) else w.logs[ch])
    case Offer(msg) =>
      if Step(w.b, e) == w.b then w
      else
        var ch := w.b.publishing[msg].rest[0];
        if ch !in w.logs then w
        else
          w.(b := Step(w.b, e),
             logs := w.logs[ch := w.logs[ch].(offered := w.logs[ch].offered + [msg],
                            overflowed := w.logs[ch].overflowed || |w.b.channels[ch].buffer| >= CAPACITY)])
    case Receive(ch) =>
      if ch !in w.b.channels || w.b.channels[ch].buffer == [] || ch !in w.logs then w
      else
        w.(b := Step(w.b, e),
           logs := w.logs[ch := w.logs[ch].(read := w.logs[ch].read + [w.b.channels[ch].buffer[0]])])
  }

  const Start: World := World(State(map[], map[], map[]), map[], map[])

  function Run(events: seq<Event>): World {
    if events == [] then Start else Next(Run(events[..|events| - 1]), events[|events| - 1])
  }

  predicate IsSubsequence(a: seq<nat>, s: seq<nat>)
    decreases |s|
  {
    || a == []
    || (s != [] && (IsSubsequence(a, s[..|s| - 1])
                    || (a[|a| - 1] == s[|s| - 1] && IsSubsequence(a[..|a| - 1], s[..|s| - 1]))))
  }

  lemma SubsequenceGrows(a: seq<nat>, s: seq<nat>, x: nat)
    requires IsSubsequence(a, s)
    ensures IsSubsequence(a, s + [x]) && IsSubsequence(a + [x], s + [x])
  {
    assert (s + [x])[..|s|] == s && (a + [x])[..|a|] == a;
  }

  // ---------- the invariant ----------

  /** What a channel has received or holds, against what it was offered. */
  ghost predicate ChannelOk(c: Channel, l: Log) {
    && |c.buffer| <= CAPACITY
    && IsSubsequence(l.read + c.buffer, l.offered)
    && (!l.overflowed ==> l.read + c.buffer == l.offered)
    && NoDuplicates(l.offered)
  }

  /** Whether the publication of this event has still to try the channel. */
  predicate Owed(b: State, msg: nat, ch: nat) {
    msg in b.publishing && ch in b.publishing[msg].rest
  }

  /** The channel's offers are its organisation's publications, except those still owed to it. */
  ghost predicate LogOk(w: World, ch: nat, l: Log) {
    && (forall m :: m in l.due ==> m in w.origin && w.origin[m] == l.org)
    && (forall m :: m in l.offered <==> m in l.due && !Owed(w.b, m, ch))
    && (forall m :: Owed(w.b, m, ch) ==> m in l.due)
  }

  ghost predicate Registered(w: World) {
    forall org :: org in w.b.subscribers ==>
      && NoDuplicates(w.b.subscribers[org])
      && forall ch :: ch in w.b.subscribers[org] ==>
           ch in w.b.channels && w.b.channels[ch].open && ch in w.logs && w.logs[ch].org == org
  }

  ghost predicate InProgress(w: World) {
    forall m :: m in w.b.publishing ==> PublishingOk(w, m, w.b.publishing[m])
  }

  ghost predicate PublishingOk(w: World, m: nat, p: Publishing) {
    && m in w.origin && p.org == w.origin[m]
    && p.rest != [] && NoDuplicates(p.rest)
    && forall ch :: ch in p.rest ==> ch in Subs(w.b, p.org)
  }

  ghost predicate ChannelsOk(w: World) {
    && w.logs.Keys == w.b.channels.Keys
    && forall ch :: ch in w.logs ==> ChannelOk(w.b.channels[ch], w.logs[ch])
  }

  ghost predicate LogsOk(w: World) {
    forall ch :: ch in w.logs ==> LogOk(w, ch, w.logs[ch])
  }

  ghost predicate WorldOk(w: World) {
    Registered(w) && InProgress(w) && ChannelsOk(w) && LogsOk(w)
  }

  /** The channel is registered with some organisation. */
  predicate Subscribed(b: State, ch: nat) {
    exists org :: org in b.subscribers && ch in b.subscribers[org]
  }

  // ---------- every event keeps it ----------

  lemma {:induction false} WithoutKeeps(s: seq<nat>, x: nat)
    requires NoDuplicates(s)
    ensures NoDuplicates(Without(s, x)) && forall y :: y in Without(s, x) <==> y in s && y != x
  {
    if s != [] {
      assert s[0] !in s[1..];
      if s[0] != x {
        WithoutKeeps(s[1..], x);
        assert Without(s, x) == [s[0]] + Without(s[1..], x) && s[0] !in Without(s[1..], x);
      }
    }
  }

  lemma RegisteredKept(w: World, e: Event)
    requires WorldOk(w)
    ensures Registered(Next(w, e))
  {
    hide ChannelsOk, LogsOk, InProgress, Without, Registered, Next;
    match e
    case Subscribe(org, ch) => SubscribeRegistered(w, org, ch);
    case Unsubscribe(org, ch) => UnsubscribeRegistered(w, org, ch);
    case _ => OthersRegistered(w, e);
  }

  lemma SubscribeRegistered(w: World, org: nat, ch: nat)
    requires Registered(w)
    ensures Registered(Next(w, Subscribe(org, ch)))
  {
  }

  lemma UnsubscribeRegistered(w: World, org: nat, ch: nat)
    requires Registered(w)
    ensures Registered(Next(w, Unsubscribe(org, ch)))
  {
    hide Without;
    if ch in Subs(w.b, org) { WithoutKeeps(Subs(w.b, org), ch); }
  }

  lemma OthersRegistered(w: World, e: Event)
    requires Registered(w) && !e.Subscribe? && !e.Unsubscribe?
    ensures Registered(Next(w, e))
  {
    hide NoDuplicates;
  }

  lemma RestNoDuplicates(s: seq<nat>)
    requires NoDuplicates(s) && s != []
    ensures NoDuplicates(s[1..]) && forall y :: y in s[1..] ==> y in s
  {
  }

  lemma InProgressKept(w: World, e: Event)
    requires WorldOk(w)
    ensures InProgress(Next(w, e))
  {
    hide ChannelOk, LogOk, Sent, Without, ChannelsOk, LogsOk;
    var w' := Next(w, e);
    forall m | m in w'.b.publishing
      ensures PublishingOk(w', m, w'.b.publishing[m])
    {
      if m in w.b.publishing {
        assert PublishingOk(w, m, w.b.publishing[m]);
        RestNoDuplicates(w.b.publishing[m].rest);
      }
    }
  }

  lemma NewChannel(org: nat)
    ensures ChannelOk(Channel([], true), Log(org, [], [], {}, false))
  {
  }

  lemma OfferToChannel(c: Channel, l: Log, msg: nat)
    requires ChannelOk(c, l) && msg !in l.offered
    ensures ChannelOk(Sent(c, msg), l.(offered := l.offered + [msg],
                                       overflowed := l.overflowed || |c.buffer| >= CAPACITY))
  {
    SubsequenceGrows(l.read + c.buffer, l.offered, msg);
    assert l.read + (c.buffer + [msg]) == l.read + c.buffer + [msg];
    hide IsSubsequence;
  }

  lemma ReceiveFromChannel(c: Channel, l: Log)
    requires ChannelOk(c, l) && c.buffer != []
    ensures ChannelOk(c.(buffer := c.buffer[1..]), l.(read := l.read + [c.buffer[0]]))
  {
    assert l.read + [c.buffer[0]] + c.buffer[1..] == l.read + c.buffer;
    hide IsSubsequence;
  }

  /** A publication owes each channel its event once. */
  lemma OfferIsDue(w: World, msg: nat)
    requires WorldOk(w) && Step(w.b, Offer(msg)) != w.b
    ensures var ch := w.b.publishing[msg].rest[0];
      && ch in w.logs && Owed(w.b, msg, ch) && msg !in w.logs[ch].offered && msg in w.logs[ch].due
      && forall m, c :: Owed(Step(w.b, Offer(msg)), m, c) <==> Owed(w.b, m, c) && !(m == msg && c == ch)
  {
    hide ChannelOk, Sent;
    var rest := w.b.publishing[msg].rest;
    assert PublishingOk(w, msg, w.b.publishing[msg]);
    assert rest == [rest[0]] + rest[1..] && rest[0] !in rest[1..];
    assert Owed(w.b, msg, rest[0]) && LogOk(w, rest[0], w.logs[rest[0]]);
  }

  lemma ChannelsKept(w: World, e: Event)
    requires WorldOk(w)
    ensures ChannelsOk(Next(w, e))
  {
    hide ChannelOk, LogOk, PublishingOk, Sent, Without;
    var w' := Next(w, e);
    match e
    case Subscribe(org, ch) => NewChannel(org);
    case Unsubscribe(org, ch) => if w' != w { UnsubscribedChannel(w.b.channels[ch], w.logs[ch]); }
    case Begin(_, msg) =>
      forall ch | ch in w'.logs
        ensures ChannelOk(w'.b.channels[ch], w'.logs[ch])
      {
        DueOnly(w.b.channels[ch], w.logs[ch], w.logs[ch].due + {msg});
      }
    case Offer(msg) =>
      if Step(w.b, e) != w.b {
        OfferIsDue(w, msg);
        var ch := w.b.publishing[msg].rest[0];
        OfferToChannel(w.b.channels[ch], w.logs[ch], msg);
      }
    case Receive(ch) => if w' != w { ReceiveFromChannel(w.b.channels[ch], w.logs[ch]); }
  }

  lemma UnsubscribedChannel(c: Channel, l: Log)
    requires ChannelOk(c, l)
    ensures ChannelOk(c.(open := false), l)
  {
    hide IsSubsequence;
  }

  lemma DueOnly(c: Channel, l: Log, due: set<nat>)
    requires ChannelOk(c, l)
    ensures ChannelOk(c, l.(due := due))
  {
    hide IsSubsequence;
  }

  lemma LogsKept(w: World, e: Event)
    requires WorldOk(w)
    ensures LogsOk(Next(w, e))
  {
    hide LogOk, ChannelOk, Sent, Without;
    var w' := Next(w, e);
    forall ch | ch in w'.logs
      ensures LogOk(w', ch, w'.logs[ch])
    {
      if e.Begin? {
        BeginLog(w, e.org, e.msg, ch);
      } else if e.Offer? {
        OfferLog(w, e.msg, ch);
      } else if ch in w.logs {
        QuietLog(w, e, ch);
      } else {
        NewLog(w, e, ch);
      }
    }
  }

  lemma QuietLog(w: World, e: Event, ch: nat)
    requires WorldOk(w) && ch in w.logs && !e.Begin? && !e.Offer?
    ensures ch in Next(w, e).logs && LogOk(Next(w, e), ch, Next(w, e).logs[ch])
  {
    hide ChannelOk, PublishingOk, Registered, InProgress, Without;
    assert LogOk(w, ch, w.logs[ch]);
    assert Next(w, e).b.publishing == w.b.publishing;
  }

  lemma NewLog(w: World, e: Event, ch: nat)
    requires ch !in w.logs && ch in Next(w, e).logs && e.Subscribe?
    ensures LogOk(Next(w, e), ch, Next(w, e).logs[ch])
  {
    hide Without;
  }

  lemma BeginLog(w: World, org: nat, msg: nat, ch: nat)
    requires WorldOk(w) && ch in w.logs
    ensures var w' := Next(w, Begin(org, msg)); ch in w'.logs && LogOk(w', ch, w'.logs[ch])
  {
    hide ChannelOk, ChannelsOk;
    assert LogOk(w, ch, w.logs[ch]);
    if msg !in w.origin {
      assert msg !in w.logs[ch].due;
      assert msg !in w.b.publishing;
      hide InProgress, PublishingOk, LogsOk;
      var w' := Next(w, Begin(org, msg));
      assert forall m :: Owed(w'.b, m, ch) <==> Owed(w.b, m, ch) || (m == msg && ch in Subs(w.b, org));
    }
  }

  lemma OfferEffect(w: World, msg: nat)
    requires Step(w.b, Offer(msg)) != w.b && w.b.publishing[msg].rest[0] in w.logs
    ensures var ch, w' := w.b.publishing[msg].rest[0], Next(w, Offer(msg));
      && w'.b == Step(w.b, Offer(msg)) && w'.origin == w.origin && w'.logs.Keys == w.logs.Keys
      && w'.logs[ch].(overflowed := w.logs[ch].overflowed) == w.logs[ch].(offered := w.logs[ch].offered + [msg])
      && forall c :: c in w.logs && c != ch ==> w'.logs[c] == w.logs[c]
  {
    hide Step, Sent;
  }

  lemma OwedLess(w: World, w': World, ch: nat, l: Log, l': Log, msg: nat, hit: bool)
    requires LogOk(w, ch, l) && w'.origin == w.origin && l'.org == l.org && l'.due == l.due
    requires l'.offered == (if hit then l.offered + [msg] else l.offered) && (hit ==> msg in l.due)
    requires forall m :: Owed(w'.b, m, ch) <==> Owed(w.b, m, ch) && !(hit && m == msg)
    ensures LogOk(w', ch, l')
  {
    hide Owed;
  }

  lemma OfferLog(w: World, msg: nat, ch: nat)
    requires WorldOk(w) && ch in Next(w, Offer(msg)).logs
    ensures var w' := Next(w, Offer(msg)); LogOk(w', ch, w'.logs[ch])
  {
    var w' := Next(w, Offer(msg));
    hide LogOk, ChannelOk, Owed, Sent;
    if Step(w.b, Offer(msg)) != w.b {
      OfferIsDue(w, msg);
      OfferEffect(w, msg);
      hide Step, Next;
      OwedLess(w, w', ch, w.logs[ch], w'.logs[ch], msg, ch == w.b.publishing[msg].rest[0]);
    } else {
      assert w' == w;
    }
  }

  lemma {:induction false} RunKept(events: seq<Event>)
    ensures WorldOk(Run(events))
  {
    hide Registered, InProgress, ChannelsOk, LogsOk, Next;
    if events == [] {
      StartOk();
    } else {
      var w, e := Run(events[..|events| - 1]), events[|events| - 1];
      RunKept(events[..|events| - 1]);
      RegisteredKept(w, e);
      InProgressKept(w, e);
      ChannelsKept(w, e);
      LogsKept(w, e);
    }
  }

  lemma StartOk()
    ensures WorldOk(Start)
  {
  }

  // ---------- what subscribers get ----------

  /** What a subscriber has read and still holds is a subsequence of what it was offered, and all
      of it unless an offer found the buffer full. Nothing is offered twice, and what was offered
      is what its own organisation published while it was subscribed, up to publications that have
      yet to reach it. */
  lemma DeliveryExactly(events: seq<Event>, ch: nat)
    requires ch in Run(events).logs && ch in Run(events).b.channels
    ensures var w := Run(events);
      var l, got := w.logs[ch], w.logs[ch].read + w.b.channels[ch].buffer;
      && IsSubsequence(got, l.offered) && (!l.overflowed ==> got == l.offered)
      && NoDuplicates(l.offered)
      && (forall m :: m in l.offered <==> m in l.due && !Owed(w.b, m, ch))
      && (w.b.publishing == map[] ==> forall m :: m in l.offered <==> m in l.due)
  {
    RunKept(events);
    var w := Run(events);
    assert ChannelOk(w.b.channels[ch], w.logs[ch]) && LogOk(w, ch, w.logs[ch]);
  }

  lemma {:induction false} SubsequenceElements(a: seq<nat>, s: seq<nat>, x: nat)
    requires IsSubsequence(a, s) && x in a
    ensures x in s
    decreases |s|
  {
    var i := |s| - 1;
    if IsSubsequence(a, s[..i]) {
      SubsequenceElements(a, s[..i], x);
    } else if x != a[|a| - 1] {
      SubsequenceElements(a[..|a| - 1], s[..i], x);
    }
  }

  /** No event crosses organisations, no closed channel stays registered, and no publication is
      about to send on a closed channel. */
  lemma NothingCrosses(events: seq<Event>, ch: nat, m: nat, org: nat)
    ensures var w := Run(events);
      && (ch in w.logs && ch in w.b.channels && m in w.logs[ch].read + w.b.channels[ch].buffer ==>
            m in w.origin && w.origin[m] == w.logs[ch].org)
      && (ch in Subs(w.b, org) ==> ch in w.b.channels && w.b.channels[ch].open)
      && (Owed(w.b, m, ch) ==> ch in w.b.channels && w.b.channels[ch].open)
  {
    RunKept(events);
    var w := Run(events);
    if ch in w.logs && m in w.logs[ch].read + w.b.channels[ch].buffer {
      assert ChannelOk(w.b.channels[ch], w.logs[ch]) && LogOk(w, ch, w.logs[ch]);
      SubsequenceElements(w.logs[ch].read + w.b.channels[ch].buffer, w.logs[ch].offered, m);
    }
  }

  // ---------- open channels ----------

  ghost predicate OpenSubscribed(b: State) {
    forall ch :: ch in b.channels && b.channels[ch].open ==> Subscribed(b, ch)
  }

  lemma OpenSubscribedKept(w: World, e: Event)
    requires WorldOk(w) && OpenSubscribed(w.b)
    ensures OpenSubscribed(Next(w, e).b)
  {
    hide ChannelsOk, LogsOk, InProgress, Sent, Without, Registered, Subscribed;
    var b, b' := w.b, Next(w, e).b;
    match e
    case Unsubscribe(org, ch) => RemovalKeepsOthers(w, org, ch);
    case Subscribe(org, x) =>
      forall ch | ch in b'.channels && b'.channels[ch].open ensures Subscribed(b', ch) {
        AdditionKeeps(b, org, x, ch);
      }
    case _ => SameSubscribers(w, e);
  }

  lemma AdditionKeeps(b: State, org: nat, x: nat, ch: nat)
    requires Subscribed(b, ch) || (ch == x && b.publishing == map[] && x !in b.channels)
    ensures Subscribed(Step(b, Subscribe(org, x)), ch)
  {
    var b' := Step(b, Subscribe(org, x));
    if Subscribed(b, ch) {
      var o :| o in b.subscribers && ch in b.subscribers[o];
      assert o in b'.subscribers && ch in b'.subscribers[o];
    } else {
      assert org in b'.subscribers && ch in b'.subscribers[org];
    }
  }

  lemma SameSubscribers(w: World, e: Event)
    requires OpenSubscribed(w.b) && !e.Subscribe? && !e.Unsubscribe?
    ensures OpenSubscribed(Next(w, e).b)
  {
    hide Sent;
    var b, b' := w.b, Next(w, e).b;
    assert b'.subscribers == b.subscribers;
    forall ch | ch in b'.channels && b'.channels[ch].open ensures Subscribed(b', ch) {
      assert ch in b.channels;
      if b'.channels[ch] != b.channels[ch] { SentKeepsOpen(b.channels[ch]); }
      assert Subscribed(b, ch);
    }
  }

  lemma SentKeepsOpen(c: Channel)
    ensures forall m :: Sent(c, m).open == c.open
  {
  }

  lemma RemovalKeepsOthers(w: World, org: nat, x: nat)
    requires WorldOk(w) && OpenSubscribed(w.b)
    ensures OpenSubscribed(Step(w.b, Unsubscribe(org, x)))
  {
    hide ChannelsOk, LogsOk, InProgress, Without;
    var b, b' := w.b, Step(w.b, Unsubscribe(org, x));
    if b' != b {
      WithoutKeeps(Subs(b, org), x);
      forall ch | ch in b'.channels && b'.channels[ch].open ensures Subscribed(b', ch) {
        var o :| o in b.subscribers && ch in b.subscribers[o];
        assert ch in b'.subscribers[o];
      }
    }
  }

  lemma {:induction false} OpenSubscribedOnRuns(events: seq<Event>)
    ensures OpenSubscribed(Run(events).b)
  {
    hide OpenSubscribed, Next;
    if events == [] {
      NothingOpen();
    } else {
      var init := events[..|events| - 1];
      OpenSubscribedOnRuns(init);
      RunKept(init);
      OpenSubscribedKept(Run(init), events[|events| - 1]);
    }
  }

  lemma NothingOpen()
    ensures OpenSubscribed(Run([]).b)
  {
  }

  /** In every run a channel is open exactly as long as it is registered: nobody is left waiting on a
      channel that gets no more events. */
  lemma OpenExactly(events: seq<Event>, ch: nat)
    requires ch in Run(events).b.channels
    ensures Run(events).b.channels[ch].open <==> Subscribed(Run(events).b, ch)
  {
    hide Run, ChannelsOk, LogsOk, InProgress;
    RunKept(events);
    OpenSubscribedOnRuns(events);
  }

  /** While a publication is under way nobody is registered, removed or closed. */
  lemma SubscribersAreLocked(b: State, e: Event)
    requires b.publishing != map[]
    ensures var b' := Step(b, e);
      && b'.subscribers == b.subscribers && b'.channels.Keys == b.channels.Keys
      && forall ch :: ch in b.channels ==> b'.channels[ch].open == b.channels[ch].open
  {
    hide Sent, Without;
    if e.Offer? && Step(b, e) != b { SentKeepsOpen(b.channels[b.publishing[e.msg].rest[0]]); }
  }

  /** Unsubscribing, as soon as no publication is under way, closes the channel for good; its reader can
      still drain what it holds, and no other channel notices. */
  lemma UnsubscribeCloses(events: seq<Event>, org: nat, ch: nat)
    requires ch in Subs(Run(events).b, org) && Run(events).b.publishing == map[]
    ensures var b, b' := Run(events).b, Run(events + [Unsubscribe(org, ch)]).b;
      && ch in b.channels && ch in b'.channels && b'.channels[ch] == b.channels[ch].(open := false)
      && ch !in Subs(b', org) && !Subscribed(b', ch)
      && (forall c :: c != ch ==>
            && (c in b'.channels <==> c in b.channels) && (c in b.channels ==> b'.channels[c] == b.channels[c])
            && (forall o :: c in Subs(b', o) <==> c in Subs(b, o)))
  {
    hide Step, Run, ChannelsOk, LogsOk, InProgress, Subscribed, Without;
    var e := Unsubscribe(org, ch);
    var after := events + [e];
    assert after[..|after| - 1] == events;
    RunKept(events);
    RunLast(events, e);
    RemovalExactly(Run(events), org, ch);
    OpenExactly(after, ch);
  }

  lemma RemovalExactly(w: World, org: nat, ch: nat)
    requires Registered(w) && ch in Subs(w.b, org) && w.b.publishing == map[]
    ensures var b, b' := w.b, Step(w.b, Unsubscribe(org, ch));
      && ch in b.channels && b'.channels == b.channels[ch := b.channels[ch].(open := false)]
      && ch !in Subs(b', org)
      && forall c, o :: c != ch ==> (c in Subs(b', o) <==> c in Subs(b, o))
  {
    hide Without;
    assert org in w.b.subscribers;
    WithoutKeeps(Subs(w.b, org), ch);
  }

  // ---------- the order of publications ----------

  predicate Before(s: seq<nat>, x: nat, y: nat) {
    exists i, j :: 0 <= i < j < |s| && s[i] == x && s[j] == y
  }

  /** An event appends to a channel's offers at most one event, which was owed to it. */
  lemma OffersGrow(w: World, e: Event, ch: nat)
    requires WorldOk(w) && ch in Next(w, e).logs
    ensures var w' := Next(w, e);
      && w.origin.Keys <= w'.origin.Keys
      && if ch !in w.logs then w'.logs[ch].offered == []
         else
           || w'.logs[ch].offered == w.logs[ch].offered
           || (e.Offer? && Owed(w.b, e.msg, ch) && w'.logs[ch].offered == w.logs[ch].offered + [e.msg])
  {
    hide ChannelOk, LogOk, PublishingOk, Sent, Without;
    if e.Offer? && Step(w.b, e) != w.b {
      OfferIsDue(w, e.msg);
      OfferEffect(w, e.msg);
    }
  }

  /** Once published and not owed to the channel, an event never is again. */
  lemma NotOwedAgain(w: World, e: Event, m: nat, ch: nat)
    requires WorldOk(w) && m in w.origin && !Owed(w.b, m, ch)
    ensures m in Next(w, e).origin && !Owed(Next(w, e).b, m, ch)
  {
    hide ChannelOk, LogOk, Without, Sent;
    if e.Offer? && Step(w.b, e) != w.b { OfferIsDue(w, e.msg); }
  }

  /** If m owes the channel nothing when m2 has not been published yet, then it was offered first. */
  lemma {:induction false} OfferedInOrder(events: seq<Event>, n: nat, m: nat, m2: nat, ch: nat)
    requires n <= |events| && ch in Run(events).logs
    requires var w := Run(events[..n]); m in w.origin && !Owed(w.b, m, ch) && m2 !in w.origin
    requires m in Run(events).logs[ch].offered && m2 in Run(events).logs[ch].offered
    ensures Before(Run(events).logs[ch].offered, m, m2)
    decreases |events|
  {
    hide Next, WorldOk;
    RunKept(events);
    if |events| == n {
      assert events[..n] == events;
      OfferedIsPublished(Run(events), ch, m2);
      assert false;
    } else {
      var init, e := events[..|events| - 1], events[|events| - 1];
      var w1, w2 := Run(init), Run(events);
      RunKept(init);
      assert init[..n] == events[..n];
      StillNotOwed(init, n, m, ch);
      OffersGrow(w1, e, ch);
      var o1, o2 := w1.logs[ch].offered, w2.logs[ch].offered;
      assert o2 != o1 ==> e.msg != m;
      assert m in o1;
      if m2 in o1 {
        OfferedInOrder(init, n, m, m2, ch);
        var i, j :| 0 <= i < j < |o1| && o1[i] == m && o1[j] == m2;
        assert o2[i] == m && o2[j] == m2;
      } else {
        var i :| 0 <= i < |o1| && o1[i] == m;
        assert o2[i] == m && o2[|o1|] == m2;
      }
    }
  }

  lemma OfferedIsPublished(w: World, ch: nat, m: nat)
    requires WorldOk(w) && ch in w.logs && m in w.logs[ch].offered
    ensures m in w.origin
  {
    assert LogOk(w, ch, w.logs[ch]);
    hide ChannelOk, Registered, InProgress;
  }

  lemma {:induction false} StillNotOwed(events: seq<Event>, n: nat, m: nat, ch: nat)
    requires n <= |events|
    requires var w := Run(events[..n]); m in w.origin && !Owed(w.b, m, ch)
    ensures m in Run(events).origin && !Owed(Run(events).b, m, ch)
    decreases |events|
  {
    hide Next, WorldOk, Owed;
    if |events| == n {
      assert events[..n] == events;
    } else {
      var init := events[..|events| - 1];
      assert init[..n] == events[..n];
      StillNotOwed(init, n, m, ch);
      RunKept(init);
      NotOwedAgain(Run(init), events[|events| - 1], m, ch);
    }
  }

  lemma {:induction false} SubsequenceOrder(a: seq<nat>, s: seq<nat>, x: nat, y: nat)
    requires IsSubsequence(a, s) && NoDuplicates(s) && x in a && y in a && Before(s, x, y)
    ensures Before(a, x, y)
    decreases |s|
  {
    var n := |s| - 1;
    var i, j :| 0 <= i < j < |s| && s[i] == x && s[j] == y;
    if IsSubsequence(a, s[..n]) {
      SubsequenceElements(a, s[..n], y);
      assert j < n;
      assert s[..n][i] == x && s[..n][j] == y;
      SubsequenceOrder(a, s[..n], x, y);
    } else {
      var k := |a| - 1;
      if y == a[k] {
        var l :| 0 <= l < |a| && a[l] == x;
        assert l < k;
      } else {
        assert j < n && s[..n][i] == x && s[..n][j] == y;
        assert x != a[k];
        assert x in a[..k] && y in a[..k];
        SubsequenceOrder(a[..k], s[..n], x, y);
        var u, v :| 0 <= u < v < |a[..k]| && a[..k][u] == x && a[..k][v] == y;
        assert a[u] == x && a[v] == y;
      }
    }
  }

  /** Publications that do not overlap keep their order: if that of m ended before that of m2 began,
      no channel is offered m2 before m, and no subscriber gets them the other way round. */
  lemma PublicationOrder(events: seq<Event>, n: nat, m: nat, m2: nat, ch: nat)
    requires n <= |events| && ch in Run(events).logs && ch in Run(events).b.channels
    requires var w := Run(events[..n]); m in w.origin && m !in w.b.publishing && m2 !in w.origin
    ensures var w := Run(events);
      var l, got := w.logs[ch], w.logs[ch].read + w.b.channels[ch].buffer;
      && (m in l.offered && m2 in l.offered ==> Before(l.offered, m, m2))
      && (m in got && m2 in got ==> Before(got, m, m2))
  {
    hide Run, Next;
    DeliveryExactly(events, ch);
    var w := Run(events);
    var l, got := w.logs[ch], w.logs[ch].read + w.b.channels[ch].buffer;
    if m in l.offered && m2 in l.offered { OfferedInOrder(events, n, m, m2, ch); }
    if m in got && m2 in got {
      SubsequenceElements(got, l.offered, m);
      SubsequenceElements(got, l.offered, m2);
      SubsequenceOrder(got, l.offered, m, m2);
    }
  }

  // ---------- when the order is open ----------

  function Offers(m: nat, n: nat): seq<Event> {
    if n == 0 then [] else [Offer(m)] + Offers(m, n - 1)
  }

  lemma RunLast(events: seq<Event>, e: Event)
    ensures Run(events + [e]) == Next(Run(events), e)
  {
    assert (events + [e])[..|events|] == events;
  }

  /** A publication under way gets to each channel it owes, leaving the others where they are. */
  lemma {:induction false} OfferUntil(events: seq<Event>, m: nat, ch: nat) returns (more: seq<Event>)
    requires Owed(Run(events).b, m, ch)
    ensures var w, w' := Run(events), Run(events + more);
      && ch in w.logs && ch in w'.logs && w'.logs[ch].offered == w.logs[ch].offered + [m]
      && forall x :: x != m ==> (Owed(w'.b, x, ch) <==> Owed(w.b, x, ch))
    decreases |Run(events).b.publishing[m].rest|
  {
    hide WorldOk, Run;
    RunKept(events);
    var w := Run(events);
    OfferHappens(w, m, ch);
    RunLast(events, Offer(m));
    var w1 := Next(w, Offer(m));
    RunKept(events + [Offer(m)]);
    hide Next, Step;
    if w.b.publishing[m].rest[0] == ch {
      more := [Offer(m)];
    } else {
      var rest := OfferUntil(events + [Offer(m)], m, ch);
      more := [Offer(m)] + rest;
      assert events + more == events + [Offer(m)] + rest;
    }
  }

  lemma OfferHappens(w: World, m: nat, ch: nat)
    requires WorldOk(w) && Owed(w.b, m, ch)
    ensures var first, w' := w.b.publishing[m].rest[0], Next(w, Offer(m));
      && ch in w.logs && ch in w'.logs
      && (forall x :: x != m ==> (Owed(w'.b, x, ch) <==> Owed(w.b, x, ch)))
      && if first == ch then w'.logs[ch].offered == w.logs[ch].offered + [m]
         else
           && w'.logs[ch].offered == w.logs[ch].offered && Owed(w'.b, m, ch)
           && |w'.b.publishing[m].rest| < |w.b.publishing[m].rest|
  {
    hide ChannelOk, LogOk, Sent, Without;
    assert PublishingOk(w, m, w.b.publishing[m]);
    var rest := w.b.publishing[m].rest;
    assert rest == [rest[0]] + rest[1..];
    assert rest[0] in w.b.channels && ch in w.logs;
    assert Step(w.b, Offer(m)) != w.b;
    OfferIsDue(w, m);
    OfferEffect(w, m);
  }

  lemma BeginOwes(w: World, org: nat, m: nat, m2: nat, ch: nat)
    requires WorldOk(w) && m in w.origin && m2 !in w.origin && ch in Subs(w.b, org)
    ensures var w' := Next(w, Begin(org, m2));
      && Owed(w'.b, m2, ch) && (Owed(w.b, m, ch) ==> Owed(w'.b, m, ch))
      && ch in w.logs && ch in w'.logs && w'.logs[ch].offered == w.logs[ch].offered
  {
    hide ChannelOk, LogOk;
  }

  lemma NotBefore(s: seq<nat>, x: nat, y: nat)
    requires NoDuplicates(s + [y] + [x])
    ensures !Before(s + [y] + [x], x, y)
  {
    var t := s + [y] + [x];
    assert t[|s|] == y && t[|s| + 1] == x;
  }

  /** When the order of two events is fixed for a subscriber: as m2 is about to be published to it,
      m comes first in whatever happens next if and only if m's publication owes it nothing. */
  lemma OrderExactly(events: seq<Event>, org: nat, m: nat, m2: nat, ch: nat)
    requires m in Run(events).origin && m2 !in Run(events).origin && ch in Subs(Run(events).b, org)
    ensures (forall more ::
               var logs := Run(events + [Begin(org, m2)] + more).logs;
               ch in logs && m in logs[ch].offered && m2 in logs[ch].offered ==> Before(logs[ch].offered, m, m2))
            <==> !Owed(Run(events).b, m, ch)
  {
    hide Run, Next, Owed, Before;
    var begun := events + [Begin(org, m2)];
    if Owed(Run(events).b, m, ch) {
      var more := OtherOrder(events, org, m, m2, ch);
    } else {
      forall more |
          var logs := Run(begun + more).logs; ch in logs && m in logs[ch].offered && m2 in logs[ch].offered
        ensures Before(Run(begun + more).logs[ch].offered, m, m2)
      {
        assert (begun + more)[..|events|] == events;
        OfferedInOrder(begun + more, |events|, m, m2, ch);
      }
    }
  }

  lemma OtherOrder(events: seq<Event>, org: nat, m: nat, m2: nat, ch: nat) returns (more: seq<Event>)
    requires m in Run(events).origin && m2 !in Run(events).origin && ch in Subs(Run(events).b, org)
    requires Owed(Run(events).b, m, ch)
    ensures var logs := Run(events + [Begin(org, m2)] + more).logs;
      ch in logs && m in logs[ch].offered && m2 in logs[ch].offered && !Before(logs[ch].offered, m, m2)
  {
    RunKept(events);
    RunLast(events, Begin(org, m2));
    hide Run, WorldOk, Before;
    BeginOwes(Run(events), org, m, m2, ch);
    hide Next, Owed;
    var begun := events + [Begin(org, m2)];
    var a := OfferUntil(begun, m2, ch);
    var b := OfferUntil(begun + a, m, ch);
    more := a + b;
    assert begun + more == begun + a + b;
    var old_ := Run(begun).logs[ch].offered;
    assert Run(begun + more).logs[ch].offered == old_ + [m2] + [m];
    RunKept(begun + more);
    OfferedOnce(Run(begun + more), ch);
    NotBefore(old_, m, m2);
  }

  lemma OfferedOnce(w: World, ch: nat)
    requires WorldOk(w) && ch in w.logs
    ensures NoDuplicates(w.logs[ch].offered)
  {
    assert ChannelOk(w.b.channels[ch], w.logs[ch]);
    hide LogOk, Registered, InProgress, LogsOk, IsSubsequence;
  }

  /** Two publications that overlap, seen in opposite orders by two subscribers. */
  function Crossing(): seq<Event> {
    [Subscribe(1, 10), Subscribe(1, 11), Begin(1, 100), Begin(1, 101),
     Offer(100), Offer(101), Offer(101), Offer(100)]
  }

  lemma OrdersDiffer()
    ensures var logs := Run(Crossing()).logs;
      10 in logs && 11 in logs && logs[10].offered == [100, 101] && logs[11].offered == [101, 100]
  {
    hide Next, Run;
    BothSubscribe();
    BothBegin();
    BothOffered();
    RunEight(Crossing());
  }

  function Opened(org: nat, due: set<nat>, offered: seq<nat>): Log {
    Log(org, [], offered, due, false)
  }

  function Holding(buffer: seq<nat>): Channel {
    Channel(buffer, true)
  }

  function Halfway(): World {
    World(State(map[1 := [10, 11]], map[10 := Holding([]), 11 := Holding([])],
                map[100 := Publishing(1, [10, 11]), 101 := Publishing(1, [10, 11])]),
          map[10 := Opened(1, {100, 101}, []), 11 := Opened(1, {100, 101}, [])], map[100 := 1, 101 := 1])
  }

  function Ready(): World {
    World(State(map[1 := [10, 11]], map[10 := Holding([]), 11 := Holding([])], map[]),
          map[10 := Opened(1, {}, []), 11 := Opened(1, {}, [])], map[])
  }

  lemma BothSubscribe()
    ensures Next(Next(Start, Subscribe(1, 10)), Subscribe(1, 11)) == Ready()
  {
    var w := Next(Start, Subscribe(1, 10));
    assert Subs(Start.b, 1) == [] && [] + [10] == [10] && [10] + [11] == [10, 11];
    assert w.b.subscribers == map[1 := [10]];
    assert Next(w, Subscribe(1, 11)).b.subscribers == map[1 := [10, 11]];
  }

  lemma BothBegin()
    ensures Next(Next(Ready(), Begin(1, 100)), Begin(1, 101)) == Halfway()
  {
    var w := Next(Ready(), Begin(1, 100));
    assert {} + {100} == {100} && {100} + {101} == {100, 101};
    assert Subs(Ready().b, 1) == [10, 11];
    assert w.logs[10] == Opened(1, {100}, []) && w.logs[11] == Opened(1, {100}, []);
    assert w.logs == map[10 := Opened(1, {100}, []), 11 := Opened(1, {100}, [])];
    var v := Next(w, Begin(1, 101));
    assert v.logs[10] == Opened(1, {100, 101}, []) && v.logs[11] == Opened(1, {100, 101}, []);
    assert v.logs == Halfway().logs;
  }

  lemma BothOffered()
    ensures var w := Next(Next(Next(Next(Halfway(), Offer(100)), Offer(101)), Offer(101)), Offer(100));
      10 in w.logs && 11 in w.logs && w.logs[10].offered == [100, 101] && w.logs[11].offered == [101, 100]
  {
    var w1 := Next(Halfway(), Offer(100));
    assert w1.b.publishing == map[100 := Publishing(1, [11]), 101 := Publishing(1, [10, 11])];
    assert w1.logs[10].offered == [100] && w1.logs[11].offered == [];
    var w2 := Next(w1, Offer(101));
    assert w2.b.publishing == map[100 := Publishing(1, [11]), 101 := Publishing(1, [11])];
    assert w2.logs[10].offered == [100, 101] && w2.logs[11].offered == [];
    LastOffers(w2);
  }

  lemma LastOffers(w: World)
    requires w.b.publishing == map[100 := Publishing(1, [11]), 101 := Publishing(1, [11])]
    requires 10 in w.logs && 11 in w.logs && 11 in w.b.channels
    requires w.logs[10].offered == [100, 101] && w.logs[11].offered == []
    ensures var w' := Next(Next(w, Offer(101)), Offer(100));
      10 in w'.logs && 11 in w'.logs && w'.logs[10].offered == [100, 101] && w'.logs[11].offered == [101, 100]
  {
    hide Sent;
    var w1 := Next(w, Offer(101));
    assert 101 !in w1.b.publishing && w1.b.publishing[100] == Publishing(1, [11]);
    assert w1.logs[11].offered == [101] && w1.logs[10] == w.logs[10];
  }

  lemma RunEight(es: seq<Event>)
    requires |es| == 8
    ensures var half := Next(Next(Next(Next(Start, es[0]), es[1]), es[2]), es[3]);
      Run(es) == Next(Next(Next(Next(half, es[4]), es[5]), es[6]), es[7])
  {
    hide Next;
    assert Run(es[..0]) == Start;
    forall i | 0 <= i < 8 ensures Run(es[..i + 1]) == Next(Run(es[..i]), es[i]) {
      assert es[..i + 1] == es[..i] + [es[i]];
      RunLast(es[..i], es[i]);
    }
    hide Run;
    assert Run(es[..1]) == Next(Run(es[..0]), es[0]);
    assert Run(es[..2]) == Next(Run(es[..1]), es[1]);
    assert Run(es[..3]) == Next(Run(es[..2]), es[2]);
    assert Run(es[..4]) == Next(Run(es[..3]), es[3]);
    assert Run(es[..5]) == Next(Run(es[..4]), es[4]);
    assert Run(es[..6]) == Next(Run(es[..5]), es[5]);
    assert Run(es[..7]) == Next(Run(es[..6]), es[6]);
    assert es[..8] == es;
  }

  // ---------- the broker ----------

  /** A publication without interruption: the event is offered to the channels in turn. */
  function Offered(channels: map<nat, Channel>, subs: seq<nat>, msg: nat): map<nat, Channel>
    requires forall ch :: ch in subs ==> ch in channels
  {
    if subs == [] then channels
    else
      var n := |subs| - 1;
      var before := Offered(channels, subs[..n], msg);
      if subs[n] in before then before[subs[n] := Sent(before[subs[n]], msg)] else before
  }

  function StepAll(b: State, msg: nat, n: nat): State {
    if n == 0 then b else Step(StepAll(b, msg, n - 1), Offer(msg))
  }

  /** It is the same as beginning it and offering until it is over. */
  lemma {:induction false} PublicationRuns(b: State, org: nat, msg: nat, n: nat)
    requires msg !in b.publishing && Subs(b, org) != [] && n <= |Subs(b, org)|
    requires forall ch :: ch in Subs(b, org) ==> ch in b.channels
    ensures var subs := Subs(b, org);
      StepAll(Step(b, Begin(org, msg)), msg, n)
      == State(b.subscribers, Offered(b.channels, subs[..n], msg),
               if n == |subs| then b.publishing else b.publishing[msg := Publishing(org, subs[n..])])
    ensures Offered(b.channels, Subs(b, org)[..n], msg).Keys == b.channels.Keys
  {
    var subs := Subs(b, org);
    if n == 0 {
      assert subs[0..] == subs && subs[..0] == [];
    } else {
      PublicationRuns(b, org, msg, n - 1);
      assert subs[..n][..n - 1] == subs[..n - 1];
      var before := Offered(b.channels, subs[..n - 1], msg);
      assert Offered(b.channels, subs[..n], msg) == before[subs[n - 1] := Sent(before[subs[n - 1]], msg)];
      hide Offered;
      OneOffer(State(b.subscribers, before, b.publishing[msg := Publishing(org, subs[n - 1..])]),
               b.publishing, org, msg, subs, n - 1);
    }
  }

  lemma OneOffer(b: State, publishing: map<nat, Publishing>, org: nat, msg: nat, subs: seq<nat>, i: nat)
    requires i < |subs| && subs[i] in b.channels && msg !in publishing
    requires b.publishing == publishing[msg := Publishing(org, subs[i..])]
    ensures Step(b, Offer(msg))
         == State(b.subscribers, b.channels[subs[i] := Sent(b.channels[subs[i]], msg)],
                  if i + 1 == |subs| then publishing else publishing[msg := Publishing(org, subs[i + 1..])])
  {
    assert subs[i..][1..] == subs[i + 1..];
    if i + 1 == |subs| { assert b.publishing - {msg} == publishing; }
    hide Sent;
  }

  class EventBroker {
    var subscribers: map<nat, seq<nat>>
    var channels: map<nat, Channel>

    function View(): State
      reads this
    {
      State(subscribers, channels, map[])
    }

    constructor ()
      ensures View() == Start.b
    {
      subscribers, channels := map[], map[];
    }

    /** make(chan, 64) gives the fresh channel ch. */
    method NewSubscriber(org: nat, ch: nat)
      requires ch !in channels
      modifies this
      ensures View() == Step(old(View()), Subscribe(org, ch))
    {
      channels := channels[ch := Channel([], true)];
      if org in subscribers {
        subscribers := subscribers[org := subscribers[org] + [ch]];
      } else {
        subscribers := subscribers[org := [ch]];
        assert Subs(old(View()), org) + [ch] == [ch];
      }
    }

    method RemoveSubscriber(org: nat, ch: nat)
      requires ch in channels
      modifies this
      ensures View() == Step(old(View()), Unsubscribe(org, ch))
    {
      if org !in subscribers { return; }
      var subs := subscribers[org];
      for i := 0 to |subs|
        invariant subscribers == old(subscribers) && channels == old(channels)
        invariant forall k :: 0 <= k < i ==> subs[k] != ch
      {
        if subs[i] == ch {
          WithoutAt(subs, ch, i);
          subscribers := subscribers[org := subs[..i] + subs[i + 1..]];
          channels := channels[ch := channels[ch].(open := false)];
          return;
        }
      }
    }

    method Publish(org: nat, msg: nat)
      requires forall ch :: ch in Subs(View(), org) ==> ch in channels
      modifies this
      ensures View() == StepAll(Step(old(View()), Begin(org, msg)), msg, |Subs(old(View()), org)|)
    {
      ghost var start := View();
      if Subs(start, org) != [] {
        PublicationRuns(start, org, msg, |Subs(start, org)|);
      } else {
        assert StepAll(Step(start, Begin(org, msg)), msg, 0) == start;
      }
      hide StepAll, Step;
      if org !in subscribers || |subscribers[org]| == 0 { return; }
      var subs := subscribers[org];
      var i := 0;
      while i < |subs|
        invariant i <= |subs| && subscribers == old(subscribers)
        invariant channels == Offered(old(channels), subs[..i], msg) && channels.Keys == old(channels).Keys
      {
        assert subs[..i + 1][..i] == subs[..i];
        var ch := subs[i];
        if |channels[ch].buffer| < CAPACITY {
          channels := channels[ch := channels[ch].(buffer := channels[ch].buffer + [msg])];
        } else {
          assert channels[ch := channels[ch]] == channels;
        }
        i := i + 1;
      }
      assert subs[..i] == subs[..|Subs(start, org)|] == subs;
    }
  }

  lemma {:induction false} WithoutAt(s: seq<nat>, x: nat, i: nat)
    requires i < |s| && s[i] == x && forall k :: 0 <= k < i ==> s[k] != x
    ensures Without(s, x) == s[..i] + s[i + 1..]
  {
    if i > 0 {
      WithoutAt(s[1..], x, i - 1);
      assert s[..i] + s[i + 1..] == [s[0]] + (s[1..][..i - 1] + s[1..][i..]);
    }
  }
}
