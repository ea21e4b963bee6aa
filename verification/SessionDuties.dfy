/** The duty to tell the backend of a session's end: who still carries it, and what `reset` does to it. */
module SessionDuties {
  import opened Sessions
  import opened SessionProtocol

  /** Nothing is left to tell: not registered, replaced by a reconnect, or a notice was tried and failed. A session that
      was never active is not counted. */
  predicate Settled(s: Sess) { !s.registered || s.reconnected || !s.activated || s.removeFailed }

  /** A session that is not settled is active or has a reconnect timer, which will close it; only sessions that were
      active have one. */
  ghost predicate Owed(g: Gateway, r: Ref)
    requires r in g.sessions
  {
    var s := g.sessions[r];
    && (Settled(s) || (s.id in g.active && g.active[s.id] == r) || HasTimer(g.timeouts, r))
    && (s.waitReconnect ==> HasTimer(g.timeouts, r))
    && (HasTimer(g.timeouts, r) ==> s.activated)
  }

  ghost predicate NoneForgotten(g: Gateway) { forall r :: r in g.sessions ==> Owed(g, r) }

  lemma PutKeepsOwed(g: Gateway, r: Ref, s: Sess, notices: seq<Notice>)
    requires NoneForgotten(g) && r in g.sessions
    requires Settled(s) || (!Settled(g.sessions[r]) && s.id == g.sessions[r].id)
    requires (s.waitReconnect ==> g.sessions[r].waitReconnect) && (g.sessions[r].activated ==> s.activated)
    ensures NoneForgotten(Put(g, r, s, notices))
  {
    var g' := Put(g, r, s, notices);
    forall q | q in g'.sessions ensures Owed(g', q) { assert Owed(g, q); }
  }

  /** Closing a session that does not wait settles it. */
  lemma CloseSettles(s: Sess, mgr: bool, post: int)
    requires SessOk(s)
    ensures var s' := CloseWithManager(s, mgr, post).s;
            && s'.id == s.id && s'.waitReconnect == s.waitReconnect && s'.activated == s.activated
            && (Settled(s) || !s.waitReconnect ==> Settled(s'))
  {
    hide CloseWithManager;
    CloseChanges(s, mgr, post);
  }

  lemma CloseSessionKeepsOwed(g: Gateway, r: Ref, mgr: bool, post: int)
    requires NoneForgotten(g) && r in g.sessions && SessOk(g.sessions[r])
    ensures var g' := CloseSession(g, r, mgr, post);
            && NoneForgotten(g')
            && g'.sessions[r].waitReconnect == g.sessions[r].waitReconnect && g'.sessions[r].id == g.sessions[r].id
            && (!g.sessions[r].waitReconnect ==> Settled(g'.sessions[r]))
  {
    hide CloseWithManager, NoneForgotten;
    CloseSettles(g.sessions[r], mgr, post);
    var o := CloseWithManager(g.sessions[r], mgr, post);
    PutKeepsOwed(g, r, o.s, o.notices);
  }

  lemma DropActiveKeepsOwed(g: Gateway, id: Id)
    requires NoneForgotten(g) && id in g.active && g.active[id] in g.sessions && Settled(g.sessions[g.active[id]])
    ensures NoneForgotten(g.(active := g.active - {id}))
  {
    var g' := g.(active := g.active - {id});
    forall q | q in g'.sessions ensures Owed(g', q) { assert Owed(g, q); }
  }

  lemma CacheIsIrrelevant(g: Gateway, cache: map<Id, Ref>)
    requires NoneForgotten(g)
    ensures NoneForgotten(g.(cache := cache))
  {
    forall q | q in g.sessions ensures Owed(g.(cache := cache), q) { assert Owed(g, q); }
  }

  lemma CacheActiveKeepsOwed(g: Gateway, id: Id, now: int, post: int)
    requires Inv(g) && NoneForgotten(g) && id in g.active && g.conf.reconnectTimeout > 0
    ensures NoneForgotten(Close(g, id, true, now, post).g)
  {
    hide Core;
    var r := g.active[id];
    var g' := Close(g, id, true, now, post).g;
    assert ActiveOk(g, id);
    PushedTimers(g.timeouts, Timer(now + g.conf.reconnectTimeout, r));
    forall q | q in g'.sessions ensures Owed(g', q) { assert Owed(g, q); }
  }

  lemma CloseKeepsOwed(g: Gateway, id: Id, allowReconnect: bool, now: int, post: int)
    requires Inv(g) && NoneForgotten(g)
    ensures NoneForgotten(Close(g, id, allowReconnect, now, post).g)
  {
    hide Inv, NoneForgotten, CloseWithManager;
    InvMaps(g);
    if id in g.active {
      if g.conf.reconnectTimeout > 0 && allowReconnect {
        CacheActiveKeepsOwed(g, id, now, post);
      } else {
        var r := g.active[id];
        assert ActiveOk(g, id);
        InvSession(g, r);
        CloseSessionKeepsOwed(g, r, g.sessions[r].hasOwner, post);
        DropActiveKeepsOwed(CloseSelf(g, r, post), id);
      }
    } else if !allowReconnect && id in g.cache {
      var r := g.cache[id];
      InvSession(g, r);
      CloseSessionKeepsOwed(g, r, g.sessions[r].hasOwner, post);
      var g1 := CloseSelf(g, r, post);
      PutKeepsOwed(g1, r, g1.sessions[r].(waitReconnect := false), []);
      CacheIsIrrelevant(Put(g1, r, g1.sessions[r].(waitReconnect := false), []), g.cache - {id});
    }
  }

  lemma PopTimeoutKeepsOwed(g: Gateway, post: int)
    requires Inv(g) && NoneForgotten(g) && g.timeouts != []
    ensures NoneForgotten(PopTimeout(g, post))
  {
    hide Inv, NoneForgotten, CloseWithManager;
    InvMaps(g);
    var r := g.timeouts[0].s;
    InvSession(g, r);
    var s := g.sessions[r].(waitReconnect := false);
    var g1 := Put(g, r, s, []);
    PutKeepsOwed(g, r, s, []);
    CacheIsIrrelevant(g1, g.cache - {s.id});
    var g2 := g1.(cache := g.cache - {s.id});
    CloseSessionKeepsOwed(g2, r, true, post);
    DropTimeoutKeepsOwed(CloseSession(g2, r, true, post));
  }

  lemma DropTimeoutKeepsOwed(g: Gateway)
    requires NoneForgotten(g) && g.timeouts != [] && g.timeouts[0].s in g.sessions
    requires var s := g.sessions[g.timeouts[0].s]; Settled(s) && !s.waitReconnect
    ensures NoneForgotten(g.(timeouts := g.timeouts[1..]))
  {
    var g' := g.(timeouts := g.timeouts[1..]);
    forall q | q in g'.sessions ensures Owed(g', q) {
      assert Owed(g, q);
      if i :| 0 <= i < |g.timeouts| && g.timeouts[i].s == q && i != 0 {
        assert g'.timeouts[i - 1].s == q;
      }
    }
  }

  lemma {:induction false} PopTimeoutsKeepsOwed(g: Gateway, now: int, posts: Posts, k: nat)
    requires Inv(g) && NoneForgotten(g)
    ensures Inv(PopTimeouts(g, now, posts, k)) && NoneForgotten(PopTimeouts(g, now, posts, k))
    decreases |g.timeouts|
  {
    hide Inv, NoneForgotten, PopTimeout;
    InvMaps(g);
    if Due(g.timeouts, now) {
      PopTimeoutKeepsInv(g, posts(k));
      PopTimeoutKeepsOwed(g, posts(k));
      PopTimeoutTimers(g, posts(k));
      PopTimeoutsKeepsOwed(PopTimeout(g, posts(k)), now, posts, k + 1);
    }
  }

  lemma PopIdleKeepsOwed(g: Gateway, post: int)
    requires Inv(g) && NoneForgotten(g) && g.firstIdle != []
    ensures NoneForgotten(PopIdle(g, post))
  {
    hide Inv, CloseWithManager;
    InvMaps(g);
    var r := g.firstIdle[0].s;
    InvSession(g, r);
    CloseSessionKeepsOwed(g, r, g.sessions[r].hasOwner, post);
    var g1 := CloseSelf(g, r, post);
    var g' := PopIdle(g, post);
    forall q | q in g'.sessions ensures Owed(g', q) { assert Owed(g, q) && Owed(g1, q); }
  }

  lemma {:induction false} PopIdlesKeepsOwed(g: Gateway, now: int, posts: Posts, k: nat)
    requires Inv(g) && NoneForgotten(g)
    ensures NoneForgotten(PopIdles(g, now, posts, k))
    decreases |g.firstIdle|
  {
    hide Inv, NoneForgotten, PopIdle;
    InvMaps(g);
    if Due(g.firstIdle, now) {
      PopIdleKeepsInv(g, posts(k));
      PopIdleKeepsOwed(g, posts(k));
      PopIdleTimers(g, posts(k));
      PopIdlesKeepsOwed(PopIdle(g, posts(k)), now, posts, k + 1);
    }
  }

  lemma TickKeepsOwed(g: Gateway, now: int, posts: Posts, idlePosts: Posts)
    requires Inv(g) && NoneForgotten(g)
    ensures NoneForgotten(Tick(g, now, posts, idlePosts))
  {
    hide Inv, PopTimeouts, PopIdles;
    InvMaps(g);
    if g.lastTick != now {
      var g1 := g.(lastTick := now);
      LastTickIsIrrelevant(g, now);
      forall q | q in g1.sessions ensures Owed(g1, q) { assert Owed(g, q); }
      PopTimeoutsKeepsOwed(g1, now, posts, 0);
      PopIdlesKeepsOwed(PopTimeouts(g1, now, posts, 0), now, idlePosts, 0);
    }
  }

  lemma ReconnectKeepsOwed(g: Gateway, r: Ref, oldId: Id, accepts: bool, now: int, posts: Posts)
    requires Inv(g) && NoneForgotten(g) && r in g.sessions && !g.sessions[r].inited
    ensures NoneForgotten(Reconnect(g, r, oldId, accepts, now, posts).g)
  {
    hide Inv, NoneForgotten, Close, CloseWithManager;
    InvMaps(g);
    var g1 := Detach(g, oldId, accepts, now, posts(0));
    DetachKeepsInv(g, r, oldId, accepts, now, posts(0));
    CloseKeepsOwed(g, oldId, true, now, posts(0));
    InvMaps(g1);
    if oldId in g1.cache && Reconnect(g, r, oldId, accepts, now, posts).code == 0 {
      var prior := g1.cache[oldId];
      var g2 := HandedOver(g1, r, prior);
      InvSession(g1, r);
      InvSession(g1, prior);
      assert CacheOk(g1, oldId);
      PutKeepsOwed(g1, r, Successor(g1.sessions[r], g1.sessions[prior]), []);
      var h := Put(g1, r, Successor(g1.sessions[r], g1.sessions[prior]), []);
      PutKeepsOwed(h, prior, Predecessor(h.sessions[prior]), []);
      CloseSessionKeepsOwed(g2, prior, g2.sessions[prior].hasOwner, posts(1));
      var g3 := CloseSelf(g2, prior, posts(1));
      CacheIsIrrelevant(g3, g3.cache - {oldId});
    }
  }

  lemma ActiveSessionKeepsOwed(g: Gateway, r: Ref, now: int, posts: Posts)
    requires Inv(g) && NoneForgotten(g) && r in g.sessions && g.sessions[r].shook && !g.sessions[r].activated
    ensures NoneForgotten(ActiveSession(g, r, now, posts).g)
  {
    hide Inv, SendNewSession;
    InvMaps(g);
    InvSession(g, r);
    NoneActive(g, r);
    var o := SendNewSession(g.sessions[r], posts(1));
    SendNewIsFaithful(g.sessions[r], posts(1));
    var g' := ActiveSession(g, r, now, posts).g;
    forall q | q in g'.sessions ensures Owed(g', q) { assert Owed(g, q); }
  }

  lemma AcceptKeepsOwed(g: Gateway, r: Ref, now: int, hasFd: bool, ok: bool)
    requires Known(g) && NoneForgotten(g) && r !in g.sessions
    ensures NoneForgotten(Accept(g, r, now, hasFd, ok))
  {
    var g' := Accept(g, r, now, hasFd, ok);
    forall q | q in g'.sessions ensures Owed(g', q) { if q != r { assert Owed(g, q); } }
  }

  lemma StepKeepsOwed(g: Gateway, clock: int, e: Event)
    requires Inv(g) && Known(g) && NoneForgotten(g) && Possible(g, clock, e) && !e.step.ResetAll?
    ensures NoneForgotten(Apply(g, clock, e))
  {
    hide Inv, NoneForgotten, Accept, Close, Reconnect, ActiveSession, Tick, CloseWithManager;
    match e.step
    case Connect(r, hasFd, ok) => AcceptKeepsOwed(g, r, e.now, hasFd, ok);
    case NewSession(r, id) =>
      InvSession(g, r);
      PutKeepsOwed(g, r, InitNewSession(g.sessions[r], id, g.conf.defaultRouter), []);
    case AskReconnect(r, oldId, accepts) =>
      if !g.sessions[r].inited { ReconnectKeepsOwed(g, r, oldId, accepts, e.now, e.posts); }
    case HandshakeDone(r, ok) =>
      InvSession(g, r);
      ShakenKeepsInv(g, r);
      var g1 := Put(g, r, g.sessions[r].(shook := true), []);
      PutKeepsOwed(g, r, g.sessions[r].(shook := true), []);
      if ok { ActiveSessionKeepsOwed(g1, r, e.now, e.posts); }
    case ProtocolClosed(r, enableReconnect) =>
      InvSession(g, r);
      CloseSessionKeepsOwed(g, r, g.sessions[r].hasOwner, e.posts(0));
      CloseKeepsOwed(g, g.sessions[r].id, enableReconnect, e.now, e.posts(0));
      CloseFails(g, g.sessions[r].id, enableReconnect, e.now, e.posts(0));
    case ReadError(r) => CloseKeepsOwed(g, g.sessions[r].id, true, e.now, e.posts(0));
    case CloseObject(r) =>
      InvSession(g, r);
      CloseSessionKeepsOwed(g, r, g.sessions[r].hasOwner, e.posts(0));
    case CloseConnection(r) => PutKeepsOwed(g, r, CloseFd(g.sessions[r]), []);
    case ConnectionGone(r) => PutKeepsOwed(g, r, g.sessions[r].(closingFd := false), []);
    case CloseId(id, allowReconnect) => CloseKeepsOwed(g, id, allowReconnect, e.now, e.posts(0));
    case Route(id, router) =>
      if id in g.active { PutKeepsOwed(g, g.active[id], g.sessions[g.active[id]].(router := router), []); }
    case TickAll(idlePosts) => TickKeepsOwed(g, e.now, e.posts, idlePosts);
  }

  lemma {:induction false} RunKeepsOwed(g: Gateway, clock: int, events: seq<Event>)
    requires Inv(g) && Known(g) && NoneForgotten(g) && IsRun(g, clock, events)
    requires forall e :: e in events ==> !e.step.ResetAll?
    ensures NoneForgotten(Run(g, clock, events))
    decreases |events|
  {
    hide Inv, NoneForgotten, Apply;
    if events != [] {
      StepKeepsInv(g, clock, events[0]);
      StepKeepsOwed(g, clock, events[0]);
      RunKeepsOwed(Apply(g, clock, events[0]), events[0].now, events[1..]);
    }
  }

  /** In a run without `reset`, a session that is registered with the backend, was not replaced by a reconnect and had
      no notice of its end fail is active, or has a timer that will close it within the reconnect timeout, if and only
      if it was ever active. The others reconnected, and their handshake was reported as failed or is still to be. */
  lemma RegistrationIsKeptIff(g: Gateway, conf: Conf, start: nat, events: seq<Event>, r: Ref)
    requires Reachable(g, conf, start, events) && r in g.sessions
    requires forall e :: e in events ==> !e.step.ResetAll?
    requires var s := g.sessions[r]; s.registered && !s.reconnected && !s.removeFailed
    ensures g.sessions[r].activated
            <==> || (g.sessions[r].id in g.active && g.active[g.sessions[r].id] == r)
                 || exists t :: t in g.timeouts && t.s == r
                      && g.lastTick < t.timeout <= ClockAfter(start, events) + conf.reconnectTimeout
  {
    hide Inv, Apply;
    InitialIsOk(conf, start);
    RunKeepsOwed(Initial(conf), start, events);
    RunKeepsInv(Initial(conf), start, events);
    InvMaps(g);
    assert Owed(g, r);
    if i :| 0 <= i < |g.timeouts| && g.timeouts[i].s == r {
      assert g.timeouts[i] in g.timeouts;
    }
    if t :| t in g.timeouts && t.s == r {
      var i :| 0 <= i < |g.timeouts| && g.timeouts[i] == t;
      assert HasTimer(g.timeouts, r);
    }
    assert g.sessions[r].id in g.active ==> ActiveOk(g, g.sessions[r].id);
  }

  // ---------------------------------------------------------------- reset

  /** The backend knows of the end, or a notice was tried and failed. */
  predicate Done(s: Sess) { !s.registered || s.removeFailed }

  lemma CloseTells(s: Sess, mgr: bool, post: int)
    requires SessOk(s)
    ensures var s' := CloseWithManager(s, mgr, post).s;
            && SessOk(s') && s'.reconnected == s.reconnected && s'.waitReconnect == s.waitReconnect && s'.id == s.id
            && (Done(s') <==> Done(s) || (!s.reconnected && !s.waitReconnect))
  {
    hide CloseWithManager;
    CloseChanges(s, mgr, post);
  }

  lemma {:induction false} CloseEachTells(g: Gateway, refs: seq<Ref>, posts: Posts, k: nat, r: Ref)
    requires AllKnown(g, refs) && r in g.sessions && SessOk(g.sessions[r])
    ensures var s, s' := g.sessions[r], CloseEach(g, refs, posts, k).sessions[r];
            && SessOk(s') && s'.reconnected == s.reconnected && s'.waitReconnect == s.waitReconnect && s'.id == s.id
            && (Done(s') <==> Done(s) || (r in refs && !s.reconnected && !s.waitReconnect))
    decreases |refs|
  {
    hide CloseWithManager, SessOk, Done;
    if refs != [] {
      if refs[0] == r { CloseTells(g.sessions[r], g.sessions[r].hasOwner, posts(k)); }
      CloseEachTells(CloseSelf(g, refs[0], posts(k)), refs[1..], posts, k + 1, r);
      assert r in refs <==> r == refs[0] || r in refs[1..];
    }
  }

  /** The sessions `reset` visits. */
  ghost predicate Listed(g: Gateway, r: Ref)
    requires r in g.sessions
  {
    || (g.sessions[r].id in g.active && g.active[g.sessions[r].id] == r)
    || HasTimer(g.firstIdle, r)
    || HasTimer(g.timeouts, r)
  }

  lemma TimerRefs(timers: seq<Timer>, r: Ref)
    ensures r in Refs(timers) <==> HasTimer(timers, r)
  {
    if r in Refs(timers) {
      var i :| 0 <= i < |timers| && Refs(timers)[i] == r;
    }
    if i :| 0 <= i < |timers| && timers[i].s == r {
      assert Refs(timers)[i] == r;
    }
  }

  lemma ResetTells(g: Gateway, actives: seq<Ref>, cached: seq<Ref>, posts: nat -> Posts, r: Ref)
    requires Known(g) && Enumerates(actives, g.active) && Enumerates(cached, g.cache)
    requires r in g.sessions && SessOk(g.sessions[r]) && !g.sessions[r].reconnected && !Done(g.sessions[r])
    ensures var g' := Reset(g, actives, cached, posts);
            && r in g'.sessions
            && (Done(g'.sessions[r]) <==>
                !g.sessions[r].waitReconnect
                && (r in actives || r in Refs(g.firstIdle) || r in cached || r in Refs(g.timeouts)))
  {
    hide CloseEach, Done, SessOk;
    CloseEachTells(g, actives, posts(0), 0, r);
    var g1 := CloseEach(g, actives, posts(0), 0).(active := map[]);
    CloseEachTells(g1, Refs(g.firstIdle), posts(1), 0, r);
    var g2 := CloseEach(g1, Refs(g.firstIdle), posts(1), 0).(firstIdle := []);
    CloseEachTells(g2, cached, posts(2), 0, r);
    var g3 := CloseEach(g2, cached, posts(2), 0).(cache := map[]);
    CloseEachTells(g3, Refs(g.timeouts), posts(3), 0, r);
  }

  lemma VisitedIsListed(g: Gateway, actives: seq<Ref>, cached: seq<Ref>, r: Ref)
    requires Maps(g) && Enumerates(actives, g.active) && Enumerates(cached, g.cache) && r in g.sessions
    ensures r in actives || r in Refs(g.firstIdle) || r in cached || r in Refs(g.timeouts) <==> Listed(g, r)
  {
    TimerRefs(g.firstIdle, r);
    TimerRefs(g.timeouts, r);
    if r in actives {
      var id :| id in g.active && g.active[id] == r;
      assert ActiveOk(g, id);
    }
    if r in cached {
      var id :| id in g.cache && g.cache[id] == r;
      assert CacheOk(g, id);
    }
  }

  /** Which sessions the backend is not told of when the gateway resets: a session whose registration nobody has taken
      back stays so if and only if it waits for a reconnect or is in none of the maps and lists. */
  lemma ResetForgetsIff(
      g: Gateway, conf: Conf, start: nat, events: seq<Event>,
      actives: seq<Ref>, cached: seq<Ref>, posts: nat -> Posts, r: Ref)
    requires Reachable(g, conf, start, events) && Known(g)
    requires Enumerates(actives, g.active) && Enumerates(cached, g.cache)
    requires r in g.sessions && !g.sessions[r].reconnected && !Done(g.sessions[r])
    ensures var g' := Reset(g, actives, cached, posts);
            && g'.active == map[] && g'.cache == map[] && g'.firstIdle == [] && g'.timeouts == []
            && r in g'.sessions
            && (!Done(g'.sessions[r]) <==> g.sessions[r].waitReconnect || !Listed(g, r))
  {
    hide Inv, CloseEach, Done, Reachable, Enumerates;
    ReachableIsOk(g, conf, start, events);
    InvSession(g, r);
    InvMaps(g);
    ResetTells(g, actives, cached, posts, r);
    VisitedIsListed(g, actives, cached, r);
  }

  // A client registers, loses its connection and waits; then the gateway resets.

  const CONF := Conf(10, 5, 7)

  const ANSWERS: Posts := (k: nat) => 0

  const CONNECTED := Event(1, ANSWERS, Connect(0, true, true))
  const STARTED := Event(1, ANSWERS, NewSession(0, 1))
  const SHOOK := Event(1, ANSWERS, HandshakeDone(0, true))
  const FAILED := Event(1, ANSWERS, ReadError(0))

  const LOST: seq<Event> := [CONNECTED, STARTED, SHOOK, FAILED]

  const CLIENT := Sess(1, 7, true, true, true, true, false, false, false, false, true, true, false)

  const WAITING := Gateway(
    CONF, map[], map[1 := 0], [Timer(6, 0)], [Timer(11, 0)], 0,
    map[0 := CLIENT.(hasOwner := false, hasFd := false, waitReconnect := true, closingFd := true)], [Notice(1, Added)])

  const ACCEPTED := Gateway(CONF, map[], map[], [Timer(6, 0)], [], 0, map[0 := Created(7, true)], [])
  const INITED := ACCEPTED.(sessions := map[0 := Created(7, true).(id := 1, inited := true)])
  const ACTIVE := ACCEPTED.(sessions := map[0 := CLIENT], active := map[1 := 0], log := [Notice(1, Added)])

  lemma ClientConnects()
    ensures Possible(Initial(CONF), 0, CONNECTED) && Apply(Initial(CONF), 0, CONNECTED) == ACCEPTED
  {}

  lemma ClientIsInited()
    ensures Known(ACCEPTED) && Possible(ACCEPTED, 1, STARTED) && Apply(ACCEPTED, 1, STARTED) == INITED
  {}

  lemma ClientShakesHands()
    ensures Known(INITED) && Possible(INITED, 1, SHOOK) && Apply(INITED, 1, SHOOK) == ACTIVE
  {}

  lemma ClientIsLost()
    ensures Known(ACTIVE) && Possible(ACTIVE, 1, FAILED) && Apply(ACTIVE, 1, FAILED) == WAITING
  {
    assert map[1 := 0] - {1} == map[];
  }

  /** One more step of a run from the initial state. */
  lemma Continue(g: Gateway, clock: int, events: seq<Event>, i: nat, g': Gateway)
    requires Inv(g) && Known(g) && i < |events| && Possible(g, clock, events[i]) && Apply(g, clock, events[i]) == g'
    ensures Inv(g') && Known(g')
    ensures IsRun(g', events[i].now, events[i + 1..]) ==>
              IsRun(g, clock, events[i..]) && Run(g, clock, events[i..]) == Run(g', events[i].now, events[i + 1..])
  {
    hide Inv, Known, Possible, Apply;
    StepKeepsInv(g, clock, events[i]);
    assert events[i..][1..] == events[i + 1..];
  }

  lemma NoMoreEvents(g: Gateway, clock: int, events: seq<Event>)
    requires Inv(g) && Known(g)
    ensures IsRun(g, clock, events[|events|..]) && Run(g, clock, events[|events|..]) == g && events[0..] == events
  {}

  lemma WaitingIsReachable()
    ensures Reachable(WAITING, CONF, 0, LOST)
  {
    hide Inv, Possible, Apply, IsRun, Run;
    InitialIsOk(CONF, 0);
    ClientConnects();
    Continue(Initial(CONF), 0, LOST, 0, ACCEPTED);
    ClientIsInited();
    Continue(ACCEPTED, 1, LOST, 1, INITED);
    ClientShakesHands();
    Continue(INITED, 1, LOST, 2, ACTIVE);
    ClientIsLost();
    Continue(ACTIVE, 1, LOST, 3, WAITING);
    NoMoreEvents(WAITING, 1, LOST);
  }

  /** The backend was told of the session; after the reset the session is closed and the backend never told. */
  lemma ResetForgetsWaiting(posts: nat -> Posts)
    ensures Reachable(WAITING, CONF, 0, LOST) && Enumerates([], WAITING.active) && Enumerates([0], WAITING.cache)
    ensures var g := Reset(WAITING, [], [0], posts);
            g.sessions[0].closing && g.log == [Notice(1, Added)] && Believed(g.log, 1)
  {
    hide *;
    WaitingIsReachable();
    WaitingIsListed();
    ResetWaiting(posts);
  }

  lemma WaitingIsListed()
    ensures Known(WAITING) && Enumerates([], WAITING.active) && Enumerates([0], WAITING.cache)
  {
    assert WAITING.cache[1] == 0 && |WAITING.cache| == 1;
  }

  lemma ResetWaiting(posts: nat -> Posts)
    requires Known(WAITING) && Enumerates([], WAITING.active) && Enumerates([0], WAITING.cache)
    ensures var g := Reset(WAITING, [], [0], posts);
            0 in g.sessions && g.sessions[0].closing && g.log == [Notice(1, Added)] && Believed(g.log, 1)
  {
    assert Refs([Timer(6, 0)]) == [0] && Refs([Timer(11, 0)]) == [0];
  }

  // The client comes back over a new connection, and its handshake is reported as failed: the answer to the reconnect
  // could not be written.

  const RETURNED := Event(2, ANSWERS, Connect(1, true, true))
  const RESUMED := Event(2, ANSWERS, AskReconnect(1, 1, true))
  const UNANSWERED := Event(2, ANSWERS, HandshakeDone(1, false))
  const LATER := Event(20, ANSWERS, TickAll(ANSWERS))

  const HALFWAY: seq<Event> := LOST + [RETURNED, RESUMED, UNANSWERED, LATER]

  const REPLACED := WAITING.sessions[0].(reconnected := true, waitReconnect := false, closing := true)
  const NEW_CLIENT := Created(7, true).(id := 1, inited := true, registered := true)

  const BACK := WAITING.(sessions := WAITING.sessions[1 := Created(7, true)], firstIdle := [Timer(6, 0), Timer(7, 1)])
  const TAKEN_OVER := BACK.(sessions := map[0 := REPLACED, 1 := NEW_CLIENT], cache := map[])
  const SHOOK_IN_VAIN := TAKEN_OVER.(sessions := map[0 := REPLACED, 1 := NEW_CLIENT.(shook := true)])
  const ABANDONED := SHOOK_IN_VAIN.(firstIdle := [], timeouts := [], lastTick := 20)

  lemma ClientReturns()
    ensures Known(WAITING) && Possible(WAITING, 1, RETURNED) && Apply(WAITING, 1, RETURNED) == BACK
  {}

  lemma ClientResumes()
    ensures Known(BACK) && Possible(BACK, 2, RESUMED) && Apply(BACK, 2, RESUMED) == TAKEN_OVER
  {}

  lemma HandshakeFails()
    ensures Known(TAKEN_OVER) && Possible(TAKEN_OVER, 2, UNANSWERED)
    ensures Apply(TAKEN_OVER, 2, UNANSWERED) == SHOOK_IN_VAIN
  {}

  const EXPIRED := SHOOK_IN_VAIN.(lastTick := 20)
  const UNTIMED := EXPIRED.(timeouts := [])

  lemma ReconnectTimerRunsOut()
    ensures Known(EXPIRED) && PopTimeouts(EXPIRED, 20, ANSWERS, 0) == UNTIMED
  {
    assert PopTimeout(EXPIRED, 0) == UNTIMED;
    assert PopTimeouts(UNTIMED, 20, ANSWERS, 1) == UNTIMED;
  }

  lemma IdleTimersRunOut()
    ensures Known(UNTIMED) && PopIdles(UNTIMED, 20, ANSWERS, 0) == ABANDONED
  {
    var g := UNTIMED.(firstIdle := [Timer(7, 1)]);
    assert PopIdle(UNTIMED, 0) == g && PopIdle(g, 0) == ABANDONED;
    assert PopIdles(UNTIMED, 20, ANSWERS, 0) == PopIdles(g, 20, ANSWERS, 1);
    assert PopIdles(g, 20, ANSWERS, 1) == PopIdles(ABANDONED, 20, ANSWERS, 2) == ABANDONED;
  }

  lemma TimersRunOut()
    ensures Known(SHOOK_IN_VAIN) && Possible(SHOOK_IN_VAIN, 2, LATER) && Apply(SHOOK_IN_VAIN, 2, LATER) == ABANDONED
  {
    hide PopTimeouts, PopIdles;
    ReconnectTimerRunsOut();
    IdleTimersRunOut();
  }

  lemma AbandonedIsReachable()
    ensures Reachable(ABANDONED, CONF, 0, HALFWAY)
  {
    hide Inv, Possible, Apply, IsRun, Run;
    InitialIsOk(CONF, 0);
    ClientConnects();
    Continue(Initial(CONF), 0, HALFWAY, 0, ACCEPTED);
    ClientIsInited();
    Continue(ACCEPTED, 1, HALFWAY, 1, INITED);
    ClientShakesHands();
    Continue(INITED, 1, HALFWAY, 2, ACTIVE);
    ClientIsLost();
    Continue(ACTIVE, 1, HALFWAY, 3, WAITING);
    ClientReturns();
    Continue(WAITING, 1, HALFWAY, 4, BACK);
    ClientResumes();
    Continue(BACK, 2, HALFWAY, 5, TAKEN_OVER);
    HandshakeFails();
    Continue(TAKEN_OVER, 2, HALFWAY, 6, SHOOK_IN_VAIN);
    TimersRunOut();
    Continue(SHOOK_IN_VAIN, 2, HALFWAY, 7, ABANDONED);
    NoMoreEvents(ABANDONED, 20, HALFWAY);
  }

  /** Both timers have run out; the session holds the registration and is neither active nor closing, and when the new
      connection fails to be read nothing happens at all. */
  lemma HalfwayReconnectIsKept(now: int, post: int)
    ensures Reachable(ABANDONED, CONF, 0, HALFWAY) && Known(ABANDONED)
    ensures Holds(ABANDONED.sessions[1], 1) && Believed(ABANDONED.log, 1) && !ABANDONED.sessions[1].closing
    ensures OnReadError(ABANDONED, 1, now, post) == ABANDONED
  {
    AbandonedIsReachable();
    hide Reachable;
    assert Believed([Notice(1, Added)], 1);
  }
}
