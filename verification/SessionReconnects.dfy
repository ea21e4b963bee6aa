/** What a reconnect needs and what it does: a refused one changes nothing, and a registration passes from one session
    to another in no other way than by an accepted one. */
module SessionReconnects {
  import opened Sessions
  import opened SessionProtocol

  // ---------------------------------------------------------------- refused and accepted

  /** When `check_reconnect` answers no, the new connection gets an error and nothing changes: no session, no map, no
      list and no notice. */
  lemma RefusedChangesNothing(g: Gateway, r: Ref, oldId: Id, now: int, posts: Posts)
    requires Known(g) && r in g.sessions
    ensures Reconnect(g, r, oldId, false, now, posts).code < 0
    ensures Reconnect(g, r, oldId, false, now, posts).g == g
  {}

  /** A reconnect succeeds if and only if the protocol accepts it and the old session waits, or is active where
      reconnecting is allowed at all. */
  lemma ReconnectSucceedsIff(g: Gateway, r: Ref, oldId: Id, accepts: bool, now: int, posts: Posts)
    requires Inv(g) && Known(g) && r in g.sessions && !g.sessions[r].inited
    ensures Reconnect(g, r, oldId, accepts, now, posts).code == 0
            <==> accepts && (oldId in g.cache || (oldId in g.active && g.conf.reconnectTimeout > 0))
    ensures Reconnect(g, r, oldId, accepts, now, posts).code <= 0
  {
    hide Inv, HandedOver, CloseWithManager;
    InvMaps(g);
    DetachKeepsInv(g, r, oldId, accepts, now, posts(0));
    var g1 := Detach(g, oldId, accepts, now, posts(0));
    InvMaps(g1);
    if oldId in g1.cache { assert CacheOk(g1, oldId); }
    if oldId in g.active { ActiveIdIs(g, oldId); }
  }

  lemma ActiveIdIs(g: Gateway, id: Id)
    requires Maps(g) && id in g.active
    ensures g.sessions[g.active[id]].id == id && id !in g.cache
  {
    assert ActiveOk(g, id);
  }

  /** After a success the new session has id, router and registration of the old one, which is replaced and closing, and
      nothing waits under the id. */
  lemma ReconnectHandsOver(g: Gateway, r: Ref, oldId: Id, now: int, posts: Posts)
    requires Inv(g) && Known(g) && r in g.sessions && !g.sessions[r].inited && oldId in g.cache
    ensures var prior, g' := g.cache[oldId], Reconnect(g, r, oldId, true, now, posts).g;
            && prior in g'.sessions && r in g'.sessions && prior != r
            && var before, s, s' := g.sessions[prior], g'.sessions[prior], g'.sessions[r];
               && s'.id == oldId && s'.router == before.router && s'.registered == before.registered && s'.inited
               && s.reconnected && s.closing && !s.waitReconnect && s.registered == before.registered
               && oldId !in g'.cache && g'.log == g.log
  {
    hide Core;
    var prior := g.cache[oldId];
    assert CacheOk(g, oldId);
    SessionIsOk(g, r);
    SessionIsOk(g, prior);
    var g2 := HandedOver(g, r, prior);
    CloseChanges(g2.sessions[prior], g2.sessions[prior].hasOwner, posts(1));
    hide CloseWithManager;
    assert g.log + [] + [] + [] == g.log;
  }

  // ---------------------------------------------------------------- how a registration moves

  /** Every session is who it was. */
  ghost predicate SameIdentity(g: Gateway, g': Gateway) {
    g'.sessions.Keys == g.sessions.Keys && forall q :: q in g.sessions ==> Same(g.sessions[q], g'.sessions[q])
  }

  predicate Same(s: Sess, s': Sess) { s'.id == s.id && s'.reconnected == s.reconnected }

  lemma SameIdentityChain(g1: Gateway, g2: Gateway, g3: Gateway)
    requires SameIdentity(g1, g2) && SameIdentity(g2, g3)
    ensures SameIdentity(g1, g3)
  {}

  lemma CloseSessionSameIdentity(g: Gateway, r: Ref, mgr: bool, post: int)
    requires r in g.sessions
    ensures SameIdentity(g, CloseSession(g, r, mgr, post))
  {
    hide CloseWithManager;
    CloseChanges(g.sessions[r], mgr, post);
  }

  lemma CloseSameIdentity(g: Gateway, id: Id, allowReconnect: bool, now: int, post: int)
    requires Known(g)
    ensures SameIdentity(g, Close(g, id, allowReconnect, now, post).g)
  {
    hide CloseWithManager, CloseFd;
    if id in g.active {
      CloseSessionSameIdentity(g, g.active[id], g.sessions[g.active[id]].hasOwner, post);
      CloseFdChanges(g.sessions[g.active[id]].(waitReconnect := true));
    } else if id in g.cache {
      CloseSessionSameIdentity(g, g.cache[id], g.sessions[g.cache[id]].hasOwner, post);
    }
  }

  lemma ActiveSessionSameIdentity(g: Gateway, r: Ref, now: int, posts: Posts)
    requires Known(g) && r in g.sessions
    ensures SameIdentity(g, ActiveSession(g, r, now, posts).g)
  {
    hide Close, Announce, SameIdentity;
    var id := g.sessions[r].id;
    CloseSameIdentity(g, id, false, now, posts(0));
    SameAsItself(g);
    var g1 := if id in g.active then Close(g, id, false, now, posts(0)).g else g;
    SameKeys(g, g1);
    AnnounceSameIdentity(g1, r, id, posts(1));
    SameIdentityChain(g, g1, Announce(g1, r, id, posts(1)).g);
  }

  lemma SameAsItself(g: Gateway)
    ensures SameIdentity(g, g)
  {}

  lemma SameKeys(g: Gateway, g': Gateway)
    requires SameIdentity(g, g')
    ensures g'.sessions.Keys == g.sessions.Keys
  {}

  lemma AnnounceSameIdentity(g: Gateway, r: Ref, id: Id, post: int)
    requires r in g.sessions
    ensures SameIdentity(g, Announce(g, r, id, post).g)
  {
    SendNewSame(g.sessions[r], post);
    hide SendNewSession;
  }

  lemma SendNewSame(s: Sess, post: int)
    ensures Same(s, SendNewSession(s, post).s)
  {}

  lemma PopTimeoutSameIdentity(g: Gateway, post: int)
    requires Known(g) && g.timeouts != []
    ensures SameIdentity(g, PopTimeout(g, post))
  {
    hide CloseWithManager;
    CloseChanges(g.sessions[g.timeouts[0].s].(waitReconnect := false), true, post);
  }

  lemma PopIdleSameIdentity(g: Gateway, post: int)
    requires Known(g) && g.firstIdle != []
    ensures SameIdentity(g, PopIdle(g, post))
  {
    hide CloseWithManager;
    var r := g.firstIdle[0].s;
    CloseSessionSameIdentity(g, r, g.sessions[r].hasOwner, post);
  }

  lemma {:induction false} PopTimeoutsSameIdentity(g: Gateway, now: int, posts: Posts, k: nat)
    requires Known(g)
    ensures Known(PopTimeouts(g, now, posts, k)) && SameIdentity(g, PopTimeouts(g, now, posts, k))
    decreases |g.timeouts|
  {
    hide PopTimeout, Known;
    if Due(g.timeouts, now) {
      PopTimeoutTimers(g, posts(k));
      PopTimeoutSameIdentity(g, posts(k));
      PopTimeoutsSameIdentity(PopTimeout(g, posts(k)), now, posts, k + 1);
    }
  }

  lemma {:induction false} PopIdlesSameIdentity(g: Gateway, now: int, posts: Posts, k: nat)
    requires Known(g)
    ensures SameIdentity(g, PopIdles(g, now, posts, k))
    decreases |g.firstIdle|
  {
    hide PopIdle, Known;
    if Due(g.firstIdle, now) {
      PopIdleTimers(g, posts(k));
      PopIdleSameIdentity(g, posts(k));
      PopIdlesSameIdentity(PopIdle(g, posts(k)), now, posts, k + 1);
    }
  }

  lemma TickSameIdentity(g: Gateway, now: int, posts: Posts, idlePosts: Posts)
    requires Known(g)
    ensures SameIdentity(g, Tick(g, now, posts, idlePosts))
  {
    hide PopTimeouts, PopIdles;
    if g.lastTick != now {
      var g1 := g.(lastTick := now);
      PopTimeoutsSameIdentity(g1, now, posts, 0);
      PopIdlesSameIdentity(PopTimeouts(g1, now, posts, 0), now, idlePosts, 0);
    }
  }

  lemma {:induction false} CloseEachSameIdentity(g: Gateway, refs: seq<Ref>, posts: Posts, k: nat)
    requires AllKnown(g, refs)
    ensures SameIdentity(g, CloseEach(g, refs, posts, k))
    decreases |refs|
  {
    hide CloseSession, SameIdentity;
    SameAsItself(g);
    if refs != [] {
      var g1 := CloseSelf(g, refs[0], posts(k));
      CloseSessionSameIdentity(g, refs[0], g.sessions[refs[0]].hasOwner, posts(k));
      SameKeys(g, g1);
      CloseEachSameIdentity(g1, refs[1..], posts, k + 1);
      SameIdentityChain(g, g1, CloseEach(g1, refs[1..], posts, k + 1));
    }
  }

  lemma ResetSameIdentity(g: Gateway, actives: seq<Ref>, cached: seq<Ref>, posts: nat -> Posts)
    requires Known(g) && Enumerates(actives, g.active) && Enumerates(cached, g.cache)
    ensures SameIdentity(g, Reset(g, actives, cached, posts))
  {
    hide CloseEach, SameIdentity, Enumerates;
    OrderIsKnown(g, actives, cached);
    CloseEachSameIdentity(g, actives, posts(0), 0);
    var g1 := CloseEach(g, actives, posts(0), 0).(active := map[]);
    OnlySessionsCount(g, CloseEach(g, actives, posts(0), 0), g1);
    CloseEachSameIdentity(g1, Refs(g.firstIdle), posts(1), 0);
    var g2 := CloseEach(g1, Refs(g.firstIdle), posts(1), 0).(firstIdle := []);
    OnlySessionsCount(g1, CloseEach(g1, Refs(g.firstIdle), posts(1), 0), g2);
    CloseEachSameIdentity(g2, cached, posts(2), 0);
    var g3 := CloseEach(g2, cached, posts(2), 0).(cache := map[]);
    OnlySessionsCount(g2, CloseEach(g2, cached, posts(2), 0), g3);
    CloseEachSameIdentity(g3, Refs(g.timeouts), posts(3), 0);
    var g4 := CloseEach(g3, Refs(g.timeouts), posts(3), 0).(timeouts := []);
    OnlySessionsCount(g3, CloseEach(g3, Refs(g.timeouts), posts(3), 0), g4);
    SameIdentityChain(g, g1, g2);
    SameIdentityChain(g, g2, g3);
    SameIdentityChain(g, g3, g4);
  }

  lemma OrderIsKnown(g: Gateway, actives: seq<Ref>, cached: seq<Ref>)
    requires Known(g) && Enumerates(actives, g.active) && Enumerates(cached, g.cache)
    ensures AllKnown(g, actives) && AllKnown(g, cached)
  {}

  lemma OnlySessionsCount(g: Gateway, g1: Gateway, g2: Gateway)
    requires SameIdentity(g, g1) && g2.sessions == g1.sessions
    ensures SameIdentity(g, g2) && g2.sessions.Keys == g.sessions.Keys
  {}

  lemma StepSameIdentity(g: Gateway, clock: int, e: Event)
    requires Known(g) && Possible(g, clock, e)
    requires !e.step.Connect? && !e.step.NewSession? && !e.step.AskReconnect?
    ensures SameIdentity(g, Apply(g, clock, e))
  {
    hide OnClose, OnReadError, OnHandshakeDone, Close, CloseSession, Tick, Reset, SetSessionRouter, SameIdentity;
    match e.step
    case HandshakeDone(r, ok) => HandshakeSameIdentity(g, r, ok, e.now, e.posts);
    case ProtocolClosed(r, enableReconnect) => EndingSameIdentity(g, r, enableReconnect, e.now, e.posts(0));
    case ReadError(r) => EndingSameIdentity(g, r, true, e.now, e.posts(0));
    case CloseObject(r) => CloseSessionSameIdentity(g, r, g.sessions[r].hasOwner, e.posts(0));
    case CloseConnection(r) => ConnectionSameIdentity(g, r);
    case ConnectionGone(r) => ConnectionSameIdentity(g, r);
    case CloseId(id, allowReconnect) => CloseSameIdentity(g, id, allowReconnect, e.now, e.posts(0));
    case Route(id, router) => RouteSameIdentity(g, id, router);
    case TickAll(idlePosts) => TickSameIdentity(g, e.now, e.posts, idlePosts);
    case ResetAll(actives, cached, allPosts) => ResetSameIdentity(g, actives, cached, allPosts);
  }

  lemma HandshakeSameIdentity(g: Gateway, r: Ref, ok: bool, now: int, posts: Posts)
    requires Known(g) && r in g.sessions
    ensures SameIdentity(g, OnHandshakeDone(g, r, ok, now, posts))
  {
    hide ActiveSession;
    var g1 := Put(g, r, g.sessions[r].(shook := true), []);
    if ok {
      ActiveSessionSameIdentity(g1, r, now, posts);
      SameIdentityChain(g, g1, ActiveSession(g1, r, now, posts).g);
    }
  }

  lemma EndingSameIdentity(g: Gateway, r: Ref, enableReconnect: bool, now: int, post: int)
    requires Known(g) && r in g.sessions
    ensures SameIdentity(g, OnClose(g, r, enableReconnect, now, post)) && SameIdentity(g, OnReadError(g, r, now, post))
  {
    hide Close, CloseSession, SameIdentity;
    SameAsItself(g);
    CloseSessionSameIdentity(g, r, g.sessions[r].hasOwner, post);
    CloseSameIdentity(g, g.sessions[r].id, enableReconnect, now, post);
    CloseSameIdentity(g, g.sessions[r].id, true, now, post);
    CloseFails(g, g.sessions[r].id, enableReconnect, now, post);
  }

  lemma PutSameIdentity(g: Gateway, r: Ref, s: Sess, notices: seq<Notice>)
    requires r in g.sessions && Same(g.sessions[r], s)
    ensures SameIdentity(g, Put(g, r, s, notices))
  {}

  lemma ConnectionSame(s: Sess)
    ensures Same(s, CloseFd(s)) && Same(s, s.(closingFd := false))
  {}

  lemma ConnectionSameIdentity(g: Gateway, r: Ref)
    requires r in g.sessions
    ensures SameIdentity(g, Put(g, r, CloseFd(g.sessions[r]), []))
    ensures SameIdentity(g, Put(g, r, g.sessions[r].(closingFd := false), []))
  {
    hide CloseFd, SameIdentity, Same;
    ConnectionSame(g.sessions[r]);
    PutSameIdentity(g, r, CloseFd(g.sessions[r]), []);
    PutSameIdentity(g, r, g.sessions[r].(closingFd := false), []);
  }

  lemma RouteSameIdentity(g: Gateway, id: Id, router: nat)
    requires Known(g)
    ensures SameIdentity(g, SetSessionRouter(g, id, router).g)
  {}

  /** A reconnect gives the id to the new session alone. */
  lemma ReconnectSameIdentity(g: Gateway, r: Ref, oldId: Id, accepts: bool, now: int, posts: Posts)
    requires Inv(g) && Known(g) && r in g.sessions && !g.sessions[r].inited
    ensures var g' := Reconnect(g, r, oldId, accepts, now, posts).g;
            && g'.sessions.Keys == g.sessions.Keys
            && (g'.sessions[r].inited ==> g'.sessions[r].id == oldId)
            && forall q :: q in g.sessions && q != r ==>
                 g'.sessions[q].id == g.sessions[q].id && (g.sessions[q].reconnected ==> g'.sessions[q].reconnected)
  {
    hide Inv, Close, Resume, SessOk;
    DetachKeepsInv(g, r, oldId, accepts, now, posts(0));
    CloseSameIdentity(g, oldId, true, now, posts(0));
    var g1 := Detach(g, oldId, accepts, now, posts(0));
    InvMaps(g1);
    if oldId in g1.cache {
      ResumeSameIdentity(g1, r, oldId, accepts || oldId !in g.cache, posts(1));
    }
  }

  lemma ResumeSameIdentity(g: Gateway, r: Ref, oldId: Id, accepted: bool, post: int)
    requires Known(g) && r in g.sessions && !g.sessions[r].inited && oldId in g.cache && CacheOk(g, oldId)
    ensures var g' := Resume(g, r, oldId, accepted, post).g;
            && g'.sessions.Keys == g.sessions.Keys
            && (g'.sessions[r].inited ==> g'.sessions[r].id == oldId)
            && forall q :: q in g.sessions && q != r ==>
                 g'.sessions[q].id == g.sessions[q].id && (g.sessions[q].reconnected ==> g'.sessions[q].reconnected)
  {
    hide CloseWithManager;
    var g2 := HandedOver(g, r, g.cache[oldId]);
    CloseChanges(g2.sessions[g.cache[oldId]], g2.sessions[g.cache[oldId]].hasOwner, post);
  }

  /** The registration of an id passes from one session object to another in one step of any run only if that step is a
      reconnect of the id by the new one, which the protocol accepts. */
  lemma RegistrationMovesByReconnect(
      g: Gateway, conf: Conf, start: nat, events: seq<Event>, e: Event, id: Id, from: Ref, to: Ref)
    requires Reachable(g, conf, start, events) && Known(g) && Possible(g, ClockAfter(start, events), e)
    requires from in g.sessions && Holds(g.sessions[from], id) && from != to
    requires var g' := Apply(g, ClockAfter(start, events), e); to in g'.sessions && Holds(g'.sessions[to], id)
    ensures e.step == AskReconnect(to, id, true)
  {
    hide Apply, Reachable;
    ReachableIsOk(g, conf, start, events);
    var clock := ClockAfter(start, events);
    InvSession(g, from);
    if to in g.sessions && g.sessions[to].id == id {
      OneHolds(g, from, to);
    }
    if e.step.AskReconnect? {
      AskedReconnect(g, clock, e, id, from, to);
    } else if e.step.Connect? {
      Connected(g, clock, e, to);
    } else if e.step.NewSession? {
      Started(g, clock, e, to);
    } else {
      StepSameIdentity(g, clock, e);
    }
  }

  lemma OneHolds(g: Gateway, from: Ref, to: Ref)
    requires Inv(g) && from in g.sessions && to in g.sessions && from != to && g.sessions[from].inited
    requires g.sessions[from].id == g.sessions[to].id && !g.sessions[from].reconnected
    ensures g.sessions[to].reconnected
  {}

  lemma AskedReconnect(g: Gateway, clock: int, e: Event, id: Id, from: Ref, to: Ref)
    requires Inv(g) && Known(g) && Possible(g, clock, e) && e.step.AskReconnect?
    requires from in g.sessions && Holds(g.sessions[from], id) && from != to
    requires to in g.sessions && g.sessions[to].id == id ==> g.sessions[to].reconnected
    requires var g' := Apply(g, clock, e); to in g'.sessions && Holds(g'.sessions[to], id)
    ensures e.step == AskReconnect(to, id, true)
  {
    hide Reconnect, Inv;
    var r := e.step.r;
    RefusedChangesNothing(g, r, e.step.oldId, e.now, e.posts);
    if !g.sessions[r].inited {
      ReconnectSameIdentity(g, r, e.step.oldId, e.step.accepts, e.now, e.posts);
      ReconnectKeepsInv(g, r, e.step.oldId, e.step.accepts, e.now, e.posts);
      InvSession(Apply(g, clock, e), to);
    }
  }

  lemma Connected(g: Gateway, clock: int, e: Event, to: Ref)
    requires Known(g) && Possible(g, clock, e) && e.step.Connect? && to in Apply(g, clock, e).sessions
    ensures to == e.step.r || (to in g.sessions && Apply(g, clock, e).sessions[to] == g.sessions[to])
    ensures to == e.step.r ==> !Apply(g, clock, e).sessions[to].registered
  {}

  lemma Started(g: Gateway, clock: int, e: Event, to: Ref)
    requires Known(g) && Possible(g, clock, e) && e.step.NewSession? && to in Apply(g, clock, e).sessions
    ensures to in g.sessions
    ensures to == e.step.r || Apply(g, clock, e).sessions[to] == g.sessions[to]
    ensures Apply(g, clock, e).sessions[e.step.r].id == e.step.id && Fresh(g, e.step.id)
  {}
}
