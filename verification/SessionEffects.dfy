/** What single operations of the gateway bring about, told by their effects: whom the backend is told of, who is parked
    and until when, and whom a tick leaves alone. */
module SessionEffects {
  import opened Sessions
  import opened SessionProtocol

  // ---------------------------------------------------------------- closing by id

  /** An active session whose connection is lost, where reconnecting is allowed: the backend hears nothing, and the
      session waits in the cache, without its connection, for exactly the reconnect timeout. */
  lemma LostConnectionIsParked(g: Gateway, id: Id, now: int, post: int)
    requires Inv(g) && Known(g) && id in g.active && g.conf.reconnectTimeout > 0
    ensures var r, g' := g.active[id], Close(g, id, true, now, post).g;
            && Close(g, id, true, now, post).code == 0 && g'.log == g.log
            && g'.active == g.active - {id} && g'.cache == g.cache[id := r]
            && g'.timeouts == g.timeouts + [Timer(now + g.conf.reconnectTimeout, r)]
            && g'.sessions.Keys == g.sessions.Keys
            && (forall q :: q in g.sessions && q != r ==> g'.sessions[q] == g.sessions[q])
            && g'.sessions[r].waitReconnect && !g'.sessions[r].hasFd
            && g'.sessions[r].registered == g.sessions[r].registered && g'.sessions[r].closing == g.sessions[r].closing
  {
    hide Core, CloseFd;
    var r := g.active[id];
    assert ActiveOk(g, id);
    SessionIsOk(g, r);
    CloseFdChanges(g.sessions[r].(waitReconnect := true));
    assert g.log + [] == g.log;
  }

  /** An active session is closed for good: the backend is told if it was told of the session, the session has a router
      and the bus takes the notice; otherwise nothing is sent. */
  lemma ClosedIsTold(g: Gateway, id: Id, now: int, post: int)
    requires Inv(g) && Known(g) && id in g.active && g.sessions[g.active[id]].hasOwner
    ensures var s, reply := g.sessions[g.active[id]], Close(g, id, false, now, post);
            && reply.code == 0 && reply.g.active == g.active - {id} && reply.g.sessions[g.active[id]].closing
            && reply.g.log
               == if s.registered && s.router != 0 && post == 0 then g.log + [Notice(id, Removed)] else g.log
  {
    hide Core, StartClosing;
    assert ActiveOk(g, id);
    StartClosingCloses(g.sessions[g.active[id]]);
    StartClosingCloses(SendRemoveSession(g.sessions[g.active[id]], true, post).s);
    assert g.log + [] == g.log;
  }

  lemma StartClosingCloses(s: Sess)
    ensures StartClosing(s).closing
  {}

  /** A session that is not found is not an excuse to change anything. */
  lemma UnknownIsNotFound(g: Gateway, id: Id, allowReconnect: bool, now: int, post: int)
    requires Known(g) && id !in g.active && (allowReconnect || id !in g.cache)
    ensures Close(g, id, allowReconnect, now, post).code < 0 && Close(g, id, allowReconnect, now, post).g == g
  {}

  /** The router set for an active session is the one its notices go to. */
  lemma RouterIsSet(g: Gateway, id: Id, router: nat)
    requires Known(g) && id in g.active
    ensures var r, g' := g.active[id], SetSessionRouter(g, id, router).g;
            g'.sessions == g.sessions[r := g.sessions[r].(router := router)] && g'.log == g.log
  {
    assert g.log + [] == g.log;
  }

  /** A waiting session that may not reconnect any more: it leaves the cache and closes; the backend is told only when
      its timer runs out. */
  lemma WaitingIsKicked(g: Gateway, id: Id, now: int, post: int)
    requires Inv(g) && Known(g) && id in g.cache
    ensures var r, reply := g.cache[id], Close(g, id, false, now, post);
            && reply.code == 0 && reply.g.cache == g.cache - {id} && reply.g.active == g.active
            && reply.g.log == g.log && reply.g.timeouts == g.timeouts && HasTimer(reply.g.timeouts, r)
            && reply.g.sessions[r].closing && !reply.g.sessions[r].waitReconnect
            && reply.g.sessions[r].registered == g.sessions[r].registered
  {
    hide Core, CloseWithManager;
    var r := g.cache[id];
    assert CacheOk(g, id);
    CloseChanges(g.sessions[r], g.sessions[r].hasOwner, post);
    assert g.log + [] + [] == g.log;
  }

  /** A session that closes loses its connection, also when nobody is told. */
  lemma ClosedLosesConnection(s: Sess, mgr: bool, post: int)
    requires SessOk(s) && !s.closing
    ensures var s' := CloseWithManager(s, mgr, post).s;
            s'.closing && !s'.hasFd && (s.hasFd ==> !s'.hasOwner && s'.closingFd)
  {
    hide CloseFd;
    var told := if s.registered && !s.reconnected && !s.waitReconnect then SendRemoveSession(s, mgr, post).s else s;
    ConnectionIsClosed(told.(closing := true));
  }

  lemma ConnectionIsClosed(s: Sess)
    ensures var s' := CloseFd(s);
            && s'.closing == s.closing
            && (s.hasFd && !s.closingFd ==> !s'.hasFd && !s'.hasOwner && s'.closingFd)
            && (!s.hasFd ==> !s'.hasFd)
  {}

  /** The protocol reports the end of a connection: the session is closing, or waits without its connection. */
  lemma EndOfConnectionEnds(g: Gateway, r: Ref, enableReconnect: bool, now: int, post: int)
    requires Inv(g) && Known(g) && r in g.sessions
    requires g.sessions[r].id in g.active ==> g.active[g.sessions[r].id] == r
    requires g.sessions[r].id in g.cache ==> g.cache[g.sessions[r].id] == r
    ensures var g' := OnClose(g, r, enableReconnect, now, post);
            && r in g'.sessions
            && (g'.sessions[r].closing || (g'.sessions[r].waitReconnect && !g'.sessions[r].hasFd))
  {
    hide Core, CloseWithManager;
    var id := g.sessions[r].id;
    CloseChanges(g.sessions[r], g.sessions[r].hasOwner, post);
    if id in g.active && g.conf.reconnectTimeout > 0 && enableReconnect {
      LostConnectionIsParked(g, id, now, post);
    }
    UnknownChangesNothing(g, id, enableReconnect, now, post);
  }

  lemma UnknownChangesNothing(g: Gateway, id: Id, allowReconnect: bool, now: int, post: int)
    requires Known(g)
    ensures id !in g.active && (allowReconnect || id !in g.cache) <==> Close(g, id, allowReconnect, now, post).code < 0
    ensures Close(g, id, allowReconnect, now, post).code < 0 ==> Close(g, id, allowReconnect, now, post).g == g
  {}

  // ---------------------------------------------------------------- becoming active

  /** A new session has its id and the router given, and is nothing else yet. */
  lemma NewSessionIsRouted(s: Sess, id: Id, router: nat)
    ensures var s' := InitNewSession(s, id, router);
            && s'.id == id && s'.router == router && s'.inited
            && s == s'.(id := s.id, router := s.router, inited := s.inited)
  {}

  /** A session that is initialised already is not reconnected. */
  lemma InitedIsNotReconnected(g: Gateway, r: Ref, oldId: Id, accepts: bool, now: int, posts: Posts)
    requires Known(g) && r in g.sessions && g.sessions[r].inited
    ensures OnReconnect(g, r, oldId, accepts, now, posts).code < 0
    ensures OnReconnect(g, r, oldId, accepts, now, posts).g == g
  {}

  /** A session that shakes hands: the backend is told when it has a router and the bus takes the notice, and the
      session is active unless that failed. */
  lemma ActivatedIsTold(g: Gateway, r: Ref, now: int, posts: Posts)
    requires Inv(g) && Known(g) && r in g.sessions && g.sessions[r].shook && !g.sessions[r].activated
    requires !g.sessions[r].registered && g.sessions[r].hasOwner
    ensures var s, reply := g.sessions[r], ActiveSession(g, r, now, posts);
            && reply.g.log == (if s.router != 0 && posts(1) == 0 then g.log + [Notice(s.id, Added)] else g.log)
            && (s.router != 0 && posts(1) >= 0 ==> reply.code == 0 && reply.g.active == g.active[s.id := r])
            && (s.router == 0 || posts(1) < 0 ==> reply.code < 0 && reply.g.active == g.active)
            && (reply.g.sessions[r].registered <==> s.router != 0 && posts(1) == 0)
  {
    hide Core, Close;
    SessionIsOk(g, r);
    NoneActive(g, r);
    assert g.log + [] == g.log;
  }

  /** A session that is registered already, by a reconnect, becomes active without a notice. */
  lemma ReconnectedIsActive(g: Gateway, r: Ref, now: int, posts: Posts)
    requires Inv(g) && Known(g) && r in g.sessions && g.sessions[r].shook && !g.sessions[r].activated
    requires g.sessions[r].registered
    ensures var reply := ActiveSession(g, r, now, posts);
            reply.code == 0 && reply.g.log == g.log && reply.g.active == g.active[g.sessions[r].id := r]
  {
    hide Core, Close;
    SessionIsOk(g, r);
    NoneActive(g, r);
    assert g.log + [] == g.log;
  }

  // ---------------------------------------------------------------- when a timer runs out

  /** A session whose reconnect timer runs out and that nobody replaced: it is closing, waits no more, and the backend
      is told through the manager, though the session lost its own. */
  lemma ExpiredIsTold(g: Gateway, post: int)
    requires Known(g) && g.timeouts != []
    requires var s := g.sessions[g.timeouts[0].s]; s.registered && !s.reconnected
    ensures var s, g' := g.sessions[g.timeouts[0].s], PopTimeout(g, post);
            && g'.timeouts == g.timeouts[1..] && g'.cache == g.cache - {s.id}
            && g'.sessions[g.timeouts[0].s].closing && !g'.sessions[g.timeouts[0].s].waitReconnect
            && g'.log == if s.router != 0 && post == 0 then g.log + [Notice(s.id, Removed)] else g.log
  {
    hide StartClosing;
    var s := g.sessions[g.timeouts[0].s].(waitReconnect := false);
    StartClosingCloses(s);
    StartClosingCloses(SendRemoveSession(s, true, post).s);
    ClosingKeepsWait(SendRemoveSession(s, true, post).s);
    assert g.log + [] == g.log;
  }

  lemma ClosingKeepsWait(s: Sess)
    ensures StartClosing(s).waitReconnect == s.waitReconnect
  {}

  /** A second tick in the same second does nothing. */
  lemma SecondTickIsNothing(g: Gateway, posts: Posts, idlePosts: Posts)
    requires Known(g)
    ensures Tick(g, g.lastTick, posts, idlePosts) == g
  {}

  // ---------------------------------------------------------------- whom a tick leaves alone

  /** No timer of the session is due. */
  ghost predicate NotDue(g: Gateway, r: Ref, now: int) {
    && (forall t :: t in g.timeouts && t.s == r ==> t.timeout > now)
    && (forall t :: t in g.firstIdle && t.s == r ==> t.timeout > now)
  }

  /** No timer that is due is of a session with the id. */
  ghost predicate IdNotDue(g: Gateway, id: Id, now: int)
    requires Known(g)
  {
    forall t :: t in g.timeouts && t.timeout <= now ==> g.sessions[t.s].id != id
  }

  ghost predicate LeftAlone(g: Gateway, g': Gateway, now: int)
    requires Known(g)
  {
    && g'.sessions.Keys == g.sessions.Keys && g'.active == g.active
    && (forall q :: q in g.sessions ==> g'.sessions[q].id == g.sessions[q].id)
    && (forall q :: q in g.sessions && NotDue(g, q, now) ==> g'.sessions[q] == g.sessions[q])
    && (forall t :: t in g.timeouts && t.timeout > now ==> t in g'.timeouts)
    && (forall t :: t in g.firstIdle && t.timeout > now ==> t in g'.firstIdle)
    && (forall t :: t in g'.timeouts ==> t in g.timeouts)
    && (forall t :: t in g'.firstIdle ==> t in g.firstIdle)
    && (forall id :: id in g.cache && IdNotDue(g, id, now) ==> id in g'.cache && g'.cache[id] == g.cache[id])
  }

  lemma TimersLeft(timers: seq<Timer>, now: int)
    requires Due(timers, now)
    ensures forall t :: t in timers && t.timeout > now ==> t in timers[1..]
    ensures forall t :: t in timers[1..] ==> t in timers
    ensures timers[0] in timers
  {
    assert timers == [timers[0]] + timers[1..];
  }

  lemma PopTimeoutLeavesAlone(g: Gateway, now: int, post: int)
    requires Known(g) && Due(g.timeouts, now)
    ensures Known(PopTimeout(g, post)) && LeftAlone(g, PopTimeout(g, post), now)
  {
    CloseChanges(g.sessions[g.timeouts[0].s].(waitReconnect := false), true, post);
    PopTimeoutTimers(g, post);
    TimersLeft(g.timeouts, now);
    hide CloseWithManager, Due;
  }

  lemma PopIdleLeavesAlone(g: Gateway, now: int, post: int)
    requires Known(g) && Due(g.firstIdle, now)
    ensures Known(PopIdle(g, post)) && LeftAlone(g, PopIdle(g, post), now)
  {
    hide CloseWithManager;
    var t := g.firstIdle[0];
    CloseChanges(g.sessions[t.s], g.sessions[t.s].hasOwner, post);
    PopIdleTimers(g, post);
    assert t in g.firstIdle;
    assert g.firstIdle == [t] + g.firstIdle[1..];
  }

  lemma LeftAloneChain(g1: Gateway, g2: Gateway, g3: Gateway, now: int)
    requires Known(g1) && Known(g2) && LeftAlone(g1, g2, now) && LeftAlone(g2, g3, now)
    ensures LeftAlone(g1, g3, now)
  {
    forall id | id in g1.cache && IdNotDue(g1, id, now) ensures id in g3.cache && g3.cache[id] == g1.cache[id] {
      assert IdNotDue(g2, id, now);
    }
    forall q | q in g1.sessions && NotDue(g1, q, now) ensures g3.sessions[q] == g1.sessions[q] {
      assert NotDue(g2, q, now);
    }
  }

  lemma {:induction false} PopTimeoutsLeavesAlone(g: Gateway, now: int, posts: Posts, k: nat)
    requires Known(g)
    ensures Known(PopTimeouts(g, now, posts, k)) && LeftAlone(g, PopTimeouts(g, now, posts, k), now)
    decreases |g.timeouts|
  {
    if Due(g.timeouts, now) {
      var g1 := PopTimeout(g, posts(k));
      PopTimeoutLeavesAlone(g, now, posts(k));
      PopTimeoutTimers(g, posts(k));
      hide PopTimeout, LeftAlone, Known;
      PopTimeoutsLeavesAlone(g1, now, posts, k + 1);
      LeftAloneChain(g, g1, PopTimeouts(g1, now, posts, k + 1), now);
    }
  }

  lemma {:induction false} PopIdlesLeavesAlone(g: Gateway, now: int, posts: Posts, k: nat)
    requires Known(g)
    ensures LeftAlone(g, PopIdles(g, now, posts, k), now)
    decreases |g.firstIdle|
  {
    if Due(g.firstIdle, now) {
      var g1 := PopIdle(g, posts(k));
      PopIdleLeavesAlone(g, now, posts(k));
      PopIdleTimers(g, posts(k));
      hide PopIdle, LeftAlone, Known;
      PopIdlesLeavesAlone(g1, now, posts, k + 1);
      LeftAloneChain(g, g1, PopIdles(g1, now, posts, k + 1), now);
    }
  }

  /** A tick takes only timers that are due, changes only sessions that have one, and takes from the cache only ids of
      such a session. */
  lemma TickTouchesOnlyDue(g: Gateway, now: int, posts: Posts, idlePosts: Posts)
    requires Known(g)
    ensures LeftAlone(g, Tick(g, now, posts, idlePosts), now)
  {
    hide PopTimeouts, PopIdles;
    if g.lastTick != now {
      var g1 := g.(lastTick := now);
      PopTimeoutsLeavesAlone(g1, now, posts, 0);
      var g2 := PopTimeouts(g1, now, posts, 0);
      PopIdlesLeavesAlone(g2, now, idlePosts, 0);
      LeftAloneChain(g1, g2, PopIdles(g2, now, idlePosts, 0), now);
      SameButTick(g, PopIdles(g2, now, idlePosts, 0), now);
    }
  }

  lemma SameButTick(g: Gateway, g': Gateway, now: int)
    requires Known(g) && LeftAlone(g.(lastTick := now), g', now)
    ensures LeftAlone(g, g', now)
  {
    var g1 := g.(lastTick := now);
    forall id | id in g.cache && IdNotDue(g, id, now) ensures id in g'.cache && g'.cache[id] == g.cache[id] {
      assert IdNotDue(g1, id, now);
    }
    forall q | q in g.sessions && NotDue(g, q, now) ensures g'.sessions[q] == g.sessions[q] {
      assert NotDue(g1, q, now);
    }
  }
}
