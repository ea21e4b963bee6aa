/** The sessions of the gateway: `session.cpp` and the maps and timer lists of `session_manager.cpp`, as functions on
    the state. A session object is named by a reference; the backend sees the notices in `log`. */
module Sessions {

  type Ref = nat

  type Id = nat   // 0 until a session is initialised

  const INVALID_ROUTER := -1007
  const LOST_MANAGER := -1012
  const REFUSE_RECONNECT := -1005
  const ALREADY_HAS_FD := -1015
  const SESSION_NOT_FOUND := -1016

  datatype Kind = Added | Removed

  /** A notice the backend was successfully sent. */
  datatype Notice = Notice(id: Id, kind: Kind)

  /** The fields and flags of a session, and its history: the handshake callback fired, it was put among the active
      sessions, and a notice that it is gone could not be sent. */
  datatype Sess = Sess(
    id: Id, router: nat, hasOwner: bool,
    inited: bool, hasFd: bool, registered: bool, reconnected: bool, waitReconnect: bool, closing: bool, closingFd: bool,
    shook: bool, activated: bool, removeFailed: bool)

  // ---------------------------------------------------------------- one session

  datatype Outcome = Outcome(s: Sess, notices: seq<Notice>, code: int)

  function Created(router: nat, hasFd: bool): Sess {
    Sess(0, router, true, false, hasFd, false, false, false, false, false, false, false, false)
  }

  function InitNewSession(s: Sess, id: Id, router: nat): Sess {
    s.(id := id, router := router, inited := true)
  }

  /** The new session of a reconnect. */
  function Successor(s: Sess, prior: Sess): Sess {
    s.(id := prior.id, router := prior.router, inited := true, registered := prior.registered)
  }

  /** The old session of a reconnect. */
  function Predecessor(prior: Sess): Sess { prior.(reconnected := true, waitReconnect := false) }

  /** `post` is what the bus answers; `mgr` says whether the caller supplied a manager. */
  function SendToServer(s: Sess, mgr: bool, post: int): int {
    if s.router == 0 then INVALID_ROUTER
    else if !mgr && !s.hasOwner then LOST_MANAGER
    else post
  }

  function SendNewSession(s: Sess, post: int): Outcome {
    if s.registered then Outcome(s, [], 0)
    else
      var ret := SendToServer(s, s.hasOwner, post);
      if ret == 0 then Outcome(s.(registered := true), [Notice(s.id, Added)], 0) else Outcome(s, [], ret)
  }

  function SendRemoveSession(s: Sess, mgr: bool, post: int): Outcome {
    if !s.registered then Outcome(s, [], 0)
    else
      var ret := SendToServer(s, mgr, post);
      if ret == 0 then Outcome(s.(registered := false), [Notice(s.id, Removed)], 0)
      else Outcome(s.(removeFailed := true), [], ret)
  }

  function CloseFd(s: Sess): Sess {
    if !s.closingFd && s.hasFd then s.(hasFd := false, hasOwner := false, closingFd := true) else s
  }

  function StartClosing(s: Sess): Sess { if s.closing then s else CloseFd(s.(closing := true)) }

  function CloseWithManager(s: Sess, mgr: bool, post: int): Outcome {
    var o := if s.registered && !s.reconnected && !s.waitReconnect then SendRemoveSession(s, mgr, post)
             else Outcome(s, [], 0);
    o.(s := StartClosing(o.s), code := 0)
  }

  // ---------------------------------------------------------------- the manager

  datatype Timer = Timer(timeout: int, s: Ref)

  datatype Conf = Conf(reconnectTimeout: int, firstIdleTimeout: int, defaultRouter: nat)

  datatype Gateway = Gateway(
    conf: Conf,
    active: map<Id, Ref>,
    cache: map<Id, Ref>,
    firstIdle: seq<Timer>,
    timeouts: seq<Timer>,
    lastTick: int,
    sessions: map<Ref, Sess>,
    log: seq<Notice>)

  datatype Reply = Reply(g: Gateway, code: int)

  /** What the bus answers, call by call. */
  type Posts = nat -> int

  ghost predicate Known(g: Gateway) {
    && (forall id :: id in g.active ==> g.active[id] in g.sessions)
    && (forall id :: id in g.cache ==> g.cache[id] in g.sessions)
    && (forall t :: t in g.firstIdle ==> t.s in g.sessions)
    && (forall t :: t in g.timeouts ==> t.s in g.sessions)
  }

  function Put(g: Gateway, r: Ref, s: Sess, notices: seq<Notice>): Gateway {
    g.(sessions := g.sessions[r := s], log := g.log + notices)
  }

  function CloseSession(g: Gateway, r: Ref, mgr: bool, post: int): Gateway
    requires r in g.sessions
  {
    var o := CloseWithManager(g.sessions[r], mgr, post);
    Put(g, r, o.s, o.notices)
  }

  /** `session::close` */
  function CloseSelf(g: Gateway, r: Ref, post: int): Gateway
    requires r in g.sessions
  {
    CloseSession(g, r, g.sessions[r].hasOwner, post)
  }

  /** A connection is accepted; unless all goes well the session is closed at once. */
  function Accept(g: Gateway, r: Ref, now: int, hasFd: bool, ok: bool): Gateway {
    var created := Put(g, r, Created(g.conf.defaultRouter, hasFd), []);
    if !ok then CloseSelf(created, r, 0)
    else
      var wait := if g.conf.firstIdleTimeout > 0 then g.conf.firstIdleTimeout else 1;
      created.(firstIdle := g.firstIdle + [Timer(now + wait, r)])
  }

  /** `session_manager::close` */
  function Close(g: Gateway, id: Id, allowReconnect: bool, now: int, post: int): Reply
    requires Known(g)
  {
    if id in g.active then
      var r := g.active[id];
      if g.conf.reconnectTimeout > 0 && allowReconnect then
        var s := g.sessions[r];
        Reply(Put(g, r, CloseFd(s.(waitReconnect := true)), []).(
                active := g.active - {id},
                cache := g.cache[s.id := r],
                timeouts := g.timeouts + [Timer(now + g.conf.reconnectTimeout, r)]), 0)
      else
        Reply(CloseSelf(g, r, post).(active := g.active - {id}), 0)
    else if !allowReconnect && id in g.cache then
      var r := g.cache[id];
      var g1 := CloseSelf(g, r, post);
      Reply(Put(g1, r, g1.sessions[r].(waitReconnect := false), []).(cache := g.cache - {id}), 0)
    else
      Reply(g, SESSION_NOT_FOUND)
  }

  lemma CloseFails(g: Gateway, id: Id, allowReconnect: bool, now: int, post: int)
    requires Known(g)
    ensures Close(g, id, allowReconnect, now, post).code < 0 ==> Close(g, id, allowReconnect, now, post).g == g
  {}

  function SetSessionRouter(g: Gateway, id: Id, router: nat): Reply
    requires Known(g)
  {
    if id in g.active then
      Reply(Put(g, g.active[id], g.sessions[g.active[id]].(router := router), []), 0)
    else
      Reply(g, SESSION_NOT_FOUND)
  }

  /** `session::init_reconnect`: the old session hands over to the new one. */
  function HandedOver(g: Gateway, r: Ref, prior: Ref): Gateway
    requires r in g.sessions && prior in g.sessions
  {
    var g1 := Put(g, r, Successor(g.sessions[r], g.sessions[prior]), []);
    Put(g1, prior, Predecessor(g1.sessions[prior]), [])
  }

  /** The session that `reconnect` moves to the cache when its lost connection has not been noticed. */
  function Detach(g: Gateway, oldId: Id, accepts: bool, now: int, post: int): Gateway
    requires Known(g)
  {
    if oldId !in g.cache && oldId in g.active && accepts then Close(g, oldId, true, now, post).g else g
  }

  /** The checks of `reconnect` on the cached session, and the hand-over. */
  function Resume(g: Gateway, r: Ref, oldId: Id, accepted: bool, post: int): Reply
    requires Known(g) && r in g.sessions && oldId in g.cache
  {
    var prior := g.cache[oldId];
    if g.sessions[prior].hasFd then Reply(g, ALREADY_HAS_FD)
    else if g.sessions[prior].reconnected then Reply(g, SESSION_NOT_FOUND)
    else if !accepted then Reply(g, REFUSE_RECONNECT)
    else
      var g1 := CloseSelf(HandedOver(g, r, prior), prior, post);
      Reply(g1.(cache := g1.cache - {oldId}), 0)
  }

  /** `session_manager::reconnect`; `accepts` is the answer of the protocol's `check_reconnect`. */
  function Reconnect(g: Gateway, r: Ref, oldId: Id, accepts: bool, now: int, posts: Posts): Reply
    requires Known(g) && r in g.sessions
  {
    var g1 := Detach(g, oldId, accepts, now, posts(0));
    if oldId !in g1.cache then Reply(g1, SESSION_NOT_FOUND)
    else Resume(g1, r, oldId, accepts || oldId !in g.cache, posts(1))
  }

  /** The backend is told of the session, which becomes the active one with its id. */
  function Announce(g: Gateway, r: Ref, id: Id, post: int): Reply
    requires r in g.sessions
  {
    var o := SendNewSession(g.sessions[r], post);
    if o.code < 0 then Reply(Put(g, r, o.s, o.notices), o.code)
    else Reply(Put(g, r, o.s.(activated := true), o.notices).(active := g.active[id := r]), 0)
  }

  /** `session_manager::active_session` */
  function ActiveSession(g: Gateway, r: Ref, now: int, posts: Posts): Reply
    requires Known(g) && r in g.sessions
  {
    var id := g.sessions[r].id;
    var g1 := if id in g.active then Close(g, id, false, now, posts(0)).g else g;
    Announce(g1, r, id, posts(1))
  }

  predicate Due(timers: seq<Timer>, now: int) { timers != [] && timers[0].timeout <= now }

  function PopTimeout(g: Gateway, post: int): Gateway
    requires Known(g) && g.timeouts != []
  {
    var r := g.timeouts[0].s;
    var g1 := Put(g, r, g.sessions[r].(waitReconnect := false), []).(cache := g.cache - {g.sessions[r].id});
    CloseSession(g1, r, true, post).(timeouts := g.timeouts[1..])
  }

  function PopTimeouts(g: Gateway, now: int, posts: Posts, k: nat): Gateway
    requires Known(g)
    decreases |g.timeouts|
  {
    if Due(g.timeouts, now) then PopTimeouts(PopTimeout(g, posts(k)), now, posts, k + 1) else g
  }

  function PopIdle(g: Gateway, post: int): Gateway
    requires Known(g) && g.firstIdle != []
  {
    var r := g.firstIdle[0].s;
    (if !g.sessions[r].registered && !g.sessions[r].closing then CloseSelf(g, r, post) else g).(
      firstIdle := g.firstIdle[1..])
  }

  function PopIdles(g: Gateway, now: int, posts: Posts, k: nat): Gateway
    requires Known(g)
    decreases |g.firstIdle|
  {
    if Due(g.firstIdle, now) then PopIdles(PopIdle(g, posts(k)), now, posts, k + 1) else g
  }

  lemma PopTimeoutsKnown(g: Gateway, now: int, posts: Posts, k: nat)
    requires Known(g)
    ensures Known(PopTimeouts(g, now, posts, k))
    decreases |g.timeouts|
  {}

  function Tick(g: Gateway, now: int, posts: Posts, idlePosts: Posts): Gateway
    requires Known(g)
  {
    if g.lastTick == now then g
    else
      var g1 := g.(lastTick := now);
      PopTimeoutsKnown(g1, now, posts, 0);
      PopIdles(PopTimeouts(g1, now, posts, 0), now, idlePosts, 0)
  }

  function Refs(timers: seq<Timer>): (refs: seq<Ref>)
    ensures |refs| == |timers| && forall i :: 0 <= i < |refs| ==> refs[i] == timers[i].s
  {
    seq(|timers|, i requires 0 <= i < |timers| => timers[i].s)
  }

  ghost predicate AllKnown(g: Gateway, refs: seq<Ref>) { forall r :: r in refs ==> r in g.sessions }

  /** The loops of `reset`. */
  function CloseEach(g: Gateway, refs: seq<Ref>, posts: Posts, k: nat): (g': Gateway)
    requires AllKnown(g, refs)
    ensures g'.sessions.Keys == g.sessions.Keys && g' == g.(sessions := g'.sessions, log := g'.log)
    decreases |refs|
  {
    if refs == [] then g else CloseEach(CloseSelf(g, refs[0], posts(k)), refs[1..], posts, k + 1)
  }

  /** The refs of a map's values in some order. */
  ghost predicate Enumerates(order: seq<Ref>, m: map<Id, Ref>) {
    && |order| == |m|
    && (forall id :: id in m ==> m[id] in order)
    && (forall r :: r in order ==> r in m.Values)
  }

  /** `session_manager::reset` visiting its two maps in the orders given. */
  function Reset(g: Gateway, actives: seq<Ref>, cached: seq<Ref>, posts: nat -> Posts): Gateway
    requires Known(g) && Enumerates(actives, g.active) && Enumerates(cached, g.cache)
  {
    var g1 := CloseEach(g, actives, posts(0), 0).(active := map[]);
    var g2 := CloseEach(g1, Refs(g.firstIdle), posts(1), 0).(firstIdle := []);
    var g3 := CloseEach(g2, cached, posts(2), 0).(cache := map[]);
    CloseEach(g3, Refs(g.timeouts), posts(3), 0).(timeouts := [])
  }

  // ---------------------------------------------------------------- the callbacks of the gateway

  /** The protocol reports that its connection is closed. */
  function OnClose(g: Gateway, r: Ref, enableReconnect: bool, now: int, post: int): Gateway
    requires Known(g) && r in g.sessions
  {
    var s := g.sessions[r];
    if s.closing then g
    else if s.hasOwner then
      var reply := Close(g, s.id, enableReconnect, now, post);
      if reply.code < 0 then CloseSelf(g, r, post) else reply.g
    else CloseSelf(g, r, post)
  }

  /** Reading from the connection failed. */
  function OnReadError(g: Gateway, r: Ref, now: int, post: int): Gateway
    requires Known(g) && r in g.sessions
  {
    var s := g.sessions[r];
    if s.closing || !s.hasOwner then g else Close(g, s.id, true, now, post).g
  }

  /** The protocol reports the end of its handshake, once. */
  function OnHandshakeDone(g: Gateway, r: Ref, ok: bool, now: int, posts: Posts): Gateway
    requires Known(g) && r in g.sessions
  {
    var g1 := Put(g, r, g.sessions[r].(shook := true), []);
    if ok then ActiveSession(g1, r, now, posts).g else g1
  }

  /** The protocol asks for a reconnect; refused once the session is initialised. */
  function OnReconnect(g: Gateway, r: Ref, oldId: Id, accepts: bool, now: int, posts: Posts): Reply
    requires Known(g) && r in g.sessions
  {
    if g.sessions[r].inited then Reply(g, -1) else Reconnect(g, r, oldId, accepts, now, posts)
  }
}
