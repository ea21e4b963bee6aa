/** Every run of the gateway's sessions: the backend hears "added" and "removed" strictly in turn for each session id,
    the maps stay well formed, and no session outlives its deadline. */
module SessionProtocol {
  import opened Sessions

  // ---------------------------------------------------------------- what the backend was told

  function Notices(log: seq<Notice>, id: Id): seq<Kind> {
    if log == [] then []
    else
      var n := |log| - 1;
      Notices(log[..n], id) + if log[n].id == id then [log[n].kind] else []
  }

  lemma NoticesPush(log: seq<Notice>, n: Notice, id: Id)
    ensures Notices(log + [n], id) == Notices(log, id) + if n.id == id then [n.kind] else []
  {
    assert (log + [n])[..|log|] == log;
  }

  predicate Alternates(kinds: seq<Kind>) {
    forall i :: 0 <= i < |kinds| ==> kinds[i] == if i % 2 == 0 then Added else Removed
  }

  /** The backend was told of the session and has not been told of its end. */
  predicate Believed(log: seq<Notice>, id: Id) {
    var kinds := Notices(log, id);
    kinds != [] && kinds[|kinds| - 1] == Added
  }

  // ---------------------------------------------------------------- invariants

  ghost predicate SessOk(s: Sess) {
    && (s.inited <==> s.id != 0)
    && (s.shook ==> s.inited)
    && (s.activated ==> s.shook)
    && (s.reconnected || s.waitReconnect ==> s.activated)
    && (s.registered ==> s.inited)
    && (s.closingFd ==> !s.hasFd)
  }

  /** The session carries the duty to tell the backend of its end. */
  predicate Holds(s: Sess, id: Id) { s.id == id && s.registered && !s.reconnected }

  ghost predicate TokenAt(g: Gateway, id: Id) {
    && Alternates(Notices(g.log, id))
    && (Believed(g.log, id) <==> exists r :: r in g.sessions && Holds(g.sessions[r], id))
  }

  ghost predicate Unique(g: Gateway) {
    forall r1, r2 :: r1 in g.sessions && r2 in g.sessions && r1 != r2
      && g.sessions[r1].id == g.sessions[r2].id && g.sessions[r1].inited
      ==> g.sessions[r1].reconnected || g.sessions[r2].reconnected
  }

  ghost predicate Core(g: Gateway) {
    && (forall r :: r in g.sessions ==> SessOk(g.sessions[r]))
    && Unique(g)
    && (forall id :: TokenAt(g, id))
  }

  ghost predicate HasTimer(timers: seq<Timer>, r: Ref) {
    exists i :: 0 <= i < |timers| && timers[i].s == r
  }

  ghost predicate ActiveOk(g: Gateway, id: Id)
    requires Known(g) && id in g.active
  {
    var s := g.sessions[g.active[id]];
    s.id == id && s.activated && !s.reconnected && !s.waitReconnect
  }

  ghost predicate CacheOk(g: Gateway, id: Id)
    requires Known(g) && id in g.cache
  {
    var s := g.sessions[g.cache[id]];
    s.id == id && s.activated && !s.reconnected && s.waitReconnect && !s.hasFd && HasTimer(g.timeouts, g.cache[id])
  }

  ghost predicate Maps(g: Gateway) {
    && Known(g)
    && (forall id :: id in g.active ==> ActiveOk(g, id) && id !in g.cache)
    && (forall id :: id in g.cache ==> CacheOk(g, id))
  }

  ghost predicate Attended(g: Gateway, r: Ref)
    requires r in g.sessions
  {
    g.sessions[r].registered || g.sessions[r].closing || HasTimer(g.firstIdle, r)
  }

  ghost predicate Inv(g: Gateway) {
    Core(g) && Maps(g) && forall r :: r in g.sessions ==> Attended(g, r)
  }

  predicate Sorted(timers: seq<Timer>) {
    forall i, j :: 0 <= i < j < |timers| ==> timers[i].timeout <= timers[j].timeout
  }

  ghost predicate Within(timers: seq<Timer>, after: int, upTo: int) {
    Sorted(timers) && forall t :: t in timers ==> after < t.timeout <= upTo
  }

  function IdleWait(conf: Conf): int { if conf.firstIdleTimeout > 0 then conf.firstIdleTimeout else 1 }

  ghost predicate Timely(g: Gateway, conf: Conf, clock: int) {
    && g.conf == conf
    && g.lastTick <= clock
    && Within(g.firstIdle, g.lastTick, clock + IdleWait(g.conf))
    && Within(g.timeouts, g.lastTick, clock + g.conf.reconnectTimeout)
  }

  // ---------------------------------------------------------------- one session changes

  /** A change of one session that keeps who it is and sends at most the notice its REGISTERED flag stands for. */
  ghost predicate Faithful(s: Sess, s': Sess, notices: seq<Notice>) {
    && s'.id == s.id && s'.inited == s.inited && s'.reconnected == s.reconnected
    && SessOk(s')
    && (|| (notices == [] && s'.registered == s.registered)
        || (notices == [Notice(s.id, Added)] && !s.registered && s'.registered && !s.reconnected)
        || (notices == [Notice(s.id, Removed)] && s.registered && !s'.registered && !s.reconnected))
  }

  /** Nothing the maps rely on is lost. */
  ghost predicate Steady(s: Sess, s': Sess) {
    && (s.activated ==> s'.activated) && s'.waitReconnect == s.waitReconnect && (s'.hasFd ==> s.hasFd)
    && (s.registered || s.closing ==> s'.registered || s'.closing)
  }

  lemma PutKeepsCore(g: Gateway, r: Ref, s: Sess, notices: seq<Notice>)
    requires Core(g) && r in g.sessions && Faithful(g.sessions[r], s, notices)
    ensures Core(Put(g, r, s, notices))
  {
    var g' := Put(g, r, s, notices);
    assert Unique(g');
    forall id ensures TokenAt(g', id) {
      PutKeepsToken(g, r, s, notices, id);
    }
  }

  lemma PutKeepsToken(g: Gateway, r: Ref, s: Sess, notices: seq<Notice>, id: Id)
    requires Core(g) && r in g.sessions && Faithful(g.sessions[r], s, notices)
    ensures TokenAt(Put(g, r, s, notices), id)
  {
    assert TokenAt(g, id);
    if notices == [] || id != s.id {
      hide Core, Unique;
      OthersKeepToken(g, r, s, notices, id);
    } else {
      OnlyHolder(g, r, id);
      hide Core, Unique, TokenAt;
      PassToken(g, r, s, notices[0]);
    }
  }

  /** No notice, or one for another id. */
  lemma OthersKeepToken(g: Gateway, r: Ref, s: Sess, notices: seq<Notice>, id: Id)
    requires TokenAt(g, id) && r in g.sessions && Faithful(g.sessions[r], s, notices) && (notices == [] || id != s.id)
    ensures TokenAt(Put(g, r, s, notices), id)
  {
    hide SessOk;
    HoldersAlike(g.sessions, Put(g, r, s, notices).sessions, id);
    if notices == [] {
      assert Put(g, r, s, notices).log == g.log;
    } else {
      NoticesPush(g.log, notices[0], id);
    }
    hide Notices;
  }

  /** The notice for a session's own id, sent as its registration changes. */
  lemma PassToken(g: Gateway, r: Ref, s: Sess, notice: Notice)
    requires r in g.sessions && TokenAt(g, s.id) && notice.id == s.id == g.sessions[r].id
    requires forall q :: q in g.sessions && Holds(g.sessions[q], s.id) ==> q == r
    requires notice.kind == Added <==> Holds(s, s.id)
    requires notice.kind == Removed <==> Holds(g.sessions[r], s.id)
    ensures TokenAt(Put(g, r, s, [notice]), s.id)
  {
    var g' := Put(g, r, s, [notice]);
    NoticesPush(g.log, notice, s.id);
    NextAlternates(Notices(g.log, s.id), notice.kind);
    hide Notices;
    assert forall q :: q in g'.sessions && q != r ==> !Holds(g'.sessions[q], s.id);
    assert g'.sessions[r] == s;
  }

  lemma NextAlternates(kinds: seq<Kind>, kind: Kind)
    requires Alternates(kinds)
    requires kind == Added <==> (kinds == [] || kinds[|kinds| - 1] == Removed)
    ensures Alternates(kinds + [kind])
  {}

  lemma HoldersAlike(before: map<Ref, Sess>, after: map<Ref, Sess>, id: Id)
    requires forall q :: q in before && Holds(before[q], id) ==> q in after && Holds(after[q], id)
    requires forall q :: q in after && Holds(after[q], id) ==> q in before && Holds(before[q], id)
    ensures (exists q :: q in before && Holds(before[q], id)) <==> (exists q :: q in after && Holds(after[q], id))
  {}

  lemma OnlyHolder(g: Gateway, r: Ref, id: Id)
    requires Core(g) && r in g.sessions && g.sessions[r].id == id && g.sessions[r].inited && !g.sessions[r].reconnected
    ensures forall q :: q in g.sessions && Holds(g.sessions[q], id) ==> q == r
  {}

  lemma PutKeepsInv(g: Gateway, r: Ref, s: Sess, notices: seq<Notice>)
    requires Inv(g) && r in g.sessions && Faithful(g.sessions[r], s, notices) && Steady(g.sessions[r], s)
    ensures Inv(Put(g, r, s, notices))
  {
    hide Core;
    var g' := Put(g, r, s, notices);
    PutKeepsCore(g, r, s, notices);
    forall id | id in g'.active ensures ActiveOk(g', id) { assert ActiveOk(g, id); }
    forall id | id in g'.cache ensures CacheOk(g', id) { assert CacheOk(g, id); }
    forall q | q in g'.sessions ensures Attended(g', q) {
      assert Attended(g, q);
    }
  }

  lemma CloseFdChanges(s: Sess)
    ensures var s' := CloseFd(s);
            && s'.id == s.id && s'.inited == s.inited && s'.registered == s.registered
            && s'.reconnected == s.reconnected && s'.waitReconnect == s.waitReconnect && s'.shook == s.shook
            && s'.activated == s.activated
            && s'.removeFailed == s.removeFailed
            && s'.closing == s.closing && (s'.hasFd ==> s.hasFd && s.closingFd)
            && (s'.closingFd ==> s.closingFd || !s'.hasFd)
  {}

  /** Whether closing the session is to tell the backend. */
  predicate HasToTell(s: Sess) { s.registered && !s.reconnected && !s.waitReconnect }

  lemma RemoveChanges(s: Sess, mgr: bool, post: int)
    requires s.registered
    ensures var o := SendRemoveSession(s, mgr, post);
            || (o.s == s.(registered := false) && o.notices == [Notice(s.id, Removed)])
            || (o.s == s.(removeFailed := true) && o.notices == [])
  {}

  /** What closing a session changes, whatever the bus answers. */
  lemma CloseChanges(s: Sess, mgr: bool, post: int)
    ensures var o := CloseWithManager(s, mgr, post);
            && o.s.id == s.id && o.s.inited == s.inited && o.s.reconnected == s.reconnected
            && o.s.waitReconnect == s.waitReconnect && o.s.shook == s.shook && o.s.activated == s.activated
            && o.s.closing && (o.s.hasFd ==> s.hasFd) && (o.s.closingFd ==> s.closingFd || !o.s.hasFd)
            && (!HasToTell(s) ==>
                  o.notices == [] && o.s.registered == s.registered && o.s.removeFailed == s.removeFailed)
            && (HasToTell(s) ==>
                  || (o.notices == [Notice(s.id, Removed)] && !o.s.registered && o.s.removeFailed == s.removeFailed)
                  || (o.notices == [] && o.s.registered && o.s.removeFailed))
  {
    if HasToTell(s) { RemoveChanges(s, mgr, post); }
    hide CloseFd, SendRemoveSession;
    CloseFdChanges((if HasToTell(s) then SendRemoveSession(s, mgr, post).s else s).(closing := true));
  }

  /** Closing keeps who the session is and sends at most the notice its registration stands for. */
  lemma CloseIsFaithful(s: Sess, mgr: bool, post: int)
    requires SessOk(s)
    ensures var o := CloseWithManager(s, mgr, post); Faithful(s, o.s, o.notices) && Steady(s, o.s) && o.s.closing
  {
    hide CloseWithManager;
    CloseChanges(s, mgr, post);
  }

  lemma CloseSessionKeepsInv(g: Gateway, r: Ref, mgr: bool, post: int)
    requires Inv(g) && r in g.sessions
    ensures Inv(CloseSession(g, r, mgr, post))
  {
    hide Inv, CloseWithManager, Faithful, Steady;
    var o := CloseWithManager(g.sessions[r], mgr, post);
    InvSession(g, r);
    CloseIsFaithful(g.sessions[r], mgr, post);
    PutKeepsInv(g, r, o.s, o.notices);
  }

  lemma InvSession(g: Gateway, r: Ref)
    requires Inv(g) && r in g.sessions
    ensures SessOk(g.sessions[r])
  {}

  // ---------------------------------------------------------------- the operations of the manager

  lemma AcceptKeepsInv(g: Gateway, r: Ref, now: int, hasFd: bool, ok: bool)
    requires Inv(g) && r !in g.sessions
    ensures Inv(Accept(g, r, now, hasFd, ok))
  {
    hide Core, Accept;
    var g' := Accept(g, r, now, hasFd, ok);
    Accepted(g, r, now, hasFd, ok);
    EntersKeepsCore(g, r, g'.sessions[r]);
    OtherFieldsAreIrrelevant(g.(sessions := g'.sessions), g');
    forall id | id in g'.active ensures ActiveOk(g', id) { assert ActiveOk(g, id); }
    forall id | id in g'.cache ensures CacheOk(g', id) { assert CacheOk(g, id); }
    PushedTimers(g.firstIdle, Timer(now + IdleWait(g.conf), r));
    forall q | q in g'.sessions ensures Attended(g', q) {
      if q != r { assert Attended(g, q); }
    }
  }

  lemma Accepted(g: Gateway, r: Ref, now: int, hasFd: bool, ok: bool)
    ensures var g' := Accept(g, r, now, hasFd, ok);
            && r in g'.sessions && !g'.sessions[r].inited && SessOk(g'.sessions[r])
            && (if ok then g'.firstIdle == g.firstIdle + [Timer(now + IdleWait(g.conf), r)]
                else g'.firstIdle == g.firstIdle && g'.sessions[r].closing)
            && g' == g.(sessions := g.sessions[r := g'.sessions[r]], firstIdle := g'.firstIdle)
  {
    assert g.log + [] + [] == g.log;
  }

  lemma EntersKeepsCore(g: Gateway, r: Ref, s: Sess)
    requires Core(g) && r !in g.sessions && SessOk(s) && !s.inited
    ensures Core(g.(sessions := g.sessions[r := s]))
  {
    var g' := g.(sessions := g.sessions[r := s]);
    forall id ensures TokenAt(g', id) {
      assert TokenAt(g, id);
      HoldersAlike(g.sessions, g'.sessions, id);
    }
  }

  lemma PushedTimers(timers: seq<Timer>, t: Timer)
    ensures HasTimer(timers + [t], t.s)
    ensures forall r :: HasTimer(timers, r) ==> HasTimer(timers + [t], r)
  {
    assert (timers + [t])[|timers|] == t;
    forall r | HasTimer(timers, r) ensures HasTimer(timers + [t], r) {
      var i :| 0 <= i < |timers| && timers[i].s == r;
      assert (timers + [t])[i].s == r;
    }
  }

  lemma OtherFieldsAreIrrelevant(g: Gateway, g': Gateway)
    requires Core(g) && g'.sessions == g.sessions && g'.log == g.log
    ensures Core(g')
  {
    forall id ensures TokenAt(g', id) { assert TokenAt(g, id); }
  }

  /** Entries of the maps go away. */
  lemma DropKeepsInv(g: Gateway, actives: set<Id>, cached: set<Id>)
    requires Inv(g)
    ensures Inv(g.(active := g.active - actives, cache := g.cache - cached))
  {
    hide Core;
    var g' := g.(active := g.active - actives, cache := g.cache - cached);
    OtherFieldsAreIrrelevant(g, g');
    forall id | id in g'.active ensures ActiveOk(g', id) { assert ActiveOk(g, id); }
    forall id | id in g'.cache ensures CacheOk(g', id) { assert CacheOk(g, id); }
    forall q | q in g'.sessions ensures Attended(g', q) { assert Attended(g, q); }
  }

  /** A session stops waiting for its reconnect and its id leaves the cache. */
  lemma ReleaseKeepsInv(g: Gateway, r: Ref)
    requires Inv(g) && r in g.sessions
    ensures var s := g.sessions[r];
            Inv(Put(g, r, s.(waitReconnect := false), []).(cache := g.cache - {s.id}))
  {
    hide Core;
    var s := g.sessions[r];
    var s' := s.(waitReconnect := false);
    var g1 := Put(g, r, s', []);
    var g' := g1.(cache := g.cache - {s.id});
    SessionIsOk(g, r);
    assert Faithful(s, s', []);
    PutKeepsCore(g, r, s', []);
    OtherFieldsAreIrrelevant(g1, g');
    ReleaseKeepsMaps(g, r);
    forall q | q in g'.sessions ensures Attended(g', q) { assert Attended(g, q); }
  }

  lemma ReleaseKeepsMaps(g: Gateway, r: Ref)
    requires Maps(g) && r in g.sessions
    ensures var s := g.sessions[r];
            Maps(Put(g, r, s.(waitReconnect := false), []).(cache := g.cache - {s.id}))
  {
    var s := g.sessions[r];
    var g' := Put(g, r, s.(waitReconnect := false), []).(cache := g.cache - {s.id});
    forall id | id in g'.active ensures ActiveOk(g', id) { assert ActiveOk(g, id); }
    forall id | id in g'.cache ensures CacheOk(g', id) { assert CacheOk(g, id); }
  }

  lemma SessionIsOk(g: Gateway, r: Ref)
    requires Core(g) && r in g.sessions
    ensures SessOk(g.sessions[r])
  {}

  lemma CloseKeepsInv(g: Gateway, id: Id, allowReconnect: bool, now: int, post: int)
    requires Inv(g)
    ensures Inv(Close(g, id, allowReconnect, now, post).g)
  {
    hide Inv, CloseWithManager;
    InvMaps(g);
    if id in g.active {
      if g.conf.reconnectTimeout > 0 && allowReconnect {
        CacheActive(g, id, now, post);
      } else {
        var g1 := CloseSelf(g, g.active[id], post);
        CloseSessionKeepsInv(g, g.active[id], g.sessions[g.active[id]].hasOwner, post);
        DropKeepsInv(g1, {id}, {});
        assert g1.cache - {} == g1.cache;
      }
    } else if !allowReconnect && id in g.cache {
      var r := g.cache[id];
      assert CacheOk(g, id);
      CloseSessionKeepsInv(g, r, g.sessions[r].hasOwner, post);
      SessionClosed(g, r, g.sessions[r].hasOwner, post);
      ReleaseKeepsInv(CloseSelf(g, r, post), r);
    }
  }

  lemma InvMaps(g: Gateway)
    requires Inv(g)
    ensures Maps(g)
  {}

  lemma SessionClosed(g: Gateway, r: Ref, mgr: bool, post: int)
    requires Inv(g) && r in g.sessions
    ensures var s' := CloseSession(g, r, mgr, post).sessions[r]; s'.id == g.sessions[r].id && s'.closing
  {
    hide Inv, CloseWithManager;
    InvSession(g, r);
    CloseIsFaithful(g.sessions[r], mgr, post);
  }

  lemma CacheActive(g: Gateway, id: Id, now: int, post: int)
    requires Inv(g) && id in g.active && g.conf.reconnectTimeout > 0
    ensures Inv(Close(g, id, true, now, post).g)
  {
    hide Core, CloseFd;
    var r := g.active[id];
    var g' := Close(g, id, true, now, post).g;
    var s' := CloseFd(g.sessions[r].(waitReconnect := true));
    assert ActiveOk(g, id);
    SessionIsOk(g, r);
    CloseFdChanges(g.sessions[r].(waitReconnect := true));
    PutKeepsCore(g, r, s', []);
    OtherFieldsAreIrrelevant(Put(g, r, s', []), g');
    PushedTimers(g.timeouts, Timer(now + g.conf.reconnectTimeout, r));
    forall i | i in g'.active ensures ActiveOk(g', i) && i !in g'.cache { assert ActiveOk(g, i); }
    forall i | i in g'.cache ensures CacheOk(g', i) { if i != id { assert CacheOk(g, i); } }
    forall q | q in g'.sessions ensures Attended(g', q) { assert Attended(g, q); }
  }

  lemma InitKeepsInv(g: Gateway, r: Ref, id: Id, router: nat)
    requires Inv(g) && r in g.sessions && !g.sessions[r].inited
    requires id != 0 && forall q :: q in g.sessions ==> g.sessions[q].id != id
    ensures Inv(Put(g, r, InitNewSession(g.sessions[r], id, router), []))
  {
    var g' := Put(g, r, InitNewSession(g.sessions[r], id, router), []);
    assert g'.log == g.log;
    assert SessOk(g.sessions[r]);
    forall i ensures TokenAt(g', i) {
      assert TokenAt(g, i);
      if q :| q in g.sessions && Holds(g.sessions[q], i) {
        assert Holds(g'.sessions[q], i);
      }
    }
    forall i | i in g'.active ensures ActiveOk(g', i) { assert ActiveOk(g, i); }
    forall i | i in g'.cache ensures CacheOk(g', i) { assert CacheOk(g, i); }
    forall q | q in g'.sessions ensures Attended(g', q) { assert Attended(g, q); }
  }

  /** The duty passes from the old session to the new one. */
  lemma HandOverKeepsCore(g: Gateway, r: Ref, prior: Ref)
    requires Core(g) && r in g.sessions && prior in g.sessions
    requires !g.sessions[r].inited && g.sessions[prior].activated && !g.sessions[prior].reconnected
    ensures Core(HandedOver(g, r, prior))
  {
    var g' := HandedOver(g, r, prior);
    assert g'.log == g.log;
    assert SessOk(g.sessions[r]) && SessOk(g.sessions[prior]);
    forall i ensures TokenAt(g', i) {
      assert TokenAt(g, i);
      if q :| q in g.sessions && Holds(g.sessions[q], i) {
        assert Holds(g'.sessions[if q == prior then r else q], i);
      }
      if q :| q in g'.sessions && Holds(g'.sessions[q], i) {
        assert Holds(g.sessions[if q == r then prior else q], i);
      }
    }
  }

  lemma HandOverKeepsInv(g: Gateway, r: Ref, id: Id)
    requires Inv(g) && r in g.sessions && !g.sessions[r].inited && id in g.cache
    ensures var g' := HandedOver(g, r, g.cache[id]); Inv(g'.(cache := g'.cache - {id}))
  {
    hide Core;
    var prior := g.cache[id];
    var g1 := HandedOver(g, r, prior);
    assert CacheOk(g, id);
    SessionIsOk(g, r);
    HandOverKeepsCore(g, r, prior);
    OtherFieldsAreIrrelevant(g1, g1.(cache := g1.cache - {id}));
    HandOverKeepsMaps(g, r, id);
    forall q | q in g1.sessions ensures Attended(g1, q) { assert Attended(g, q) && Attended(g, prior); }
  }

  lemma HandOverKeepsMaps(g: Gateway, r: Ref, id: Id)
    requires Maps(g) && r in g.sessions && SessOk(g.sessions[r]) && !g.sessions[r].inited && id in g.cache
    ensures var g' := HandedOver(g, r, g.cache[id]); Maps(g'.(cache := g'.cache - {id}))
  {
    var g1 := HandedOver(g, r, g.cache[id]);
    var g' := g1.(cache := g1.cache - {id});
    assert CacheOk(g, id);
    forall i | i in g'.active ensures ActiveOk(g', i) { assert ActiveOk(g, i); }
    forall i | i in g'.cache ensures CacheOk(g', i) { assert CacheOk(g, i); }
  }

  lemma ReconnectKeepsInv(g: Gateway, r: Ref, oldId: Id, accepts: bool, now: int, posts: Posts)
    requires Inv(g) && r in g.sessions && !g.sessions[r].inited
    ensures Inv(Reconnect(g, r, oldId, accepts, now, posts).g)
  {
    hide Inv, Close, CloseWithManager;
    InvMaps(g);
    var g1 := Detach(g, oldId, accepts, now, posts(0));
    DetachKeepsInv(g, r, oldId, accepts, now, posts(0));
    InvMaps(g1);
    if oldId in g1.cache && Reconnect(g, r, oldId, accepts, now, posts).code == 0 {
      HandOverKeepsInv(g1, r, oldId);
      var prior := g1.cache[oldId];
      var g2 := HandedOver(g1, r, prior);
      var g3 := g2.(cache := g2.cache - {oldId});
      CloseSessionKeepsInv(g3, prior, g3.sessions[prior].hasOwner, posts(1));
      assert Reconnect(g, r, oldId, accepts, now, posts).g == CloseSelf(g3, prior, posts(1));
    }
  }

  lemma DetachKeepsInv(g: Gateway, r: Ref, oldId: Id, accepts: bool, now: int, post: int)
    requires Inv(g) && r in g.sessions && !g.sessions[r].inited
    ensures var g1 := Detach(g, oldId, accepts, now, post);
            Inv(g1) && r in g1.sessions && !g1.sessions[r].inited
  {
    CloseKeepsInv(g, oldId, true, now, post);
    if oldId in g.active {
      assert ActiveOk(g, oldId) && SessOk(g.sessions[g.active[oldId]]);
    }
  }

  lemma ShakenKeepsInv(g: Gateway, r: Ref)
    requires Inv(g) && r in g.sessions && g.sessions[r].inited
    ensures Inv(Put(g, r, g.sessions[r].(shook := true), []))
  {
    SessionIsOk(g, r);
    PutKeepsInv(g, r, g.sessions[r].(shook := true), []);
  }

  /** A session that shakes hands has no predecessor among the active sessions. */
  lemma NoneActive(g: Gateway, r: Ref)
    requires Inv(g) && r in g.sessions && g.sessions[r].inited && !g.sessions[r].activated
    ensures g.sessions[r].id !in g.active && g.sessions[r].id !in g.cache
  {
    var id := g.sessions[r].id;
    assert SessOk(g.sessions[r]);
    assert id in g.active ==> ActiveOk(g, id);
    assert id in g.cache ==> CacheOk(g, id);
  }

  lemma ActiveSessionKeepsInv(g: Gateway, r: Ref, now: int, posts: Posts)
    requires Inv(g) && r in g.sessions && g.sessions[r].shook && !g.sessions[r].activated
    ensures Inv(ActiveSession(g, r, now, posts).g)
  {
    hide Inv, SendNewSession;
    InvMaps(g);
    InvSession(g, r);
    NoneActive(g, r);
    var s := g.sessions[r];
    var o := SendNewSession(s, posts(1));
    SendNewIsFaithful(s, posts(1));
    if o.code < 0 {
      PutKeepsInv(g, r, o.s, o.notices);
    } else {
      PutKeepsInv(g, r, o.s.(activated := true), o.notices);
      EnterActiveKeepsInv(Put(g, r, o.s.(activated := true), o.notices), r);
    }
  }

  lemma SendNewIsFaithful(s: Sess, post: int)
    requires SessOk(s) && s.shook && !s.reconnected
    ensures var o := SendNewSession(s, post);
            && Faithful(s, o.s, o.notices) && Steady(s, o.s)
            && o.s == s.(registered := o.s.registered)
            && Faithful(s, o.s.(activated := true), o.notices) && Steady(s, o.s.(activated := true))
  {}

  lemma EnterActiveKeepsInv(g: Gateway, r: Ref)
    requires Inv(g) && r in g.sessions
    requires var s := g.sessions[r]; s.activated && !s.reconnected && !s.waitReconnect && s.id !in g.cache
    ensures Inv(g.(active := g.active[g.sessions[r].id := r]))
  {
    hide Core;
    var id := g.sessions[r].id;
    var g' := g.(active := g.active[id := r]);
    OtherFieldsAreIrrelevant(g, g');
    forall i | i in g'.active ensures ActiveOk(g', i) { if i != id { assert ActiveOk(g, i); } }
    forall i | i in g'.cache ensures CacheOk(g', i) { assert CacheOk(g, i); }
    forall q | q in g'.sessions ensures Attended(g', q) { assert Attended(g, q); }
  }

  // ---------------------------------------------------------------- timers run out

  /** The first reconnect timer goes; its session is not in the cache. */
  lemma DropTimeoutKeepsInv(g: Gateway)
    requires Inv(g) && g.timeouts != [] && g.sessions[g.timeouts[0].s].id !in g.cache
    ensures Inv(g.(timeouts := g.timeouts[1..]))
  {
    hide Core;
    var g' := g.(timeouts := g.timeouts[1..]);
    OtherFieldsAreIrrelevant(g, g');
    forall id | id in g'.active ensures ActiveOk(g', id) { assert ActiveOk(g, id); }
    forall id | id in g'.cache ensures CacheOk(g', id) {
      assert CacheOk(g, id);
      var i :| 0 <= i < |g.timeouts| && g.timeouts[i].s == g.cache[id];
      assert g'.timeouts[i - 1].s == g.cache[id];
    }
    forall q | q in g'.sessions ensures Attended(g', q) { assert Attended(g, q); }
  }

  lemma PopTimeoutKeepsInv(g: Gateway, post: int)
    requires Inv(g) && g.timeouts != []
    ensures Inv(PopTimeout(g, post))
  {
    hide Inv, CloseWithManager;
    InvMaps(g);
    var r := g.timeouts[0].s;
    var s := g.sessions[r].(waitReconnect := false);
    var g1 := Put(g, r, s, []).(cache := g.cache - {s.id});
    ReleaseKeepsInv(g, r);
    CloseSessionKeepsInv(g1, r, true, post);
    SessionClosed(g1, r, true, post);
    DropTimeoutKeepsInv(CloseSession(g1, r, true, post));
  }

  /** The first idle timer goes; its session is registered or closing. */
  lemma DropIdleKeepsInv(g: Gateway)
    requires Inv(g) && g.firstIdle != []
    requires var s := g.sessions[g.firstIdle[0].s]; s.registered || s.closing
    ensures Inv(g.(firstIdle := g.firstIdle[1..]))
  {
    hide Core;
    var g' := g.(firstIdle := g.firstIdle[1..]);
    OtherFieldsAreIrrelevant(g, g');
    forall id | id in g'.active ensures ActiveOk(g', id) { assert ActiveOk(g, id); }
    forall id | id in g'.cache ensures CacheOk(g', id) { assert CacheOk(g, id); }
    forall q | q in g'.sessions ensures Attended(g', q) {
      assert Attended(g, q);
      if !g.sessions[q].registered && !g.sessions[q].closing {
        var i :| 0 <= i < |g.firstIdle| && g.firstIdle[i].s == q;
        assert g'.firstIdle[i - 1].s == q;
      }
    }
  }

  lemma PopIdleKeepsInv(g: Gateway, post: int)
    requires Inv(g) && g.firstIdle != []
    ensures Inv(PopIdle(g, post))
  {
    hide Inv;
    InvMaps(g);
    var r := g.firstIdle[0].s;
    if !g.sessions[r].registered && !g.sessions[r].closing {
      CloseSessionKeepsInv(g, r, g.sessions[r].hasOwner, post);
      DropIdleKeepsInv(CloseSelf(g, r, post));
    } else {
      DropIdleKeepsInv(g);
    }
  }

  lemma {:induction false} PopTimeoutsKeepsInv(g: Gateway, now: int, posts: Posts, k: nat)
    requires Inv(g)
    ensures Inv(PopTimeouts(g, now, posts, k))
    decreases |g.timeouts|
  {
    hide Inv, PopTimeout;
    InvMaps(g);
    if Due(g.timeouts, now) {
      PopTimeoutKeepsInv(g, posts(k));
      PopTimeoutTimers(g, posts(k));
      PopTimeoutsKeepsInv(PopTimeout(g, posts(k)), now, posts, k + 1);
    }
  }

  lemma PopTimeoutTimers(g: Gateway, post: int)
    requires Known(g) && g.timeouts != []
    ensures var g' := PopTimeout(g, post);
            && g'.timeouts == g.timeouts[1..] && g'.firstIdle == g.firstIdle
            && g'.lastTick == g.lastTick && g'.conf == g.conf && Known(g')
  {}

  lemma {:induction false} PopIdlesKeepsInv(g: Gateway, now: int, posts: Posts, k: nat)
    requires Inv(g)
    ensures Inv(PopIdles(g, now, posts, k))
    decreases |g.firstIdle|
  {
    hide Inv, PopIdle;
    InvMaps(g);
    if Due(g.firstIdle, now) {
      PopIdleKeepsInv(g, posts(k));
      PopIdleTimers(g, posts(k));
      PopIdlesKeepsInv(PopIdle(g, posts(k)), now, posts, k + 1);
    }
  }

  lemma PopIdleTimers(g: Gateway, post: int)
    requires Known(g) && g.firstIdle != []
    ensures var g' := PopIdle(g, post);
            && g'.firstIdle == g.firstIdle[1..] && g'.timeouts == g.timeouts
            && g'.lastTick == g.lastTick && g'.conf == g.conf && Known(g')
  {}

  lemma TickKeepsInv(g: Gateway, now: int, posts: Posts, idlePosts: Posts)
    requires Inv(g)
    ensures Inv(Tick(g, now, posts, idlePosts))
  {
    hide Core, PopTimeouts, PopIdles;
    if g.lastTick != now {
      var g1 := g.(lastTick := now);
      OtherFieldsAreIrrelevant(g, g1);
      DropKeepsInv(g, {}, {});
      LastTickIsIrrelevant(g, now);
      PopTimeoutsKeepsInv(g1, now, posts, 0);
      PopIdlesKeepsInv(PopTimeouts(g1, now, posts, 0), now, idlePosts, 0);
    }
  }

  lemma LastTickIsIrrelevant(g: Gateway, now: int)
    requires Inv(g)
    ensures Inv(g.(lastTick := now))
  {
    hide Core;
    var g' := g.(lastTick := now);
    OtherFieldsAreIrrelevant(g, g');
    forall id | id in g'.active ensures ActiveOk(g', id) { assert ActiveOk(g, id); }
    forall id | id in g'.cache ensures CacheOk(g', id) { assert CacheOk(g, id); }
    forall q | q in g'.sessions ensures Attended(g', q) { assert Attended(g, q); }
  }

  // ---------------------------------------------------------------- reset

  lemma {:induction false} CloseEachKeepsInv(g: Gateway, refs: seq<Ref>, posts: Posts, k: nat)
    requires Inv(g) && AllKnown(g, refs)
    ensures var g' := CloseEach(g, refs, posts, k);
            Inv(g') && forall r :: r in g.sessions && (r in refs || g.sessions[r].closing) ==> g'.sessions[r].closing
    decreases |refs|
  {
    hide Inv, CloseWithManager;
    if refs != [] {
      CloseSessionKeepsInv(g, refs[0], g.sessions[refs[0]].hasOwner, posts(k));
      SessionClosed(g, refs[0], g.sessions[refs[0]].hasOwner, posts(k));
      CloseEachKeepsInv(CloseSelf(g, refs[0], posts(k)), refs[1..], posts, k + 1);
    }
  }

  lemma ResetKeepsInv(g: Gateway, actives: seq<Ref>, cached: seq<Ref>, posts: nat -> Posts)
    requires Inv(g) && Enumerates(actives, g.active) && Enumerates(cached, g.cache)
    ensures Inv(Reset(g, actives, cached, posts))
  {
    hide Inv, CloseEach;
    InvMaps(g);
    var h1 := CloseEach(g, actives, posts(0), 0);
    CloseEachKeepsInv(g, actives, posts(0), 0);
    ClearActiveKeepsInv(h1);
    var g1 := h1.(active := map[]);
    var h2 := CloseEach(g1, Refs(g.firstIdle), posts(1), 0);
    CloseEachKeepsInv(g1, Refs(g.firstIdle), posts(1), 0);
    ClearIdleKeepsInv(h2);
    var g2 := h2.(firstIdle := []);
    var h3 := CloseEach(g2, cached, posts(2), 0);
    CloseEachKeepsInv(g2, cached, posts(2), 0);
    ClearCacheKeepsInv(h3);
    var g3 := h3.(cache := map[]);
    CloseEachKeepsInv(g3, Refs(g.timeouts), posts(3), 0);
    ClearTimeoutsKeepsInv(CloseEach(g3, Refs(g.timeouts), posts(3), 0));
  }

  lemma ClearActiveKeepsInv(g: Gateway)
    requires Inv(g)
    ensures Inv(g.(active := map[]))
  {
    hide Inv;
    DropKeepsInv(g, g.active.Keys, {});
    assert g.active - g.active.Keys == map[] && g.cache - {} == g.cache;
  }

  lemma ClearCacheKeepsInv(g: Gateway)
    requires Inv(g)
    ensures Inv(g.(cache := map[]))
  {
    hide Inv;
    DropKeepsInv(g, {}, g.cache.Keys);
    assert g.active - {} == g.active && g.cache - g.cache.Keys == map[];
  }

  lemma ClearIdleKeepsInv(g: Gateway)
    requires Inv(g) && forall r :: r in Refs(g.firstIdle) ==> r in g.sessions && g.sessions[r].closing
    ensures Inv(g.(firstIdle := []))
  {
    hide Core;
    var g' := g.(firstIdle := []);
    OtherFieldsAreIrrelevant(g, g');
    forall id | id in g'.active ensures ActiveOk(g', id) { assert ActiveOk(g, id); }
    forall id | id in g'.cache ensures CacheOk(g', id) { assert CacheOk(g, id); }
    forall q | q in g'.sessions ensures Attended(g', q) {
      assert Attended(g, q);
      if i :| 0 <= i < |g.firstIdle| && g.firstIdle[i].s == q {
        assert Refs(g.firstIdle)[i] == q;
      }
    }
  }

  lemma ClearTimeoutsKeepsInv(g: Gateway)
    requires Inv(g) && g.cache == map[]
    ensures Inv(g.(timeouts := []))
  {
    hide Core;
    var g' := g.(timeouts := []);
    OtherFieldsAreIrrelevant(g, g');
    forall id | id in g'.active ensures ActiveOk(g', id) { assert ActiveOk(g, id); }
    forall q | q in g'.sessions ensures Attended(g', q) { assert Attended(g, q); }
  }

  // ---------------------------------------------------------------- deadlines

  lemma TimelyLater(g: Gateway, clock: int, now: int)
    requires Timely(g, g.conf, clock) && clock <= now
    ensures Timely(g, g.conf, now)
  {}

  lemma PushKeepsWithin(timers: seq<Timer>, after: int, now: int, wait: int, r: Ref)
    requires Within(timers, after, now + wait) && after <= now && wait > 0
    ensures Within(timers + [Timer(now + wait, r)], after, now + wait)
  {}

  lemma TailKeepsWithin(timers: seq<Timer>, after: int, upTo: int)
    requires Within(timers, after, upTo) && timers != []
    ensures Within(timers[1..], after, upTo)
  {}

  lemma {:induction false} PopTimeoutsMeetsDeadlines(g: Gateway, now: int, posts: Posts, k: nat, after: int, upTo: int)
    requires Known(g) && Within(g.timeouts, after, upTo)
    ensures var g' := PopTimeouts(g, now, posts, k);
            && Known(g') && Within(g'.timeouts, after, upTo) && (forall t :: t in g'.timeouts ==> t.timeout > now)
            && g'.firstIdle == g.firstIdle && g'.lastTick == g.lastTick && g'.conf == g.conf
    decreases |g.timeouts|
  {
    hide Within, PopTimeout;
    if Due(g.timeouts, now) {
      PopTimeoutTimers(g, posts(k));
      TailKeepsWithin(g.timeouts, after, upTo);
      PopTimeoutsMeetsDeadlines(PopTimeout(g, posts(k)), now, posts, k + 1, after, upTo);
    } else {
      FrontIsFirst(g.timeouts, after, upTo, now);
    }
  }

  lemma FrontIsFirst(timers: seq<Timer>, after: int, upTo: int, now: int)
    requires Within(timers, after, upTo) && !Due(timers, now)
    ensures forall t :: t in timers ==> t.timeout > now
  {}

  lemma {:induction false} PopIdlesMeetsDeadlines(g: Gateway, now: int, posts: Posts, k: nat, after: int, upTo: int)
    requires Known(g) && Within(g.firstIdle, after, upTo)
    ensures var g' := PopIdles(g, now, posts, k);
            && Within(g'.firstIdle, after, upTo) && (forall t :: t in g'.firstIdle ==> t.timeout > now)
            && g'.timeouts == g.timeouts && g'.lastTick == g.lastTick && g'.conf == g.conf
    decreases |g.firstIdle|
  {
    hide Within, PopIdle;
    if Due(g.firstIdle, now) {
      PopIdleTimers(g, posts(k));
      TailKeepsWithin(g.firstIdle, after, upTo);
      PopIdlesMeetsDeadlines(PopIdle(g, posts(k)), now, posts, k + 1, after, upTo);
    } else {
      FrontIsFirst(g.firstIdle, after, upTo, now);
    }
  }

  lemma TickIsTimely(g: Gateway, now: int, posts: Posts, idlePosts: Posts)
    requires Known(g) && Timely(g, g.conf, now)
    ensures Timely(Tick(g, now, posts, idlePosts), g.conf, now) && Tick(g, now, posts, idlePosts).lastTick == now
  {
    hide PopTimeouts, PopIdles;
    if g.lastTick != now {
      var g1 := g.(lastTick := now);
      PopTimeoutsMeetsDeadlines(g1, now, posts, 0, g.lastTick, now + g.conf.reconnectTimeout);
      var g2 := PopTimeouts(g1, now, posts, 0);
      PopIdlesMeetsDeadlines(g2, now, idlePosts, 0, g.lastTick, now + IdleWait(g.conf));
    }
  }

  lemma AcceptIsTimely(g: Gateway, r: Ref, now: int, hasFd: bool, ok: bool)
    requires Timely(g, g.conf, now)
    ensures Timely(Accept(g, r, now, hasFd, ok), g.conf, now)
  {
    hide Within;
    PushKeepsWithin(g.firstIdle, g.lastTick, now, IdleWait(g.conf), r);
  }

  lemma CloseIsTimely(g: Gateway, id: Id, allowReconnect: bool, now: int, post: int)
    requires Known(g) && Timely(g, g.conf, now)
    ensures Timely(Close(g, id, allowReconnect, now, post).g, g.conf, now)
  {
    hide Within, CloseWithManager;
    if id in g.active && g.conf.reconnectTimeout > 0 {
      PushKeepsWithin(g.timeouts, g.lastTick, now, g.conf.reconnectTimeout, g.active[id]);
    }
  }

  lemma ReconnectIsTimely(g: Gateway, r: Ref, oldId: Id, accepts: bool, now: int, posts: Posts)
    requires Known(g) && r in g.sessions && Timely(g, g.conf, now)
    ensures Timely(Reconnect(g, r, oldId, accepts, now, posts).g, g.conf, now)
  {
    hide Within, CloseWithManager, Close;
    CloseIsTimely(g, oldId, true, now, posts(0));
  }

  lemma ActiveSessionIsTimely(g: Gateway, r: Ref, now: int, posts: Posts)
    requires Known(g) && r in g.sessions && Timely(g, g.conf, now)
    ensures Timely(ActiveSession(g, r, now, posts).g, g.conf, now)
  {
    hide Within, SendNewSession, Close;
    CloseIsTimely(g, g.sessions[r].id, false, now, posts(0));
  }

  lemma ResetIsTimely(g: Gateway, now: int, actives: seq<Ref>, cached: seq<Ref>, posts: nat -> Posts)
    requires Known(g) && Enumerates(actives, g.active) && Enumerates(cached, g.cache) && Timely(g, g.conf, now)
    ensures Timely(Reset(g, actives, cached, posts), g.conf, now)
  {
    hide CloseEach;
  }

  // ---------------------------------------------------------------- runs

  datatype Step =
    | Connect(r: Ref, hasFd: bool, ok: bool)
    | NewSession(r: Ref, id: Id)
    | AskReconnect(r: Ref, oldId: Id, accepts: bool)
    | HandshakeDone(r: Ref, ok: bool)
    | ProtocolClosed(r: Ref, enableReconnect: bool)
    | ReadError(r: Ref)
    | CloseObject(r: Ref)
    | CloseConnection(r: Ref)
    | ConnectionGone(r: Ref)
    | CloseId(id: Id, allowReconnect: bool)
    | Route(id: Id, router: nat)
    | TickAll(idlePosts: Posts)
    | ResetAll(actives: seq<Ref>, cached: seq<Ref>, allPosts: nat -> Posts)

  datatype Event = Event(now: int, posts: Posts, step: Step)

  ghost predicate Fresh(g: Gateway, id: Id) {
    id != 0 && forall r :: r in g.sessions ==> g.sessions[r].id != id
  }

  /** Whether the environment can take the step: it names an existing session, time does not run back, ids are fresh,
      and the handshake of an initialised session ends once. */
  ghost predicate Possible(g: Gateway, clock: int, e: Event) {
    && clock <= e.now
    && match e.step
       case Connect(r, _, _) => r !in g.sessions
       case NewSession(r, id) => r in g.sessions && !g.sessions[r].inited && Fresh(g, id)
       case HandshakeDone(r, _) => r in g.sessions && g.sessions[r].inited && !g.sessions[r].shook
       case AskReconnect(r, _, _) => r in g.sessions
       case ProtocolClosed(r, _) => r in g.sessions
       case ReadError(r) => r in g.sessions
       case CloseObject(r) => r in g.sessions
       case CloseConnection(r) => r in g.sessions
       case ConnectionGone(r) => r in g.sessions
       case ResetAll(actives, cached, _) => Enumerates(actives, g.active) && Enumerates(cached, g.cache)
       case _ => true
  }

  ghost function Apply(g: Gateway, clock: int, e: Event): Gateway
    requires Known(g) && Possible(g, clock, e)
  {
    match e.step
    case Connect(r, hasFd, ok) => Accept(g, r, e.now, hasFd, ok)
    case NewSession(r, id) => Put(g, r, InitNewSession(g.sessions[r], id, g.conf.defaultRouter), [])
    case AskReconnect(r, oldId, accepts) => OnReconnect(g, r, oldId, accepts, e.now, e.posts).g
    case HandshakeDone(r, ok) => OnHandshakeDone(g, r, ok, e.now, e.posts)
    case ProtocolClosed(r, enableReconnect) => OnClose(g, r, enableReconnect, e.now, e.posts(0))
    case ReadError(r) => OnReadError(g, r, e.now, e.posts(0))
    case CloseObject(r) => CloseSelf(g, r, e.posts(0))
    case CloseConnection(r) => Put(g, r, CloseFd(g.sessions[r]), [])
    case ConnectionGone(r) => Put(g, r, g.sessions[r].(closingFd := false), [])
    case CloseId(id, allowReconnect) => Close(g, id, allowReconnect, e.now, e.posts(0)).g
    case Route(id, router) => SetSessionRouter(g, id, router).g
    case TickAll(idlePosts) => Tick(g, e.now, e.posts, idlePosts)
    case ResetAll(actives, cached, allPosts) => Reset(g, actives, cached, allPosts)
  }

  lemma StepKeepsInv(g: Gateway, clock: int, e: Event)
    requires Inv(g) && Known(g) && Possible(g, clock, e)
    ensures Inv(Apply(g, clock, e)) && Known(Apply(g, clock, e))
  {
    hide Inv, Accept, Close, Reconnect, ActiveSession, Tick, Reset, CloseWithManager;
    StepKeepsInvOnly(g, clock, e);
    InvMaps(Apply(g, clock, e));
  }

  lemma StepKeepsInvOnly(g: Gateway, clock: int, e: Event)
    requires Inv(g) && Known(g) && Possible(g, clock, e)
    ensures Inv(Apply(g, clock, e))
  {
    hide Inv, Accept, Close, Reconnect, ActiveSession, Tick, Reset, CloseWithManager;
    match e.step
    case Connect(r, hasFd, ok) => AcceptKeepsInv(g, r, e.now, hasFd, ok);
    case NewSession(r, id) => InitKeepsInv(g, r, id, g.conf.defaultRouter);
    case AskReconnect(r, oldId, accepts) =>
      if !g.sessions[r].inited { ReconnectKeepsInv(g, r, oldId, accepts, e.now, e.posts); }
    case HandshakeDone(r, ok) =>
      InvSession(g, r);
      ShakenKeepsInv(g, r);
      if ok { ActiveSessionKeepsInv(Put(g, r, g.sessions[r].(shook := true), []), r, e.now, e.posts); }
    case ProtocolClosed(r, enableReconnect) =>
      CloseSessionKeepsInv(g, r, g.sessions[r].hasOwner, e.posts(0));
      CloseKeepsInv(g, g.sessions[r].id, enableReconnect, e.now, e.posts(0));
      CloseFails(g, g.sessions[r].id, enableReconnect, e.now, e.posts(0));
    case ReadError(r) => CloseKeepsInv(g, g.sessions[r].id, true, e.now, e.posts(0));
    case CloseObject(r) => CloseSessionKeepsInv(g, r, g.sessions[r].hasOwner, e.posts(0));
    case CloseConnection(r) =>
      InvSession(g, r);
      PutKeepsInv(g, r, CloseFd(g.sessions[r]), []);
    case ConnectionGone(r) =>
      InvSession(g, r);
      PutKeepsInv(g, r, g.sessions[r].(closingFd := false), []);
    case CloseId(id, allowReconnect) => CloseKeepsInv(g, id, allowReconnect, e.now, e.posts(0));
    case Route(id, router) =>
      if id in g.active {
        InvSession(g, g.active[id]);
        PutKeepsInv(g, g.active[id], g.sessions[g.active[id]].(router := router), []);
      }
    case TickAll(idlePosts) => TickKeepsInv(g, e.now, e.posts, idlePosts);
    case ResetAll(actives, cached, allPosts) => ResetKeepsInv(g, actives, cached, allPosts);
  }

  /** Steps that change one session and nothing else. */
  predicate TouchesOne(step: Step) {
    step.NewSession? || step.CloseObject? || step.CloseConnection? || step.ConnectionGone? || step.Route?
  }

  lemma TouchingIsTimely(g: Gateway, clock: int, e: Event)
    requires Known(g) && Possible(g, clock, e) && Timely(g, g.conf, e.now) && TouchesOne(e.step)
    ensures Timely(Apply(g, clock, e), g.conf, e.now)
  {
    hide Within, CloseWithManager, CloseFd, InitNewSession;
  }

  lemma StepIsTimely(g: Gateway, clock: int, e: Event)
    requires Known(g) && Possible(g, clock, e) && Timely(g, g.conf, clock)
    ensures Timely(Apply(g, clock, e), g.conf, e.now)
  {
    hide Within, Accept, Close, Reconnect, ActiveSession, Tick, Reset, CloseWithManager;
    TimelyLater(g, clock, e.now);
    if TouchesOne(e.step) {
      TouchingIsTimely(g, clock, e);
    } else {
      hide Timely;
      match e.step
      case Connect(r, hasFd, ok) => AcceptIsTimely(g, r, e.now, hasFd, ok);
      case AskReconnect(r, oldId, accepts) => ReconnectIsTimely(g, r, oldId, accepts, e.now, e.posts);
      case HandshakeDone(r, ok) =>
        ShakingIsTimely(g, r, e.now);
        ActiveSessionIsTimely(Put(g, r, g.sessions[r].(shook := true), []), r, e.now, e.posts);
      case ProtocolClosed(r, enableReconnect) => OnCloseIsTimely(g, r, enableReconnect, e.now, e.posts(0));
      case ReadError(r) => CloseIsTimely(g, g.sessions[r].id, true, e.now, e.posts(0));
      case CloseId(id, allowReconnect) => CloseIsTimely(g, id, allowReconnect, e.now, e.posts(0));
      case TickAll(idlePosts) => TickIsTimely(g, e.now, e.posts, idlePosts);
      case ResetAll(actives, cached, allPosts) => ResetIsTimely(g, e.now, actives, cached, allPosts);
    }
  }

  lemma ShakingIsTimely(g: Gateway, r: Ref, now: int)
    requires r in g.sessions && Timely(g, g.conf, now)
    ensures var g' := Put(g, r, g.sessions[r].(shook := true), []); Timely(g', g.conf, now) && g'.conf == g.conf
  {}

  lemma OnCloseIsTimely(g: Gateway, r: Ref, enableReconnect: bool, now: int, post: int)
    requires Known(g) && r in g.sessions && Timely(g, g.conf, now)
    ensures Timely(OnClose(g, r, enableReconnect, now, post), g.conf, now)
  {
    hide Within, Close, CloseWithManager;
    CloseIsTimely(g, g.sessions[r].id, enableReconnect, now, post);
    CloseFails(g, g.sessions[r].id, enableReconnect, now, post);
  }

  function Initial(conf: Conf): Gateway { Gateway(conf, map[], map[], [], [], 0, map[], []) }

  /** A run: every event is possible in the state it meets. */
  ghost predicate IsRun(g: Gateway, clock: int, events: seq<Event>)
    requires Inv(g) && Known(g)
    decreases |events|
  {
    events == [] ||
    (Possible(g, clock, events[0]) &&
      (StepKeepsInv(g, clock, events[0]);
       IsRun(Apply(g, clock, events[0]), events[0].now, events[1..])))
  }

  ghost function Run(g: Gateway, clock: int, events: seq<Event>): Gateway
    requires Inv(g) && Known(g) && IsRun(g, clock, events)
    decreases |events|
  {
    if events == [] then g
    else
      StepKeepsInv(g, clock, events[0]);
      Run(Apply(g, clock, events[0]), events[0].now, events[1..])
  }

  function ClockAfter(clock: int, events: seq<Event>): int {
    if events == [] then clock else events[|events| - 1].now
  }

  lemma {:induction false} RunKeepsInv(g: Gateway, clock: int, events: seq<Event>)
    requires Inv(g) && Known(g) && IsRun(g, clock, events) && Timely(g, g.conf, clock)
    ensures Inv(Run(g, clock, events)) && Timely(Run(g, clock, events), g.conf, ClockAfter(clock, events))
    decreases |events|
  {
    hide Inv, Timely, Apply;
    if events != [] {
      StepKeepsInv(g, clock, events[0]);
      StepIsTimely(g, clock, events[0]);
      StepConf(g, clock, events[0]);
      RunKeepsInv(Apply(g, clock, events[0]), events[0].now, events[1..]);
      assert ClockAfter(clock, events) == ClockAfter(events[0].now, events[1..]);
    }
  }

  lemma InitialIsOk(conf: Conf, clock: int)
    ensures Inv(Initial(conf)) && Known(Initial(conf))
    ensures clock >= 0 ==> Timely(Initial(conf), conf, clock)
  {
    assert forall id :: Notices([], id) == [];
  }

  /** A state the gateway can be in. */
  ghost predicate Reachable(g: Gateway, conf: Conf, start: nat, events: seq<Event>) {
    InitialIsOk(conf, start);
    IsRun(Initial(conf), start, events) && g == Run(Initial(conf), start, events)
  }

  lemma ReachableIsOk(g: Gateway, conf: Conf, start: nat, events: seq<Event>)
    requires Reachable(g, conf, start, events)
    ensures Inv(g) && Timely(g, conf, ClockAfter(start, events))
  {
    InitialIsOk(conf, start);
    RunKeepsInv(Initial(conf), start, events);
  }

  // ---------------------------------------------------------------- the results

  /** For each session id the backend is told "added" and "removed" strictly in turn, "added" first. It believes in the
      session exactly while one session object holds the registration, and there is never more than one. */
  lemma RegistrationIsALinearToken(g: Gateway, conf: Conf, start: nat, events: seq<Event>, id: Id)
    requires Reachable(g, conf, start, events)
    ensures Alternates(Notices(g.log, id))
    ensures Believed(g.log, id) <==> exists r :: r in g.sessions && Holds(g.sessions[r], id)
    ensures forall r1, r2 ::
              (r1 in g.sessions && r2 in g.sessions && Holds(g.sessions[r1], id) && Holds(g.sessions[r2], id))
              ==> r1 == r2
  {
    ReachableIsOk(g, conf, start, events);
    assert TokenAt(g, id);
  }

  /** Active and cached ids are disjoint; each entry is stored under its own id and is the one session with that id not
      replaced by a reconnect; a cached session has no connection, waits, and has a timer. */
  lemma MapsStayWellFormed(g: Gateway, conf: Conf, start: nat, events: seq<Event>)
    requires Reachable(g, conf, start, events)
    ensures Known(g) && g.active.Keys !! g.cache.Keys
    ensures forall id :: id in g.active || id in g.cache ==>
              var r := if id in g.active then g.active[id] else g.cache[id];
              && g.sessions[r].id == id && !g.sessions[r].reconnected
              && forall q :: q in g.sessions && g.sessions[q].id == id && q != r ==> g.sessions[q].reconnected
    ensures forall id :: id in g.cache ==>
              var s := g.sessions[g.cache[id]];
              !s.hasFd && s.waitReconnect && HasTimer(g.timeouts, g.cache[id])
  {
    ReachableIsOk(g, conf, start, events);
    forall id | id in g.active || id in g.cache
      ensures var r := if id in g.active then g.active[id] else g.cache[id];
              && g.sessions[r].id == id && !g.sessions[r].reconnected
              && forall q :: q in g.sessions && g.sessions[q].id == id && q != r ==> g.sessions[q].reconnected
    {
      assert id in g.active ==> ActiveOk(g, id);
      assert id in g.cache ==> CacheOk(g, id);
      assert SessOk(g.sessions[if id in g.active then g.active[id] else g.cache[id]]);
    }
    assert forall id :: id in g.cache ==> CacheOk(g, id);
  }

  /** After a tick at `now`, also one that returns early, every timer left is later than `now`: no cached session and no
      session without a handshake has outlived its deadline. */
  lemma NoSessionOutlivesItsDeadline(g: Gateway, conf: Conf, start: nat, events: seq<Event>)
    requires Reachable(g, conf, start, events)
    requires events != [] && events[|events| - 1].step.TickAll?
    ensures Known(g) && Sorted(g.timeouts) && Sorted(g.firstIdle)
    ensures var now := events[|events| - 1].now;
            && (forall t :: t in g.timeouts ==> now < t.timeout <= now + conf.reconnectTimeout)
            && (forall t :: t in g.firstIdle ==> now < t.timeout <= now + IdleWait(conf))
            && (forall id :: id in g.cache ==> exists t :: t in g.timeouts && t.s == g.cache[id] && t.timeout > now)
            && (forall r :: r in g.sessions && !g.sessions[r].registered && !g.sessions[r].closing ==>
                  exists t :: t in g.firstIdle && t.s == r && t.timeout > now)
  {
    hide Inv;
    ReachableIsOk(g, conf, start, events);
    var now := events[|events| - 1].now;
    InitialIsOk(conf, start);
    RunEndsWithTick(Initial(conf), start, events);
    TimersOfAll(g, now);
  }

  lemma TimersOfAll(g: Gateway, now: int)
    requires Inv(g)
    requires forall t :: t in g.timeouts || t in g.firstIdle ==> t.timeout > now
    ensures Known(g)
    ensures forall id :: id in g.cache ==> exists t :: t in g.timeouts && t.s == g.cache[id] && t.timeout > now
    ensures forall r :: r in g.sessions && !g.sessions[r].registered && !g.sessions[r].closing ==>
              exists t :: t in g.firstIdle && t.s == r && t.timeout > now
  {
    hide Core;
    forall id | id in g.cache ensures exists t :: t in g.timeouts && t.s == g.cache[id] && t.timeout > now {
      assert CacheOk(g, id);
      var i :| 0 <= i < |g.timeouts| && g.timeouts[i].s == g.cache[id];
      assert g.timeouts[i] in g.timeouts;
    }
    forall r | r in g.sessions && !g.sessions[r].registered && !g.sessions[r].closing
      ensures exists t :: t in g.firstIdle && t.s == r && t.timeout > now
    {
      assert Attended(g, r);
      var i :| 0 <= i < |g.firstIdle| && g.firstIdle[i].s == r;
      assert g.firstIdle[i] in g.firstIdle;
    }
  }

  lemma {:induction false} RunEndsWithTick(g: Gateway, clock: int, events: seq<Event>)
    requires Inv(g) && Known(g) && IsRun(g, clock, events) && Timely(g, g.conf, clock)
    requires events != [] && events[|events| - 1].step.TickAll?
    ensures Run(g, clock, events).lastTick == events[|events| - 1].now && Run(g, clock, events).conf == g.conf
    decreases |events|
  {
    hide Inv, Timely, Tick;
    StepKeepsInv(g, clock, events[0]);
    StepIsTimely(g, clock, events[0]);
    StepConf(g, clock, events[0]);
    if |events| == 1 {
      TimelyLater(g, clock, events[0].now);
      TickIsTimely(g, events[0].now, events[0].posts, events[0].step.idlePosts);
    } else {
      RunEndsWithTick(Apply(g, clock, events[0]), events[0].now, events[1..]);
    }
  }

  lemma StepConf(g: Gateway, clock: int, e: Event)
    requires Known(g) && Possible(g, clock, e) && Timely(g, g.conf, clock)
    ensures Apply(g, clock, e).conf == g.conf
  {
    hide Apply, Within;
    StepIsTimely(g, clock, e);
  }
}
