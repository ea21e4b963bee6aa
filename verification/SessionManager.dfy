/** The objects behind module Sessions: `session` and `session_manager`. Every method is proved to perform the step of
    the same name in module Sessions. */
module SessionManager {
  import S = Sessions

  type Id = S.Id
  type Ref = S.Ref

  class Session {
    ghost const ref: Ref
    ghost const home: Manager
    var id: Id
    var router: nat
    var owner: Manager?
    var inited: bool
    var hasFd: bool
    var registered: bool
    var reconnected: bool
    var waitReconnect: bool
    var closing: bool
    var closingFd: bool
    ghost var shook: bool
    ghost var activated: bool
    ghost var removeFailed: bool

    ghost function View(): S.Sess
      reads this
    {
      S.Sess(id, router, owner != null, inited, hasFd, registered, reconnected, waitReconnect, closing, closingFd,
             shook, activated, removeFailed)
    }

    ghost predicate Valid()
      reads this
    {
      owner == null || owner == home
    }

    constructor (ghost ref: Ref, owner: Manager, router: nat, hasFd: bool)
      ensures this.ref == ref && home == owner && Valid()
      ensures View() == S.Created(router, hasFd)
    {
      this.ref, home, this.owner, this.router, this.hasFd := ref, owner, owner, router, hasFd;
      id, inited, registered, reconnected := 0, false, false, false;
      waitReconnect, closing, closingFd := false, false, false;
      shook, activated, removeFailed := false, false, false;
    }

    method InitNewSession(newId: Id, newRouter: nat)
      modifies this
      ensures View() == S.InitNewSession(old(View()), newId, newRouter) && owner == old(owner)
    {
      id := newId;
      router := newRouter;
      inited := true;
    }

    method InitReconnect(sess: Session)
      requires home.Valid() && home.Has(this) && home.Has(sess)
      modifies this, sess
      ensures home.Valid() && ref in old(home.View()).sessions && sess.ref in old(home.View()).sessions
      ensures home.View() == S.HandedOver(old(home.View()), ref, sess.ref)
    {
      hide Manager.View, Manager.Valid, S.Successor, S.Predecessor;
      CopyIdentity(sess);
      sess.MarkReconnected();
    }

    method CopyIdentity(sess: Session)
      requires home.Valid() && home.Has(this) && home.Has(sess)
      modifies this
      ensures home.Valid()
      ensures var g := old(home.View());
              && ref in g.sessions && sess.ref in g.sessions
              && home.View() == S.Put(g, ref, S.Successor(g.sessions[ref], g.sessions[sess.ref]), [])
    {
      id := sess.id;
      router := sess.router;
      inited := true;
      registered := sess.registered;
      home.OnlyOneChanged(this);
      assert home.log[|home.log|..] == [];
    }

    method MarkReconnected()
      requires home.Valid() && home.Has(this)
      modifies this
      ensures home.Valid()
      ensures var g := old(home.View());
              ref in g.sessions && home.View() == S.Put(g, ref, S.Predecessor(g.sessions[ref]), [])
    {
      reconnected := true;
      waitReconnect := false;
      home.OnlyOneChanged(this);
      assert home.log[|home.log|..] == [];
    }

    method SendToServer(ghost notice: S.Notice, mgr: Manager?, post: int) returns (ret: int)
      requires Valid() && (mgr == null || mgr == home)
      modifies home`log
      ensures ret == S.SendToServer(View(), mgr != null, post)
      ensures home.log == if ret == 0 then old(home.log) + [notice] else old(home.log)
    {
      if router == 0 {
        return S.INVALID_ROUTER;
      }
      var target := mgr;
      if target == null {
        target := owner;
      }
      if target == null {
        return S.LOST_MANAGER;
      }
      ret := target.PostData(notice, post);
    }

    method SendNewSession(post: int) returns (ret: int)
      requires Valid()
      modifies this, home`log
      ensures Valid() && owner == old(owner)
      ensures var o := S.SendNewSession(old(View()), post);
              View() == o.s && home.log == old(home.log) + o.notices && ret == o.code
    {
      if registered {
        return 0;
      }
      ret := SendToServer(S.Notice(id, S.Added), owner, post);
      if ret == 0 {
        registered := true;
      }
    }

    method SendRemoveSession(mgr: Manager?, post: int) returns (ret: int)
      requires Valid() && (mgr == null || mgr == home)
      modifies this, home`log
      ensures Valid() && owner == old(owner)
      ensures var o := S.SendRemoveSession(old(View()), mgr != null, post);
              View() == o.s && home.log == old(home.log) + o.notices && ret == o.code
    {
      if !registered {
        return 0;
      }
      ret := SendToServer(S.Notice(id, S.Removed), mgr, post);
      if ret == 0 {
        registered := false;
      } else {
        removeFailed := true;
      }
    }

    method CloseFd()
      requires Valid()
      modifies this
      ensures Valid() && View() == S.CloseFd(old(View()))
    {
      if closingFd {
        return;
      }
      if hasFd {
        hasFd := false;
        owner := null;
        closingFd := true;
      }
    }

    method CloseWithManager(mgr: Manager?, post: int)
      requires Valid() && (mgr == null || mgr == home)
      modifies this, home`log
      ensures Valid()
      ensures var o := S.CloseWithManager(old(View()), mgr != null, post);
              View() == o.s && home.log == old(home.log) + o.notices
    {
      hide S.SendRemoveSession, S.CloseFd;
      if registered && !reconnected && !waitReconnect {
        var _ := SendRemoveSession(mgr, post);
      }
      StartClosing();
    }

    method StartClosing()
      requires Valid()
      modifies this
      ensures Valid() && View() == S.StartClosing(old(View()))
    {
      if closing {
        return;
      }
      closing := true;
      CloseFd();
    }

    method Close(post: int)
      requires Valid()
      modifies this, home`log
      ensures Valid()
      ensures var o := S.CloseWithManager(old(View()), old(View()).hasOwner, post);
              View() == o.s && home.log == old(home.log) + o.notices
    {
      CloseWithManager(owner, post);
    }
  }

  datatype SessionTimeout = SessionTimeout(timeout: int, s: Session)

  class Manager {
    const conf: S.Conf
    var active: map<Id, Session>
    var cache: map<Id, Session>
    var firstIdle: seq<SessionTimeout>
    var timeouts: seq<SessionTimeout>
    var lastTick: int
    ghost var all: map<Ref, Session>      // every session created for this manager
    ghost var log: seq<S.Notice>

    ghost predicate Has(s: Session)
      reads this`all
    {
      s.ref in all && all[s.ref] == s && s.home == this
    }

    ghost predicate Valid()
      reads this, all.Values
    {
      && (forall r :: r in all ==> all[r].ref == r && all[r].home == this && all[r].Valid())
      && (forall id :: id in active ==> Has(active[id]))
      && (forall id :: id in cache ==> Has(cache[id]))
      && (forall t :: t in firstIdle ==> Has(t.s))
      && (forall t :: t in timeouts ==> Has(t.s))
    }

    ghost function Sessions(): map<Ref, S.Sess>
      reads this, all.Values
    {
      map r | r in all :: all[r].View()
    }

    ghost function View(): (g: S.Gateway)
      reads this, all.Values
    {
      S.Gateway(conf, RefsOf(active), RefsOf(cache), Timers(firstIdle), Timers(timeouts), lastTick, Sessions(), log)
    }

    lemma ValidIsKnown()
      requires Valid()
      ensures S.Known(View()) && View().conf == conf && View().sessions == Sessions()
      ensures RefsOf(active) == View().active && forall id :: id in active ==> Has(active[id])
      ensures RefsOf(cache) == View().cache && forall id :: id in cache ==> Has(cache[id])
      ensures Timers(firstIdle) == View().firstIdle && forall t :: t in firstIdle ==> Has(t.s)
      ensures Timers(timeouts) == View().timeouts && forall t :: t in timeouts ==> Has(t.s)
    {
      forall t | t in View().firstIdle ensures t.s in View().sessions {
        var i :| 0 <= i < |firstIdle| && View().firstIdle[i] == t;
        assert Has(firstIdle[i].s);
      }
      forall t | t in View().timeouts ensures t.s in View().sessions {
        var i :| 0 <= i < |timeouts| && View().timeouts[i] == t;
        assert Has(timeouts[i].s);
      }
    }

    constructor (conf: S.Conf)
      ensures Valid() && View() == S.Gateway(conf, map[], map[], [], [], 0, map[], [])
    {
      this.conf := conf;
      active, cache, firstIdle, timeouts, lastTick := map[], map[], [], [], 0;
      all, log := map[], [];
    }

    method PostData(ghost notice: S.Notice, post: int) returns (ret: int)
      modifies this`log
      ensures ret == post && log == if ret == 0 then old(log) + [notice] else old(log)
    {
      ret := post;
      if ret == 0 {
        log := log + [notice];
      }
    }

    /** Changing one session, and sending notices, changes only its entry and the log in the manager's view. */
    twostate lemma OnlyOneChanged(s: Session)
      requires old(Valid()) && old(Has(s)) && s.Valid()
      requires unchanged(this`active, this`cache, this`firstIdle, this`timeouts, this`lastTick, this`all)
      requires old(log) <= log
      requires forall k :: k in all.Values && k != s ==> unchanged(k)
      ensures Valid() && View() == S.Put(old(View()), s.ref, s.View(), log[|old(log)|..])
    {
      forall r | r in all && r != s.ref ensures all[r].View() == old(all[r].View()) && all[r].Valid() {
        assert all[r] in all.Values;
      }
      assert Sessions() == old(Sessions())[s.ref := s.View()];
    }

    method CloseSession(s: Session, mgr: Manager?, post: int)
      requires Valid() && Has(s) && (mgr == null || mgr == this)
      modifies s, this`log
      ensures Valid() && View() == S.CloseSession(old(View()), s.ref, mgr != null, post)
    {
      hide S.CloseWithManager;
      s.CloseWithManager(mgr, post);
      OnlyOneChanged(s);
    }

    method CloseSelf(s: Session, post: int)
      requires Valid() && Has(s)
      modifies s, this`log
      ensures Valid() && View() == S.CloseSelf(old(View()), s.ref, post)
    {
      hide S.CloseWithManager;
      s.Close(post);
      OnlyOneChanged(s);
    }

    /** The accept handler; `hasFd` and `ok` say how far accepting the connection got. */
    method Accept(ghost r: Ref, now: int, hasFd: bool, ok: bool) returns (sess: Session)
      requires Valid() && r !in all
      modifies this
      ensures Valid() && fresh(sess) && all == old(all)[r := sess] && sess.ref == r
      ensures View() == S.Accept(old(View()), r, now, hasFd, ok)
    {
      hide View, Valid, S.CloseWithManager;
      ValidIsKnown();
      sess := NewSession(r, hasFd);
      if !ok {
        CloseSelf(sess, 0);
        return;
      }
      var timeout := now + if conf.firstIdleTimeout > 0 then conf.firstIdleTimeout else 1;
      PushIdle(SessionTimeout(timeout, sess));
    }

    method PushIdle(t: SessionTimeout)
      requires Valid() && Has(t.s)
      modifies this`firstIdle
      ensures Valid()
      ensures View() == old(View()).(firstIdle := old(View()).firstIdle + [S.Timer(t.timeout, t.s.ref)])
    {
      TimersPush(firstIdle, t);
      firstIdle := firstIdle + [t];
    }

    method NewSession(ghost r: Ref, hasFd: bool) returns (sess: Session)
      requires Valid() && r !in all
      modifies this`all
      ensures Valid() && Has(sess) && fresh(sess) && all == old(all)[r := sess] && sess.ref == r
      ensures View() == S.Put(old(View()), r, S.Created(conf.defaultRouter, hasFd), [])
    {
      hide S.Created;
      sess := new Session(r, this, conf.defaultRouter, hasFd);
      Register(sess);
    }

    method Register(sess: Session)
      requires Valid() && sess.ref !in all && sess.home == this && sess.Valid()
      modifies this`all
      ensures Valid() && Has(sess) && all == old(all)[sess.ref := sess]
      ensures View() == S.Put(old(View()), sess.ref, sess.View(), [])
    {
      all := all[sess.ref := sess];
      assert Valid();
      hide Valid;
      assert Sessions() == old(Sessions())[sess.ref := sess.View()];
      assert log == log + [];
    }

    lemma Entry(s: Session)
      requires Valid() && Has(s)
      ensures s.ref in View().sessions && View().sessions[s.ref] == s.View()
    {}

    method SetWaitReconnect(s: Session, value: bool)
      requires Valid() && Has(s)
      modifies s
      ensures Valid() && s.id == old(s.id)
      ensures var g := old(View());
              s.ref in g.sessions && View() == S.Put(g, s.ref, g.sessions[s.ref].(waitReconnect := value), [])
    {
      s.waitReconnect := value;
      OnlyOneChanged(s);
      assert log[|log|..] == [];
    }

    method CloseFd(s: Session)
      requires Valid() && Has(s)
      modifies s
      ensures Valid()
      ensures var g := old(View());
              s.ref in g.sessions && View() == S.Put(g, s.ref, S.CloseFd(g.sessions[s.ref]), [])
    {
      hide S.CloseFd;
      s.CloseFd();
      OnlyOneChanged(s);
      assert log[|log|..] == [];
    }

    method PushTimeout(t: SessionTimeout)
      requires Valid() && Has(t.s)
      modifies this`timeouts
      ensures Valid()
      ensures View() == old(View()).(timeouts := old(View()).timeouts + [S.Timer(t.timeout, t.s.ref)])
    {
      TimersPush(timeouts, t);
      timeouts := timeouts + [t];
    }

    method SetActive(id: Id, s: Session)
      requires Valid() && Has(s)
      modifies this`active
      ensures Valid() && View() == old(View()).(active := old(View()).active[id := s.ref])
    {
      RefsOfUpdate(active, id, s);
      active := active[id := s];
    }

    method SetCached(id: Id, s: Session)
      requires Valid() && Has(s)
      modifies this`cache
      ensures Valid() && View() == old(View()).(cache := old(View()).cache[id := s.ref])
    {
      RefsOfUpdate(cache, id, s);
      cache := cache[id := s];
    }

    method EraseActive(id: Id)
      requires Valid() && id in active
      modifies this`active
      ensures Valid() && View() == old(View()).(active := old(View()).active - {id})
    {
      RefsOfLess(active, id);
      active := active - {id};
    }

    method EraseCached(id: Id)
      requires Valid()
      modifies this`cache
      ensures Valid() && View() == old(View()).(cache := old(View()).cache - {id})
    {
      RefsOfLess(cache, id);
      cache := cache - {id};
    }

    /** The active session loses its connection and waits in the cache. */
    method Park(s: Session, now: int)
      requires Valid() && Has(s)
      modifies this`timeouts, this`cache, s
      ensures Valid()
      ensures var g := old(View());
              && s.ref in g.sessions
              && View() == S.Put(g, s.ref, S.CloseFd(g.sessions[s.ref].(waitReconnect := true)), []).(
                   cache := g.cache[g.sessions[s.ref].id := s.ref],
                   timeouts := g.timeouts + [S.Timer(now + conf.reconnectTimeout, s.ref)])
    {
      hide View, Valid, S.CloseFd;
      Entry(s);
      PushTimeout(SessionTimeout(now + conf.reconnectTimeout, s));
      SetCached(s.id, s);
      SetWaitReconnect(s, true);
      CloseFd(s);
      PutTwice(old(View()).sessions, s.ref, old(View()).sessions[s.ref].(waitReconnect := true),
               S.CloseFd(old(View()).sessions[s.ref].(waitReconnect := true)), log);
    }

    lemma PutTwice(m: map<Ref, S.Sess>, r: Ref, s1: S.Sess, s2: S.Sess, notices: seq<S.Notice>)
      ensures m[r := s1][r := s2] == m[r := s2] && notices + [] == notices
    {}

    method Close(id: Id, allowReconnect: bool, now: int, post: int) returns (ret: int)
      requires Valid()
      modifies this, all.Values
      ensures Valid() && all == old(all)
      ensures S.Known(old(View())) && S.Reply(View(), ret) == S.Close(old(View()), id, allowReconnect, now, post)
    {
      hide View, Valid, S.CloseWithManager, S.CloseFd;
      ValidIsKnown();
      if id !in active {
        if allowReconnect || id !in cache {
          return S.SESSION_NOT_FOUND;
        }
        var s := cache[id];
        CloseSelf(s, post);
        SetWaitReconnect(s, false);
        EraseCached(id);
        return 0;
      }
      var s := active[id];
      if conf.reconnectTimeout > 0 && allowReconnect {
        Park(s, now);
      } else {
        CloseSelf(s, post);
      }
      EraseActive(id);
      return 0;
    }

    method SetSessionRouter(id: Id, router: nat) returns (ret: int)
      requires Valid()
      modifies all.Values
      ensures Valid()
      ensures S.Known(old(View())) && S.Reply(View(), ret) == S.SetSessionRouter(old(View()), id, router)
    {
      ValidIsKnown();
      if id !in active {
        return S.SESSION_NOT_FOUND;
      }
      active[id].router := router;
      OnlyOneChanged(active[id]);
      assert log[|log|..] == [];
      return 0;
    }

    method SendNew(sess: Session, post: int) returns (ret: int)
      requires Valid() && Has(sess)
      modifies sess, this`log
      ensures Valid() && sess.id == old(sess.id) && sess.ref in old(View()).sessions
      ensures var o := S.SendNewSession(old(View()).sessions[sess.ref], post);
              ret == o.code && View() == S.Put(old(View()), sess.ref, o.s, o.notices)
    {
      ret := sess.SendNewSession(post);
      OnlyOneChanged(sess);
    }

    method MarkActivated(sess: Session)
      requires Valid() && Has(sess)
      modifies sess
      ensures Valid()
      ensures var g := old(View());
              sess.ref in g.sessions && View() == S.Put(g, sess.ref, g.sessions[sess.ref].(activated := true), [])
    {
      sess.activated := true;
      OnlyOneChanged(sess);
      assert log[|log|..] == [];
    }

    method MarkShook(sess: Session)
      requires Valid() && Has(sess)
      modifies sess
      ensures Valid()
      ensures var g := old(View());
              sess.ref in g.sessions && View() == S.Put(g, sess.ref, g.sessions[sess.ref].(shook := true), [])
    {
      sess.shook := true;
      OnlyOneChanged(sess);
      assert log[|log|..] == [];
    }

    method Announce(sess: Session, id: Id, post: int) returns (ret: int)
      requires Valid() && Has(sess)
      modifies sess, this`log, this`active
      ensures Valid() && sess.ref in old(View()).sessions
      ensures S.Reply(View(), ret) == S.Announce(old(View()), sess.ref, id, post)
    {
      hide View, Valid, S.SendNewSession;
      Entry(sess);
      ghost var o := S.SendNewSession(old(View()).sessions[sess.ref], post);
      ret := SendNew(sess, post);
      if ret >= 0 {
        MarkActivated(sess);
        SetActive(id, sess);
        PutTwice(old(View()).sessions, sess.ref, o.s, o.s.(activated := true), old(View()).log + o.notices);
        ret := 0;
      }
    }

    method ActiveSession(sess: Session, now: int, posts: S.Posts) returns (ret: int)
      requires Valid() && Has(sess)
      modifies this, all.Values
      ensures Valid() && all == old(all)
      ensures S.Known(old(View())) && sess.ref in old(View()).sessions
      ensures S.Reply(View(), ret) == S.ActiveSession(old(View()), sess.ref, now, posts)
    {
      hide View, Valid, S.Close, S.Announce;
      ValidIsKnown();
      Entry(sess);
      var id := sess.id;
      if id in active {
        var _ := Close(id, false, now, posts(0));
      }
      ret := Announce(sess, id, posts(1));
    }

    method Reconnect(newSess: Session, oldId: Id, accepts: bool, now: int, posts: S.Posts) returns (ret: int)
      requires Valid() && Has(newSess)
      modifies this, all.Values
      ensures Valid() && all == old(all)
      ensures S.Known(old(View())) && newSess.ref in old(View()).sessions
      ensures S.Reply(View(), ret) == S.Reconnect(old(View()), newSess.ref, oldId, accepts, now, posts)
    {
      hide View, Valid, S.Close, S.Resume;
      ValidIsKnown();
      Entry(newSess);
      var hasReconnectChecked := false;
      if oldId !in cache && oldId in active {
        hasReconnectChecked := true;
        if accepts {
          var _ := Close(oldId, true, now, posts(0));
        }
      }
      ValidIsKnown();
      if oldId !in cache {
        return S.SESSION_NOT_FOUND;
      }
      Entry(newSess);
      ret := Resume(newSess, oldId, accepts || hasReconnectChecked, posts(1));
    }

    /** The checks of `reconnect` on the cached session, and the hand-over. */
    method Resume(newSess: Session, oldId: Id, accepted: bool, post: int) returns (ret: int)
      requires Valid() && Has(newSess) && oldId in cache
      modifies this, all.Values
      ensures Valid() && all == old(all)
      ensures S.Known(old(View())) && newSess.ref in old(View()).sessions && oldId in old(View()).cache
      ensures S.Reply(View(), ret) == S.Resume(old(View()), newSess.ref, oldId, accepted, post)
    {
      hide View, Valid, S.HandedOver, S.CloseWithManager;
      ValidIsKnown();
      Entry(newSess);
      var prior := cache[oldId];
      Entry(prior);
      if prior.hasFd {
        return S.ALREADY_HAS_FD;
      }
      if prior.reconnected {
        return S.SESSION_NOT_FOUND;
      }
      if !accepted {
        return S.REFUSE_RECONNECT;
      }
      newSess.InitReconnect(prior);
      CloseSelf(prior, post);
      EraseCached(oldId);
      ret := 0;
    }

    method PopTimeout(post: int)
      requires Valid() && timeouts != []
      modifies this, all.Values
      ensures Valid() && all == old(all) && timeouts == old(timeouts[1..])
      ensures S.Known(old(View())) && old(View()).timeouts != [] && View() == S.PopTimeout(old(View()), post)
    {
      hide View, Valid, S.CloseWithManager;
      ValidIsKnown();
      Fronts();
      var s := timeouts[0].s;
      Entry(s);
      EraseCached(s.id);
      SetWaitReconnect(s, false);
      CloseSession(s, this, post);
      PopTimeoutFront();
    }

    method PopTimeoutFront()
      requires Valid() && timeouts != []
      modifies this`timeouts
      ensures Valid() && timeouts == old(timeouts[1..])
      ensures old(View()).timeouts != [] && View() == old(View()).(timeouts := old(View()).timeouts[1..])
    {
      timeouts := timeouts[1..];
      assert Timers(timeouts) == Timers(old(timeouts))[1..];
    }

    method PopIdle(post: int)
      requires Valid() && firstIdle != []
      modifies this, all.Values
      ensures Valid() && all == old(all) && firstIdle == old(firstIdle[1..])
      ensures S.Known(old(View())) && old(View()).firstIdle != [] && View() == S.PopIdle(old(View()), post)
    {
      hide View, Valid, S.CloseWithManager;
      ValidIsKnown();
      Fronts();
      var s := firstIdle[0].s;
      Entry(s);
      if !s.registered && !s.closing {
        CloseSelf(s, post);
      }
      PopIdleFront();
    }

    method PopIdleFront()
      requires Valid() && firstIdle != []
      modifies this`firstIdle
      ensures Valid() && firstIdle == old(firstIdle[1..])
      ensures old(View()).firstIdle != [] && View() == old(View()).(firstIdle := old(View()).firstIdle[1..])
    {
      firstIdle := firstIdle[1..];
      assert Timers(firstIdle) == Timers(old(firstIdle))[1..];
    }

    method SetLastTick(now: int)
      requires Valid()
      modifies this`lastTick
      ensures Valid() && View() == old(View()).(lastTick := now)
    {
      lastTick := now;
    }

    method Tick(now: int, posts: S.Posts, idlePosts: S.Posts)
      requires Valid()
      modifies this, all.Values
      ensures Valid() && all == old(all)
      ensures S.Known(old(View())) && View() == S.Tick(old(View()), now, posts, idlePosts)
    {
      hide View, Valid, S.PopTimeouts, S.PopIdles;
      ValidIsKnown();
      Fronts();
      if lastTick == now {
        return;
      }
      SetLastTick(now);
      ReconnectTimeouts(now, posts);
      FirstIdleTimeouts(now, idlePosts);
    }

    method ReconnectTimeouts(now: int, posts: S.Posts)
      requires Valid()
      modifies this, all.Values
      ensures Valid() && all == old(all)
      ensures S.Known(old(View())) && View() == S.PopTimeouts(old(View()), now, posts, 0)
    {
      hide View, Valid, S.PopTimeout;
      ValidIsKnown();
      var k: nat := 0;
      while timeouts != [] && timeouts[0].timeout <= now
        invariant Valid() && all == old(all)
        invariant S.Known(View())
        invariant S.PopTimeouts(View(), now, posts, k) == S.PopTimeouts(old(View()), now, posts, 0)
        decreases |timeouts|
      {
        Fronts();
        PopTimeout(posts(k));
        ValidIsKnown();
        k := k + 1;
      }
      Fronts();
    }

    method FirstIdleTimeouts(now: int, posts: S.Posts)
      requires Valid()
      modifies this, all.Values
      ensures Valid() && all == old(all)
      ensures S.Known(old(View())) && View() == S.PopIdles(old(View()), now, posts, 0)
    {
      hide View, Valid, S.PopIdle;
      ValidIsKnown();
      var k: nat := 0;
      while firstIdle != [] && firstIdle[0].timeout <= now
        invariant Valid() && all == old(all)
        invariant S.Known(View())
        invariant S.PopIdles(View(), now, posts, k) == S.PopIdles(old(View()), now, posts, 0)
        decreases |firstIdle|
      {
        Fronts();
        PopIdle(posts(k));
        ValidIsKnown();
        k := k + 1;
      }
      Fronts();
    }

    lemma Fronts()
      requires Valid()
      ensures View().lastTick == lastTick
      ensures |View().timeouts| == |timeouts| && |View().firstIdle| == |firstIdle|
      ensures timeouts != [] ==>
                View().timeouts[0] == S.Timer(timeouts[0].timeout, timeouts[0].s.ref) && Has(timeouts[0].s)
      ensures firstIdle != [] ==>
                View().firstIdle[0] == S.Timer(firstIdle[0].timeout, firstIdle[0].s.ref) && Has(firstIdle[0].s)
    {}

    method Reset(posts: nat -> S.Posts) returns (ghost actives: seq<Ref>, ghost cached: seq<Ref>)
      requires Valid()
      modifies this, all.Values
      ensures Valid() && all == old(all)
      ensures var g := old(View());
              && S.Known(g) && S.Enumerates(actives, g.active) && S.Enumerates(cached, g.cache)
              && View() == S.Reset(g, actives, cached, posts)
    {
      hide View, Valid, S.CloseEach, S.Enumerates, S.AllKnown, S.Refs, RefsOf, Timers;
      ValidIsKnown();
      actives := CloseMap(active, posts(0));
      ClearActive();
      CloseTimers(firstIdle, posts(1));
      ClearFirstIdle();
      ValidIsKnown();
      cached := CloseMap(cache, posts(2));
      ClearCache();
      CloseTimers(timeouts, posts(3));
      ClearTimeouts();
    }

    /** One more session of a closing loop. */
    method CloseNext(ghost g: S.Gateway, ghost order: seq<Ref>, s: Session, posts: S.Posts, k: nat)
      requires Valid() && Has(s) && k == |order|
      requires S.AllKnown(g, order) && View() == S.CloseEach(g, order, posts, 0)
      modifies s, this`log
      ensures Valid() && S.AllKnown(g, order + [s.ref]) && View() == S.CloseEach(g, order + [s.ref], posts, 0)
    {
      hide View, Valid, S.CloseEach, S.CloseSelf;
      Entry(s);
      CloseEachPush(g, order, s.ref, posts, 0);
      CloseSelf(s, posts(k));
    }

    /** Closes the sessions of a map, in some order. */
    method CloseMap(m: map<Id, Session>, posts: S.Posts) returns (ghost order: seq<Ref>)
      requires Valid() && forall id :: id in m ==> Has(m[id])
      modifies all.Values, this`log
      ensures Valid()
      ensures S.Enumerates(order, RefsOf(m)) && S.AllKnown(old(View()), order)
      ensures View() == S.CloseEach(old(View()), order, posts, 0)
    {
      hide View, Valid, S.CloseEach, S.AllKnown, Visited, RefsOf;
      order := [];
      CloseEachNone(View(), posts);
      VisitNone(m);
      var rest := m;
      while rest != map[]
        invariant Valid() && Visited(order, m, rest)
        invariant S.AllKnown(old(View()), order)
        invariant View() == S.CloseEach(old(View()), order, posts, 0)
        decreases |rest|
      {
        var id :| id in rest;
        VisitNext(order, m, rest, id);
        CloseNext(old(View()), order, m[id], posts, |m| - |rest|);
        order := order + [m[id].ref];
        rest := rest - {id};
      }
      VisitAll(order, m);
    }

    method CloseTimers(ts: seq<SessionTimeout>, posts: S.Posts)
      requires Valid() && forall t :: t in ts ==> Has(t.s)
      modifies all.Values, this`log
      ensures Valid() && S.AllKnown(old(View()), S.Refs(Timers(ts)))
      ensures View() == S.CloseEach(old(View()), S.Refs(Timers(ts)), posts, 0)
    {
      hide View, Valid, S.CloseEach, S.AllKnown;
      ghost var refs := S.Refs(Timers(ts));
      CloseEachNone(View(), posts);
      assert refs[..0] == [];
      for i := 0 to |ts|
        invariant Valid()
        invariant S.AllKnown(old(View()), refs[..i])
        invariant View() == S.CloseEach(old(View()), refs[..i], posts, 0)
      {
        assert Has(ts[i].s);
        assert refs[..i + 1] == refs[..i] + [ts[i].s.ref];
        CloseNext(old(View()), refs[..i], ts[i].s, posts, i);
      }
      assert refs[..|ts|] == refs;
    }

    method ClearActive()
      requires Valid()
      modifies this`active
      ensures Valid() && View() == old(View()).(active := map[])
    {
      active := map[];
    }

    method ClearCache()
      requires Valid()
      modifies this`cache
      ensures Valid() && View() == old(View()).(cache := map[])
    {
      cache := map[];
    }

    method ClearFirstIdle()
      requires Valid()
      modifies this`firstIdle
      ensures Valid() && View() == old(View()).(firstIdle := [])
    {
      firstIdle := [];
    }

    method ClearTimeouts()
      requires Valid()
      modifies this`timeouts
      ensures Valid() && View() == old(View()).(timeouts := [])
    {
      timeouts := [];
    }
  }

  ghost function Timers(ts: seq<SessionTimeout>): (timers: seq<S.Timer>)
    ensures |timers| == |ts|
    ensures forall i :: 0 <= i < |ts| ==> timers[i] == S.Timer(ts[i].timeout, ts[i].s.ref)
  {
    seq(|ts|, i requires 0 <= i < |ts| => S.Timer(ts[i].timeout, ts[i].s.ref))
  }

  lemma RefsOfUpdate(m: map<Id, Session>, id: Id, s: Session)
    ensures RefsOf(m[id := s]) == RefsOf(m)[id := s.ref]
  {}

  lemma RefsOfLess(m: map<Id, Session>, id: Id)
    ensures RefsOf(m - {id}) == RefsOf(m) - {id}
  {}

  lemma TimersPush(ts: seq<SessionTimeout>, t: SessionTimeout)
    ensures Timers(ts + [t]) == Timers(ts) + [S.Timer(t.timeout, t.s.ref)]
  {}

  ghost function RefsOf(m: map<Id, Session>): map<Id, Ref> { map id | id in m :: m[id].ref }

  ghost predicate Visited(order: seq<Ref>, m: map<Id, Session>, rest: map<Id, Session>) {
    && |order| == |m| - |rest|
    && (forall id :: id in rest ==> id in m && rest[id] == m[id])
    && (forall id :: id in m && id !in rest ==> m[id].ref in order)
    && (forall r :: r in order ==> exists id :: id in m && m[id].ref == r)
  }

  lemma VisitNone(m: map<Id, Session>)
    ensures Visited([], m, m)
  {}

  lemma VisitNext(order: seq<Ref>, m: map<Id, Session>, rest: map<Id, Session>, id: Id)
    requires Visited(order, m, rest) && id in rest
    ensures id in m && |order| == |m| - |rest|
    ensures Visited(order + [m[id].ref], m, rest - {id}) && |rest - {id}| < |rest|
  {
    assert (rest - {id}).Keys == rest.Keys - {id};
    assert |rest - {id}| == |rest| - 1;
  }

  lemma VisitAll(order: seq<Ref>, m: map<Id, Session>)
    requires Visited(order, m, map[])
    ensures S.Enumerates(order, RefsOf(m))
  {
    assert RefsOf(m).Keys == m.Keys;
    assert |RefsOf(m)| == |m|;
    forall r | r in order ensures r in RefsOf(m).Values {
      var id :| id in m && m[id].ref == r;
      assert RefsOf(m)[id] == r;
    }
  }

  lemma CloseEachNone(g: S.Gateway, posts: S.Posts)
    ensures S.AllKnown(g, []) && S.CloseEach(g, [], posts, 0) == g
  {}

  lemma {:induction false} CloseEachPush(g: S.Gateway, refs: seq<Ref>, r: Ref, posts: S.Posts, k: nat)
    requires S.AllKnown(g, refs) && r in g.sessions
    ensures S.AllKnown(g, refs + [r])
    ensures S.CloseEach(g, refs + [r], posts, k) == S.CloseSelf(S.CloseEach(g, refs, posts, k), r, posts(k + |refs|))
    decreases |refs|
  {
    hide S.CloseWithManager;
    if refs == [] {
      assert refs + [r] == [r] && [r][1..] == [];
    } else {
      assert (refs + [r])[1..] == refs[1..] + [r];
      CloseEachPush(S.CloseSelf(g, refs[0], posts(k)), refs[1..], r, posts, k + 1);
    }
  }

  // ---------------------------------------------------------------- the callbacks of the gateway

  method OnClose(gw: Manager, sess: Session, enableReconnect: bool, now: int, post: int)
    requires gw.Valid() && gw.Has(sess)
    modifies gw, gw.all.Values
    ensures gw.Valid() && gw.all == old(gw.all)
    ensures S.Known(old(gw.View())) && sess.ref in old(gw.View()).sessions
    ensures gw.View() == S.OnClose(old(gw.View()), sess.ref, enableReconnect, now, post)
  {
    hide Manager.View, Manager.Valid, S.Close, S.CloseWithManager;
    gw.ValidIsKnown();
    gw.Entry(sess);
    var id := sess.id;
    if !sess.closing {
      if sess.owner != null {
        var ret := gw.Close(id, enableReconnect, now, post);
        if ret < 0 {
          S.CloseFails(old(gw.View()), id, enableReconnect, now, post);
          gw.CloseSelf(sess, post);
        }
      } else {
        gw.CloseSelf(sess, post);
      }
    }
  }

  method OnReadError(gw: Manager, sess: Session, now: int, post: int)
    requires gw.Valid() && gw.Has(sess)
    modifies gw, gw.all.Values
    ensures gw.Valid() && gw.all == old(gw.all)
    ensures S.Known(old(gw.View())) && sess.ref in old(gw.View()).sessions
    ensures gw.View() == S.OnReadError(old(gw.View()), sess.ref, now, post)
  {
    hide Manager.View, Manager.Valid, S.Close;
    gw.ValidIsKnown();
    gw.Entry(sess);
    if sess.closing || sess.owner == null {
      return;
    }
    var _ := gw.Close(sess.id, true, now, post);
  }

  method OnHandshakeDone(gw: Manager, sess: Session, ok: bool, now: int, posts: S.Posts)
    requires gw.Valid() && gw.Has(sess)
    modifies gw, gw.all.Values
    ensures gw.Valid() && gw.all == old(gw.all)
    ensures S.Known(old(gw.View())) && sess.ref in old(gw.View()).sessions
    ensures gw.View() == S.OnHandshakeDone(old(gw.View()), sess.ref, ok, now, posts)
  {
    hide Manager.View, Manager.Valid, S.ActiveSession;
    gw.ValidIsKnown();
    gw.Entry(sess);
    gw.MarkShook(sess);
    if ok {
      var _ := gw.ActiveSession(sess, now, posts);
    }
  }

  method OnReconnect(gw: Manager, sess: Session, oldId: Id, accepts: bool, now: int, posts: S.Posts) returns (ret: int)
    requires gw.Valid() && gw.Has(sess)
    modifies gw, gw.all.Values
    ensures gw.Valid() && gw.all == old(gw.all)
    ensures S.Known(old(gw.View())) && sess.ref in old(gw.View()).sessions
    ensures S.Reply(gw.View(), ret) == S.OnReconnect(old(gw.View()), sess.ref, oldId, accepts, now, posts)
  {
    hide Manager.View, Manager.Valid, S.Reconnect;
    gw.ValidIsKnown();
    gw.Entry(sess);
    if sess.inited {
      return -1;
    }
    ret := gw.Reconnect(sess, oldId, accepts, now, posts);
  }
}
