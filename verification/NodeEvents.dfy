/** From watch events to the proxy table: `etcd_module::unpack`, the one-node watcher wrapper and the proxy manager's
    `on_watcher_notify`. A PUT names its node by the id in the value, a DELETE by the last component of the key;
    the table still agrees with what etcd holds. */
module NodeEvents {
  import opened Common
  import opened Watcher
  import opened WatchProtocol
  import PM = ProxyManager

  /** Parsers left out of the model: node JSON (id 0 when there is none) and `str2int`. */
  datatype Parsers = Parsers(node: string -> PM.NodeInfo, str2int: string -> nat)

  predicate IsSeparator(c: char) {
    c == '/' || c == '\\' || c == ' ' || c == '\t' || c == '\r' || c == '\n'
  }

  /** Where the last component of a path starts. */
  function ComponentStart(path: string): (start: nat)
    ensures start <= |path| && (start > 0 ==> IsSeparator(path[start - 1]))
    ensures forall i :: start <= i < |path| ==> !IsSeparator(path[i])
  {
    if path == [] then 0
    else if IsSeparator(path[|path| - 1]) then |path|
    else ComponentStart(path[..|path| - 1])
  }

  function IdOf(ps: Parsers, path: string): nat {
    if ComponentStart(path) < |path| then ps.str2int(path[ComponentStart(path)..]) else 0
  }

  const RESET_NODE := PM.NodeInfo(0, "", [], 0, 0)

  method Unpack(ps: Parsers, path: string, json: string) returns (node: PM.NodeInfo)
    ensures node == if json == "" then RESET_NODE.(id := IdOf(ps, path)) else ps.node(json)
  {
    node := RESET_NODE;
    if json == "" {
      var start := 0;
      for i := 0 to |path|
        invariant start == ComponentStart(path[..i])
      {
        assert path[..i + 1][..i] == path[..i];
        if IsSeparator(path[i]) {
          start := i + 1;
        }
      }
      assert path[..|path|] == path;
      if start < |path| {
        node := node.(id := ps.str2int(path[start..]));
      }
      return;
    }
    node := ps.node(json);
  }

  /** The node an event is about. */
  function NodeOf(ps: Parsers, e: Event): PM.NodeInfo {
    var json := if e.kv.value == "" then e.prevKv.value else e.kv.value;
    if json == "" then RESET_NODE.(id := IdOf(ps, e.kv.key)) else ps.node(json)
  }

  function NotifyOne(ps: Parsers, t: PM.Table, w: PM.World, e: Event): PM.Table {
    var node := NodeOf(ps, e);
    if node.id == 0 then t
    else if e.kind == Delete then PM.RemoveNode(t, node.id)
    else PM.SetNode(t, w, node)
  }

  function NotifyAll(ps: Parsers, t: PM.Table, w: PM.World, events: seq<Event>): PM.Table
    decreases |events|
  {
    if events == [] then t else NotifyAll(ps, NotifyOne(ps, t, w, events[0]), w, events[1..])
  }

  /** `watcher_callback_one_wrapper_t`, bound to `atproxy_manager::on_watcher_notify`. */
  method OnDelivery(ps: Parsers, manager: PM.AtproxyManager, w: PM.World, events: seq<Event>)
    modifies manager
    ensures manager.View() == NotifyAll(ps, old(manager.View()), w, events)
  {
    for i := 0 to |events|
      invariant NotifyAll(ps, manager.View(), w, events[i..]) == NotifyAll(ps, old(manager.View()), w, events)
    {
      var e := events[i];
      assert events[i..][1..] == events[i + 1..];
      var node;
      if e.kv.value == "" {
        node := Unpack(ps, e.kv.key, e.prevKv.value);
      } else {
        node := Unpack(ps, e.kv.key, e.kv.value);
      }
      if node.id == 0 {
        continue;
      }
      manager.OnWatcherNotify(w, node, e.kind == Delete);
    }
  }

  // ---------------------------------------------------------------- what the table holds

  function IdsAfterOne(ps: Parsers, ids: set<nat>, e: Event): set<nat> {
    var id := NodeOf(ps, e).id;
    if id == 0 then ids else if e.kind == Delete then ids - {id} else ids + {id}
  }

  function IdsAfter(ps: Parsers, ids: set<nat>, events: seq<Event>): set<nat> {
    if events == [] then ids
    else IdsAfterOne(ps, IdsAfter(ps, ids, events[..|events| - 1]), events[|events| - 1])
  }

  lemma {:induction false} IdsAfterConcat(ps: Parsers, ids: set<nat>, a: seq<Event>, b: seq<Event>)
    ensures IdsAfter(ps, ids, a + b) == IdsAfter(ps, IdsAfter(ps, ids, a), b)
    decreases |b|
  {
    if b == [] {
      assert a + b == a;
    } else {
      assert (a + b)[..|a + b| - 1] == a + b[..|b| - 1];
      IdsAfterConcat(ps, ids, a, b[..|b| - 1]);
    }
  }

  lemma {:induction false} NotifyAllKeys(ps: Parsers, t: PM.Table, w: PM.World, events: seq<Event>)
    ensures NotifyAll(ps, t, w, events).proxies.Keys == IdsAfter(ps, t.proxies.Keys, events)
    decreases |events|
  {
    if events != [] {
      var one := [events[0]];
      assert events == one + events[1..] && one[..0] == [];
      IdsAfterConcat(ps, t.proxies.Keys, one, events[1..]);
      assert NotifyOne(ps, t, w, events[0]).proxies.Keys == IdsAfter(ps, t.proxies.Keys, one);
      NotifyAllKeys(ps, NotifyOne(ps, t, w, events[0]), w, events[1..]);
    }
  }

  /** The manager handles deliveries; its ticks and disconnects come in between. */
  datatype Act =
    | Handle(delivery: Delivery, world: PM.World)
    | TickNow(world: PM.World)
    | Lose(id: PM.Id, world: PM.World)

  function ActOn(ps: Parsers, t: PM.Table, acts: seq<Act>): PM.Table
    decreases |acts|
  {
    if acts == [] then t
    else
      var t' := match acts[0]
                case Handle(d, w) => NotifyAll(ps, t, w, d.events)
                case TickNow(w) => PM.Ticked(t, w)
                case Lose(id, w) => PM.Disconnected(t, w, id);
      ActOn(ps, t', acts[1..])
  }

  function Handled(acts: seq<Act>): seq<Delivery> {
    if acts == [] then []
    else (if acts[0].Handle? then [acts[0].delivery] else []) + Handled(acts[1..])
  }

  lemma {:induction false} SweepKeepsKeys(s: PM.Sweep, w: PM.World)
    ensures PM.Swept(s, w).table.proxies.Keys == s.table.proxies.Keys
    decreases PM.DueCount(s.table.checks, w.now)
  {
    if PM.HasDue(s.table, w.now) {
      SweepKeepsKeys(PM.SweepOne(s, w), w);
    }
  }

  lemma {:induction false} ActOnKeys(ps: Parsers, t: PM.Table, acts: seq<Act>)
    ensures ActOn(ps, t, acts).proxies.Keys == IdsAfter(ps, t.proxies.Keys, EventsOf(Handled(acts)))
    decreases |acts|
  {
    if acts != [] {
      match acts[0] {
        case Handle(d, w) =>
          var t' := NotifyAll(ps, t, w, d.events);
          NotifyAllKeys(ps, t, w, d.events);
          assert Handled(acts)[1..] == Handled(acts[1..]);
          IdsAfterConcat(ps, t.proxies.Keys, d.events, EventsOf(Handled(acts[1..])));
          ActOnKeys(ps, t', acts[1..]);
        case TickNow(w) =>
          SweepKeepsKeys(PM.Sweep(t, []), w);
          assert Handled(acts) == Handled(acts[1..]);
          ActOnKeys(ps, PM.Ticked(t, w), acts[1..]);
        case Lose(id, w) =>
          assert Handled(acts) == Handled(acts[1..]);
          assert PM.Disconnected(t, w, id).proxies.Keys == t.proxies.Keys;
          ActOnKeys(ps, PM.Disconnected(t, w, id), acts[1..]);
      }
    }
  }

  // ---------------------------------------------------------------- agreement with etcd

  ghost function LiveIds(ps: Parsers, live: map<string, string>): set<nat> {
    set k | k in live :: IdOf(ps, k)
  }

  ghost predicate Packed(ps: Parsers, key: string, value: string) {
    value != "" && ps.node(value).id == IdOf(ps, key) != 0
  }

  ghost predicate DistinctIds(ps: Parsers, live: map<string, string>) {
    forall a, b :: a in live && b in live && IdOf(ps, a) == IdOf(ps, b) ==> a == b
  }

  /** The events of a range of packed nodes: values name the node of their key, deletes carry no value and are of
      live keys, and no two keys live at the same time have one id. */
  ghost predicate WellNamed(ps: Parsers, events: seq<Event>) {
    forall n :: 0 <= n < |events| ==>
      var live, e := LiveAfter(events[..n]), events[n];
      && DistinctIds(ps, live)
      && (e.kind == Put ==> Packed(ps, e.kv.key, e.kv.value))
      && (e.kind == Delete ==> e.kv.key in live && e.kv.value == "" && e.prevKv.value == "")
  }

  lemma {:induction false} LiveIsPacked(ps: Parsers, events: seq<Event>, k: string)
    requires WellNamed(ps, events) && k in LiveAfter(events)
    ensures Packed(ps, k, LiveAfter(events)[k])
    decreases |events|
  {
    var init, e := events[..|events| - 1], events[|events| - 1];
    if !(e.kind == Put && e.kv.key == k) {
      assert forall n :: 0 <= n < |init| ==> events[..n] == init[..n];
      LiveIsPacked(ps, init, k);
    }
  }

  lemma OneEventKeepsAgreement(ps: Parsers, events: seq<Event>, n: nat)
    requires WellNamed(ps, events) && n < |events|
    ensures LiveIds(ps, LiveAfter(events[..n + 1])) == IdsAfterOne(ps, LiveIds(ps, LiveAfter(events[..n])), events[n])
  {
    var live, e := LiveAfter(events[..n]), events[n];
    var id := IdOf(ps, e.kv.key);
    assert events[..n + 1][..n] == events[..n];
    assert NodeOf(ps, e).id == id != 0 by {
      if e.kind == Delete {
        assert forall m :: 0 <= m < n ==> events[..n][..m] == events[..m];
        LiveIsPacked(ps, events[..n], e.kv.key);
      }
    }
    var live' := LiveAfter(events[..n + 1]);
    if e.kind == Put {
      assert live' == live[e.kv.key := e.kv.value];
      assert LiveIds(ps, live') == LiveIds(ps, live) + {id};
    } else {
      assert live' == live - {e.kv.key};
      assert LiveIds(ps, live') == LiveIds(ps, live) - {id};
    }
  }

  lemma {:induction false} EventsKeepAgreement(ps: Parsers, events: seq<Event>, n: nat, m: nat)
    requires WellNamed(ps, events) && n <= m <= |events|
    ensures IdsAfter(ps, LiveIds(ps, LiveAfter(events[..n])), events[n..m]) == LiveIds(ps, LiveAfter(events[..m]))
    decreases m
  {
    hide WellNamed, LiveIds, LiveAfter, IdsAfterOne;
    if n < m {
      var span := events[n..m];
      assert span[..|span| - 1] == events[n..m - 1] && span[|span| - 1] == events[m - 1];
      EventsKeepAgreement(ps, events, n, m - 1);
      OneEventKeepsAgreement(ps, events, m - 1);
    }
  }

  lemma {:induction false} SnapshotIds(ps: Parsers, kvs: seq<KeyValue>, n: nat)
    requires n <= |kvs| && forall i :: 0 <= i < |kvs| ==> Packed(ps, kvs[i].key, kvs[i].value)
    ensures IdsAfter(ps, {}, AsPuts(kvs)[..n]) == set i | 0 <= i < n :: IdOf(ps, kvs[i].key)
    decreases n
  {
    hide IdOf;
    if n > 0 {
      SnapshotIds(ps, kvs, n - 1);
      assert AsPuts(kvs)[..n][..n - 1] == AsPuts(kvs)[..n - 1];
      assert (set i | 0 <= i < n :: IdOf(ps, kvs[i].key))
          == (set i | 0 <= i < n - 1 :: IdOf(ps, kvs[i].key)) + {IdOf(ps, kvs[n - 1].key)};
    }
  }

  lemma ListedAt(kvs: seq<KeyValue>, live: map<string, string>, i: nat)
    requires Lists(kvs, live) && i < |kvs|
    ensures kvs[i].key in live && live[kvs[i].key] == kvs[i].value
  {}

  lemma ListedIds(ps: Parsers, kvs: seq<KeyValue>, live: map<string, string>)
    requires Lists(kvs, live)
    ensures LiveIds(ps, live) == set i | 0 <= i < |kvs| :: IdOf(ps, kvs[i].key)
  {
    hide IdOf;
    var listed := set i | 0 <= i < |kvs| :: IdOf(ps, kvs[i].key);
    forall id | id in LiveIds(ps, live) ensures id in listed {
      var k :| k in live && IdOf(ps, k) == id;
      var i :| 0 <= i < |kvs| && kvs[i].key == k;
      assert IdOf(ps, kvs[i].key) == id;
    }
    forall id | id in listed ensures id in LiveIds(ps, live) {
      var i :| 0 <= i < |kvs| && IdOf(ps, kvs[i].key) == id;
      assert kvs[i].key in live;
    }
  }

  lemma SnapshotAgrees(ps: Parsers, events: seq<Event>, kvs: seq<KeyValue>)
    requires WellNamed(ps, events) && Lists(kvs, LiveAfter(events))
    ensures IdsAfter(ps, {}, AsPuts(kvs)) == LiveIds(ps, LiveAfter(events))
  {
    hide *;
    forall i | 0 <= i < |kvs| ensures Packed(ps, kvs[i].key, kvs[i].value) {
      ListedAt(kvs, LiveAfter(events), i);
      LiveIsPacked(ps, events, kvs[i].key);
    }
    SnapshotIds(ps, kvs, |kvs|);
    assert AsPuts(kvs)[..|kvs|] == AsPuts(kvs);
    ListedIds(ps, kvs, LiveAfter(events));
  }

  lemma WellNamedFirst(ps: Parsers, events: seq<Event>, n: nat)
    requires WellNamed(ps, events) && n <= |events|
    ensures WellNamed(ps, events[..n])
  {
    assert forall m :: 0 <= m < n ==> events[..n][m] == events[m] && events[..n][..m] == events[..m];
  }

  lemma DeliveredAgree(ps: Parsers, log: Log, deliveries: seq<Delivery>, last: int)
    requires ExactlyOnce(log, deliveries, last) && WellNamed(ps, EventsIn(log, 0, last))
    ensures IdsAfter(ps, {}, EventsOf(deliveries)) == LiveIds(ps, LiveAt(log, last))
  {
    var r := deliveries[0].revision;
    var kvs :| deliveries[0].events == AsPuts(kvs) && Lists(kvs, LiveAt(log, r));
    var before, after, all := EventsIn(log, 0, r), EventsIn(log, r, last), EventsIn(log, 0, last);
    EventsInSplit(log, 0, r, last);
    WellNamedFirst(ps, all, |before|);
    hide *;
    assert all[..|before|] == before && all[|before|..|all|] == after && all[..|all|] == all;
    SnapshotAgrees(ps, before, kvs);
    IdsAfterConcat(ps, {}, deliveries[0].events, EventsOf(deliveries[1..]));
    EventsKeepAgreement(ps, all, |before|, |all|);
  }

  /** In every run of the watch protocol without a `close`, once the manager has handled what was delivered, with any
      ticks and disconnects in between, the proxies it knows are exactly the nodes live in etcd at the client's
      revision. */
  lemma TableAgreesWithEtcd(
      codec: Codec, ps: Parsers, log: Log, retryInterval: int, now: int, steps: seq<Step>, acts: seq<Act>)
    requires codec.Sound()
    requires var s := Run(codec, Initial(log, retryInterval, now), steps);
             && s.epoch == 0 && s.client.lastRevision > 0
             && Handled(acts) == s.client.delivered
             && s.client.lastRevision <= |s.log| && WellNamed(ps, EventsIn(s.log, 0, s.client.lastRevision))
    ensures var s := Run(codec, Initial(log, retryInterval, now), steps);
            && s.client.lastRevision <= |s.log|
            && ActOn(ps, PM.Table([], map[]), acts).proxies.Keys == LiveIds(ps, LiveAt(s.log, s.client.lastRevision))
  {
    hide *;
    var s := Run(codec, Initial(log, retryInterval, now), steps);
    ExactlyOnceDelivery(codec, log, retryInterval, now, steps);
    assert s.client.delivered[0..] == s.client.delivered;
    DeliveredAgree(ps, s.log, s.client.delivered, s.client.lastRevision);
    ActOnKeys(ps, PM.Table([], map[]), acts);
    assert PM.Table([], map[]).proxies.Keys == {};
  }
}
