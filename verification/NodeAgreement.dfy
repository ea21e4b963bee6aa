/** From the values in etcd to the nodes of the proxy table: for each live key the node last notified is the one packed
    in its value, and the node kept is that one exactly when module ProxyNotices says so. */
module NodeAgreement {
  import opened Common
  import opened Watcher
  import opened WatchProtocol
  import opened NodeEvents
  import PM = ProxyManager
  import PN = ProxyNotices

  // ---------------------------------------------------------------- deliveries as calls of the manager

  /** The node an event is about: packed in its value, or in the value before when there is none; without either it is
      known by the last component of its key. */
  function NodeIn(ps: Parsers, e: Event): PM.NodeInfo {
    if e.kv.value != "" then ps.node(e.kv.value)
    else if e.prevKv.value != "" then ps.node(e.prevKv.value)
    else PM.NodeInfo(IdOf(ps, e.kv.key), "", [], 0, 0)
  }

  function CallsOfEvent(ps: Parsers, e: Event, w: PM.World): seq<PM.Call> {
    var node := NodeIn(ps, e);
    if node.id == 0 then []
    else [PM.Call(if e.kind == Delete then PM.Remove(node.id) else PM.Set(node), w)]
  }

  function CallsOfEvents(ps: Parsers, events: seq<Event>, w: PM.World): seq<PM.Call> {
    if events == [] then [] else CallsOfEvent(ps, events[0], w) + CallsOfEvents(ps, events[1..], w)
  }

  function CallsOf(ps: Parsers, acts: seq<Act>): seq<PM.Call> {
    if acts == [] then []
    else
      (match acts[0]
       case Handle(d, w) => CallsOfEvents(ps, d.events, w)
       case TickNow(w) => [PM.Call(PM.Tick, w)]
       case Lose(id, w) => [PM.Call(PM.Disconnect(id), w)])
      + CallsOf(ps, acts[1..])
  }

  lemma {:induction false} RunConcat(t: PM.Table, a: seq<PM.Call>, b: seq<PM.Call>)
    ensures PM.Run(t, a + b) == PM.Run(PM.Run(t, a), b)
    decreases |a|
  {
    if a == [] {
      assert a + b == b;
    } else {
      assert (a + b)[1..] == a[1..] + b;
      RunConcat(PM.Apply(t, a[0]), a[1..], b);
    }
  }

  lemma RunOne(t: PM.Table, call: PM.Call)
    ensures PM.Run(t, [call]) == PM.Apply(t, call)
  {
    assert [call][1..] == [];
  }

  /** Each event is handed over as its node, unchanged, or not at all when the node has no id. */
  lemma EventIsHandedOver(ps: Parsers, t: PM.Table, w: PM.World, e: Event)
    ensures PM.Run(t, CallsOfEvent(ps, e, w)) == NotifyOne(ps, t, w, e)
  {
    if NodeIn(ps, e).id != 0 {
      RunOne(t, CallsOfEvent(ps, e, w)[0]);
    }
  }

  lemma {:induction false} EventsAreHandedOver(ps: Parsers, t: PM.Table, w: PM.World, events: seq<Event>)
    ensures PM.Run(t, CallsOfEvents(ps, events, w)) == NotifyAll(ps, t, w, events)
    decreases |events|
  {
    hide NotifyOne, CallsOfEvent;
    if events != [] {
      EventIsHandedOver(ps, t, w, events[0]);
      RunConcat(t, CallsOfEvent(ps, events[0], w), CallsOfEvents(ps, events[1..], w));
      EventsAreHandedOver(ps, NotifyOne(ps, t, w, events[0]), w, events[1..]);
    }
  }

  lemma {:induction false} ActsAreCalls(ps: Parsers, t: PM.Table, acts: seq<Act>)
    ensures PM.Run(t, CallsOf(ps, acts)) == ActOn(ps, t, acts)
    decreases |acts|
  {
    hide NotifyAll, CallsOfEvents;
    if acts != [] {
      var first := match acts[0]
                   case Handle(d, w) => CallsOfEvents(ps, d.events, w)
                   case TickNow(w) => [PM.Call(PM.Tick, w)]
                   case Lose(id, w) => [PM.Call(PM.Disconnect(id), w)];
      RunConcat(t, first, CallsOf(ps, acts[1..]));
      match acts[0] {
        case Handle(d, w) => EventsAreHandedOver(ps, t, w, d.events);
        case TickNow(w) => RunOne(t, PM.Call(PM.Tick, w));
        case Lose(id, w) => RunOne(t, PM.Call(PM.Disconnect(id), w));
      }
      ActsAreCalls(ps, PM.Run(t, first), acts[1..]);
    }
  }

  // ---------------------------------------------------------------- the nodes last notified

  type Nodes = map<nat, PM.NodeInfo>

  function Notified(m: PN.Memories): Nodes { map id | id in m :: m[id].notified }

  function NodesAfterOne(ps: Parsers, nodes: Nodes, e: Event): Nodes {
    var node := NodeIn(ps, e);
    if node.id == 0 then nodes else if e.kind == Delete then nodes - {node.id} else nodes[node.id := node]
  }

  function NodesAfter(ps: Parsers, nodes: Nodes, events: seq<Event>): Nodes {
    if events == [] then nodes
    else NodesAfterOne(ps, NodesAfter(ps, nodes, events[..|events| - 1]), events[|events| - 1])
  }

  lemma {:induction false} NodesAfterConcat(ps: Parsers, nodes: Nodes, a: seq<Event>, b: seq<Event>)
    ensures NodesAfter(ps, nodes, a + b) == NodesAfter(ps, NodesAfter(ps, nodes, a), b)
    decreases |b|
  {
    if b == [] {
      assert a + b == a;
    } else {
      assert (a + b)[..|a + b| - 1] == a + b[..|b| - 1];
      NodesAfterConcat(ps, nodes, a, b[..|b| - 1]);
    }
  }

  lemma {:induction false} HistoryConcat(m: PN.Memories, t: PM.Table, a: seq<PM.Call>, b: seq<PM.Call>)
    ensures PN.History(m, t, a + b) == PN.History(PN.History(m, t, a), PM.Run(t, a), b)
    decreases |a|
  {
    if a == [] {
      assert a + b == b;
    } else {
      assert (a + b)[1..] == a[1..] + b;
      HistoryConcat(PN.Remembered(m, t, a[0]), PM.Apply(t, a[0]), a[1..], b);
    }
  }

  lemma EventIsRemembered(ps: Parsers, m: PN.Memories, t: PM.Table, w: PM.World, e: Event)
    requires m.Keys == t.proxies.Keys
    ensures var calls := CallsOfEvent(ps, e, w);
            && Notified(PN.History(m, t, calls)) == NodesAfterOne(ps, Notified(m), e)
            && PN.History(m, t, calls).Keys == PM.Run(t, calls).proxies.Keys
  {
    var calls := CallsOfEvent(ps, e, w);
    if calls != [] {
      assert calls[1..] == [];
      RunOne(t, calls[0]);
    }
  }

  lemma {:induction false} EventsAreRemembered(
      ps: Parsers, m: PN.Memories, t: PM.Table, w: PM.World, events: seq<Event>)
    requires m.Keys == t.proxies.Keys
    ensures var calls := CallsOfEvents(ps, events, w);
            && Notified(PN.History(m, t, calls)) == NodesAfter(ps, Notified(m), events)
            && PN.History(m, t, calls).Keys == PM.Run(t, calls).proxies.Keys
    decreases |events|
  {
    hide CallsOfEvent, Notified, NodesAfterOne;
    if events != [] {
      var first, rest := CallsOfEvent(ps, events[0], w), CallsOfEvents(ps, events[1..], w);
      EventIsRemembered(ps, m, t, w, events[0]);
      HistoryConcat(m, t, first, rest);
      RunConcat(t, first, rest);
      EventsAreRemembered(ps, PN.History(m, t, first), PM.Run(t, first), w, events[1..]);
      var one := [events[0]];
      assert events == one + events[1..] && one[..0] == [];
      NodesAfterConcat(ps, Notified(m), one, events[1..]);
      assert NodesAfter(ps, Notified(m), one) == NodesAfterOne(ps, Notified(m), events[0]);
    }
  }

  lemma {:induction false} ActsAreRemembered(ps: Parsers, m: PN.Memories, t: PM.Table, acts: seq<Act>)
    requires m.Keys == t.proxies.Keys
    ensures Notified(PN.History(m, t, CallsOf(ps, acts))) == NodesAfter(ps, Notified(m), EventsOf(Handled(acts)))
    decreases |acts|
  {
    hide Notified, CallsOfEvents, NodesAfter;
    if acts == [] {
      NothingAfter(ps, Notified(m));
    } else {
      var rest := CallsOf(ps, acts[1..]);
      match acts[0] {
        case Handle(d, w) =>
          var first := CallsOfEvents(ps, d.events, w);
          EventsAreRemembered(ps, m, t, w, d.events);
          HistoryConcat(m, t, first, rest);
          ActsAreRemembered(ps, PN.History(m, t, first), PM.Run(t, first), acts[1..]);
          assert Handled(acts)[0] == d && Handled(acts)[1..] == Handled(acts[1..]);
          NodesAfterConcat(ps, Notified(m), d.events, EventsOf(Handled(acts[1..])));
        case TickNow(w) =>
          var call := PM.Call(PM.Tick, w);
          OneIsRemembered(m, t, call, rest);
          SweepKeepsKeys(PM.Sweep(t, []), w);
          ActsAreRemembered(ps, m, PM.Apply(t, call), acts[1..]);
          assert Handled(acts) == Handled(acts[1..]);
        case Lose(id, w) =>
          var call := PM.Call(PM.Disconnect(id), w);
          OneIsRemembered(m, t, call, rest);
          ActsAreRemembered(ps, m, PM.Apply(t, call), acts[1..]);
          assert Handled(acts) == Handled(acts[1..]);
      }
    }
  }

  lemma NothingAfter(ps: Parsers, nodes: Nodes)
    ensures NodesAfter(ps, nodes, []) == nodes
  {}

  lemma OneIsRemembered(m: PN.Memories, t: PM.Table, call: PM.Call, rest: seq<PM.Call>)
    ensures PN.History(m, t, [call] + rest) == PN.History(PN.Remembered(m, t, call), PM.Apply(t, call), rest)
  {
    assert ([call] + rest)[1..] == rest;
  }

  // ---------------------------------------------------------------- agreement with the values in etcd

  /** For each live key, the node last notified under its id is the one packed in its value. */
  ghost predicate Matches(ps: Parsers, live: map<string, string>, nodes: Nodes) {
    forall k :: k in live ==> IdOf(ps, k) in nodes && nodes[IdOf(ps, k)] == ps.node(live[k])
  }

  lemma OneEventKeepsMatch(ps: Parsers, events: seq<Event>, n: nat, nodes: Nodes)
    requires WellNamed(ps, events) && n < |events| && DistinctIds(ps, LiveAfter(events[..n + 1]))
    requires Matches(ps, LiveAfter(events[..n]), nodes)
    ensures Matches(ps, LiveAfter(events[..n + 1]), NodesAfterOne(ps, nodes, events[n]))
  {
    hide IdOf;
    var live, e := LiveAfter(events[..n]), events[n];
    assert events[..n + 1][..n] == events[..n];
    var live' := LiveAfter(events[..n + 1]);
    assert live' == if e.kind == Put then live[e.kv.key := e.kv.value] else live - {e.kv.key};
    hide LiveAfter;
    if e.kind == Put {
      assert NodeIn(ps, e) == ps.node(e.kv.value) && NodeIn(ps, e).id == IdOf(ps, e.kv.key) != 0;
      assert e.kv.key in live';
      forall k | k in live'
        ensures var nodes' := NodesAfterOne(ps, nodes, e);
                IdOf(ps, k) in nodes' && nodes'[IdOf(ps, k)] == ps.node(live'[k])
      {
        if k != e.kv.key { assert k in live && IdOf(ps, k) != IdOf(ps, e.kv.key); }
      }
    } else {
      assert NodeIn(ps, e).id == IdOf(ps, e.kv.key);
    }
  }

  lemma DistinctAt(ps: Parsers, events: seq<Event>, n: nat)
    requires WellNamed(ps, events) && n < |events|
    ensures DistinctIds(ps, LiveAfter(events[..n]))
  {}

  lemma {:induction false} EventsKeepMatch(ps: Parsers, events: seq<Event>, n: nat, m: nat, nodes: Nodes)
    requires WellNamed(ps, events) && n <= m <= |events| && DistinctIds(ps, LiveAfter(events[..m]))
    requires Matches(ps, LiveAfter(events[..n]), nodes)
    ensures Matches(ps, LiveAfter(events[..m]), NodesAfter(ps, nodes, events[n..m]))
    decreases m
  {
    hide LiveAfter, NodesAfterOne, Matches, WellNamed, DistinctIds;
    if n < m {
      var span := events[n..m];
      DistinctAt(ps, events, m - 1);
      assert span[..|span| - 1] == events[n..m - 1] && span[|span| - 1] == events[m - 1];
      EventsKeepMatch(ps, events, n, m - 1, nodes);
      OneEventKeepsMatch(ps, events, m - 1, NodesAfter(ps, nodes, events[n..m - 1]));
    } else {
      assert events[n..m] == [];
    }
  }

  lemma {:induction false} SnapshotMatches(ps: Parsers, kvs: seq<KeyValue>, live: map<string, string>, n: nat)
    requires Lists(kvs, live) && DistinctIds(ps, live) && n <= |kvs|
    requires forall i :: 0 <= i < |kvs| ==> Packed(ps, kvs[i].key, kvs[i].value)
    ensures forall i :: 0 <= i < n ==>
              var nodes := NodesAfter(ps, map[], AsPuts(kvs)[..n]);
              IdOf(ps, kvs[i].key) in nodes && nodes[IdOf(ps, kvs[i].key)] == ps.node(kvs[i].value)
    decreases n
  {
    hide IdOf;
    if n > 0 {
      SnapshotMatches(ps, kvs, live, n - 1);
      var puts := AsPuts(kvs);
      assert puts[..n][..n - 1] == puts[..n - 1] && puts[..n][n - 1] == puts[n - 1];
      assert NodeIn(ps, puts[n - 1]) == ps.node(kvs[n - 1].value);
      forall i | 0 <= i < n - 1 ensures IdOf(ps, kvs[i].key) != IdOf(ps, kvs[n - 1].key) {
        assert kvs[i].key in live && kvs[n - 1].key in live && kvs[i].key != kvs[n - 1].key;
      }
    }
  }

  lemma SnapshotGives(ps: Parsers, events: seq<Event>, kvs: seq<KeyValue>)
    requires WellNamed(ps, events) && Lists(kvs, LiveAfter(events)) && DistinctIds(ps, LiveAfter(events))
    ensures Matches(ps, LiveAfter(events), NodesAfter(ps, map[], AsPuts(kvs)))
  {
    var live := LiveAfter(events);
    forall i | 0 <= i < |kvs| ensures Packed(ps, kvs[i].key, kvs[i].value) {
      ListedAt(kvs, live, i);
      LiveIsPacked(ps, events, kvs[i].key);
    }
    hide IdOf, LiveAfter, NodesAfter, Packed, WellNamed, DistinctIds;
    SnapshotMatches(ps, kvs, live, |kvs|);
    assert AsPuts(kvs)[..|kvs|] == AsPuts(kvs);
    forall k | k in live
      ensures var nodes := NodesAfter(ps, map[], AsPuts(kvs));
              IdOf(ps, k) in nodes && nodes[IdOf(ps, k)] == ps.node(live[k])
    {
      var i :| 0 <= i < |kvs| && kvs[i].key == k;
      ListedAt(kvs, live, i);
    }
  }

  lemma DistinctEarlier(ps: Parsers, events: seq<Event>, n: nat)
    requires WellNamed(ps, events) && n <= |events| && DistinctIds(ps, LiveAfter(events))
    ensures DistinctIds(ps, LiveAfter(events[..n]))
  {
    if n == |events| { assert events[..n] == events; }
  }

  lemma DeliveredMatch(ps: Parsers, log: Log, deliveries: seq<Delivery>, last: int)
    requires ExactlyOnce(log, deliveries, last) && WellNamed(ps, EventsIn(log, 0, last))
    requires DistinctIds(ps, LiveAt(log, last))
    ensures Matches(ps, LiveAt(log, last), NodesAfter(ps, map[], EventsOf(deliveries)))
  {
    var r := deliveries[0].revision;
    var kvs :| deliveries[0].events == AsPuts(kvs) && Lists(kvs, LiveAt(log, r));
    var before, after, all := EventsIn(log, 0, r), EventsIn(log, r, last), EventsIn(log, 0, last);
    EventsInSplit(log, 0, r, last);
    WellNamedFirst(ps, all, |before|);
    DistinctEarlier(ps, all, |before|);
    hide WellNamed, DistinctIds, Matches, LiveAfter, NodesAfter, AsPuts;
    assert all[..|before|] == before && all[|before|..|all|] == after && all[..|all|] == all;
    SnapshotGives(ps, before, kvs);
    NodesAfterConcat(ps, map[], deliveries[0].events, EventsOf(deliveries[1..]));
    EventsKeepMatch(ps, all, |before|, |all|, NodesAfter(ps, map[], AsPuts(kvs)));
  }

  /** In every run of the watch protocol without a `close`, once the manager has handled what was delivered, with any
      ticks and disconnects in between: each key live in etcd has its proxy, the node last notified for it is the one
      packed in its value, and the node kept is that one, up to the rotation of its addresses, if and only if the node
      last accepted is, that is unless a `set` was skipped. */
  lemma NodesAgreeWithEtcd(
      codec: Codec, ps: Parsers, log: Log, retryInterval: int, now: int, steps: seq<Step>, acts: seq<Act>,
      w: PM.World, key: string)
    requires codec.Sound() && PN.SameVersions(CallsOf(ps, acts), w)
    requires var s := Run(codec, Initial(log, retryInterval, now), steps);
             && s.epoch == 0 && s.client.lastRevision > 0
             && Handled(acts) == s.client.delivered
             && s.client.lastRevision <= |s.log| && WellNamed(ps, EventsIn(s.log, 0, s.client.lastRevision))
             && DistinctIds(ps, LiveAt(s.log, s.client.lastRevision))
             && key in LiveAt(s.log, s.client.lastRevision)
    ensures var s := Run(codec, Initial(log, retryInterval, now), steps);
            && s.client.lastRevision <= |s.log| && key in LiveAt(s.log, s.client.lastRevision)
            && var node := ps.node(LiveAt(s.log, s.client.lastRevision)[key]);
               var id, t := IdOf(ps, key), ActOn(ps, PN.EMPTY, acts);
               var h := PN.History(NO_MEMORY, PN.EMPTY, CallsOf(ps, acts));
               && id in t.proxies && id in h && h[id].notified == node
               && (PN.Alike(t.proxies[id].node, node) <==> PN.Alike(h[id].accepted, node))
  {
    hide *;
    var s := Run(codec, Initial(log, retryInterval, now), steps);
    ExactlyOnceDelivery(codec, log, retryInterval, now, steps);
    assert s.client.delivered[0..] == s.client.delivered;
    DeliveredMatch(ps, s.log, s.client.delivered, s.client.lastRevision);
    var h := PN.History(NO_MEMORY, PN.EMPTY, CallsOf(ps, acts));
    NothingYet();
    ActsAreRemembered(ps, NO_MEMORY, PN.EMPTY, acts);
    MatchedHas(ps, LiveAt(s.log, s.client.lastRevision), Notified(h), key);
    NotifiedAt(h, IdOf(ps, key));
    ActsAreCalls(ps, PN.EMPTY, acts);
    SameIds(CallsOf(ps, acts), w);
    PN.NodeIsLatestIff(CallsOf(ps, acts), w, IdOf(ps, key));
  }

  const NO_MEMORY: PN.Memories := map[]

  lemma NothingYet()
    ensures NO_MEMORY == map[] && Notified(NO_MEMORY) == map[]
    ensures NO_MEMORY.Keys == PN.EMPTY.proxies.Keys
  {}

  lemma MatchedHas(ps: Parsers, live: map<string, string>, nodes: Nodes, key: string)
    requires Matches(ps, live, nodes) && key in live
    ensures IdOf(ps, key) in nodes && nodes[IdOf(ps, key)] == ps.node(live[key])
  {}

  lemma NotifiedAt(m: PN.Memories, id: nat)
    requires id in Notified(m)
    ensures id in m && m[id].notified == Notified(m)[id]
  {}

  lemma SameIds(calls: seq<PM.Call>, w: PM.World)
    requires PN.SameVersions(calls, w)
    ensures PN.History(NO_MEMORY, PN.EMPTY, calls).Keys == PM.Run(PN.EMPTY, calls).proxies.Keys
  {
    PN.RunKeepsAll(PN.EMPTY, calls, NO_MEMORY, w);
  }
}
