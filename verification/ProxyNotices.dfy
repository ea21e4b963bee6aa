/** What the proxy manager keeps of the nodes it is told about. A `set` while an action is pending is skipped with its
    node, and the verdict on a node's protocol versions is that of the node the proxy was first known by. */
module ProxyNotices {
  import opened Common
  import opened AddressRotation
  import opened ProxyManager

  /** The nodes a known proxy was first, last with effect, and last notified with. */
  datatype Memory = Memory(first: NodeInfo, accepted: NodeInfo, notified: NodeInfo)

  type Memories = map<Id, Memory>

  function Rebuilt(m: Memories, nodes: seq<NodeInfo>): Memories
    decreases |nodes|
  {
    if nodes == [] then m
    else
      var n := nodes[0];
      Rebuilt(if n.listens == [] then m else m[n.id := Memory(n, n, n)], nodes[1..])
  }

  /** What one call adds to the memory, in the table it meets. */
  function Remembered(m: Memories, t: Table, call: Call): Memories {
    match call.op
    case Set(node) =>
      if node.id !in t.proxies || node.id !in m then m[node.id := Memory(node, node, node)]
      else if t.proxies[node.id].nextAction >= call.world.now then m[node.id := m[node.id].(notified := node)]
      else m[node.id := m[node.id].(accepted := node, notified := node)]
    case Remove(id) => m - {id}
    case Reset(nodes) => Rebuilt(map[], nodes)
    case Tick => m
    case Disconnect(_) => m
  }

  function History(m: Memories, t: Table, calls: seq<Call>): Memories
    decreases |calls|
  {
    if calls == [] then m else History(Remembered(m, t, calls[0]), Apply(t, calls[0]), calls[1..])
  }

  // ---------------------------------------------------------------- the same node up to rotation

  ghost predicate Alike(a: NodeInfo, b: NodeInfo) {
    a == b.(listens := a.listens) && exists k :: 0 <= k <= |b.listens| && a.listens == Rotate(b.listens, k)
  }

  lemma AlikeSelf(a: NodeInfo)
    ensures Alike(a, a)
  {
    assert Rotate(a.listens, 0) == a.listens;
  }

  lemma RotateTwice<A>(l: seq<A>, k: nat, j: nat)
    requires k <= |l| && j <= |l|
    ensures Rotate(Rotate(l, k), j) == Rotate(l, if k + j <= |l| then k + j else k + j - |l|)
  {
    var r, n := l[k..] + l[..k], |l| - k;
    if j <= n {
      assert r[j..] == l[k + j..] + l[..k] && r[..j] == l[k..k + j];
      assert l[..k + j] == l[..k] + l[k..k + j];
    } else {
      assert r[j..] == l[j - n..k] && r[..j] == l[k..] + l[..j - n];
      assert l[j - n..] == l[j - n..k] + l[k..];
    }
  }

  lemma AlikeChain(a: NodeInfo, b: NodeInfo, c: NodeInfo)
    requires Alike(a, b) && Alike(b, c)
    ensures Alike(a, c)
  {
    var j :| 0 <= j <= |b.listens| && a.listens == Rotate(b.listens, j);
    var k :| 0 <= k <= |c.listens| && b.listens == Rotate(c.listens, k);
    RotateTwice(c.listens, k, j);
  }

  lemma RotateBack<A>(l: seq<A>, k: nat)
    requires k <= |l|
    ensures |Rotate(l, k)| == |l| && Rotate(Rotate(l, k), |l| - k) == l
  {
    RotateTwice(l, k, |l| - k);
  }

  lemma AlikeBack(a: NodeInfo, b: NodeInfo)
    requires Alike(a, b)
    ensures Alike(b, a)
  {
    var k :| 0 <= k <= |b.listens| && a.listens == Rotate(b.listens, k);
    RotateBack(b.listens, k);
    assert b.listens == Rotate(a.listens, |b.listens| - k);
  }

  lemma DialKeepsAlike(n: NodeInfo, reachable: string -> bool)
    requires n.listens != []
    ensures Alike(n.(listens := Next(Selected(n.listens, reachable))), n)
  {
    var k := FirstReachable(n.listens, reachable);
    var at := if k < |n.listens| then k else 0;
    assert Rotate(n.listens, 0) == n.listens;
    assert Selected(n.listens, reachable) == Rotate(n.listens, at);
    RotateTwice(n.listens, at, 1);
  }

  // ---------------------------------------------------------------- what is kept

  /** Both versions of this process are the same in all calls. */
  predicate SameVersions(calls: seq<Call>, w: World) {
    forall i :: 0 <= i < |calls| ==>
      calls[i].world.protocolVersion == w.protocolVersion && calls[i].world.protocolMinVersion == w.protocolMinVersion
  }

  ghost predicate Keeps(p: Proxy, m: Memory, w: World) {
    Alike(p.node, m.accepted) && p.available == CheckAvailable(w, m.first)
  }

  ghost predicate AllKept(t: Table, m: Memories, w: World) {
    t.proxies.Keys == m.Keys && forall id :: id in m ==> Keeps(t.proxies[id], m[id], w)
  }

  /** Handling a check may rotate the addresses of its proxy. */
  lemma SweepOneTouches(s: Sweep, at: World, id: Id)
    requires HasDue(s.table, at.now) && id in s.table.proxies
    ensures var t' := SweepOne(s, at).table;
            && id in t'.proxies && t'.proxies[id].available == s.table.proxies[id].available
            && Alike(t'.proxies[id].node, s.table.proxies[id].node)
  {
    var n := s.table.proxies[id].node;
    AlikeSelf(n);
    if n.listens != [] { DialKeepsAlike(n, Reach(at, s.table.proxies[id])); }
    SweepOneRotates(s, at, id);
    hide *;
  }

  lemma SweepOneRotates(s: Sweep, at: World, id: Id)
    requires HasDue(s.table, at.now) && id in s.table.proxies
    ensures var p, t' := s.table.proxies[id], SweepOne(s, at).table;
            && id in t'.proxies && t'.proxies[id].available == p.available
            && (t'.proxies[id].node == p.node
                || (p.node.listens != []
                    && t'.proxies[id].node
                       == p.node.(listens := Next(Selected(p.node.listens, Reach(at, p))))))
  {
    hide Next, Selected;
  }

  lemma SweepOneKeepsAll(s: Sweep, at: World, m: Memories, w: World)
    requires HasDue(s.table, at.now) && AllKept(s.table, m, w)
    ensures AllKept(SweepOne(s, at).table, m, w)
  {
    hide Alike, SweepOne;
    var t, t' := s.table, SweepOne(s, at).table;
    SweepOneKeepsKeys(s, at);
    forall id | id in m ensures Keeps(t'.proxies[id], m[id], w) {
      assert Keeps(t.proxies[id], m[id], w);
      SweepOneTouches(s, at, id);
      AlikeChain(t'.proxies[id].node, t.proxies[id].node, m[id].accepted);
    }
  }

  lemma SweepOneKeepsKeys(s: Sweep, at: World)
    requires HasDue(s.table, at.now)
    ensures SweepOne(s, at).table.proxies.Keys == s.table.proxies.Keys
  {}

  lemma {:induction false} TickKeepsAll(s: Sweep, at: World, m: Memories, w: World)
    requires AllKept(s.table, m, w)
    ensures AllKept(Swept(s, at).table, m, w)
    decreases DueCount(s.table.checks, at.now)
  {
    if HasDue(s.table, at.now) {
      SweepOneKeepsAll(s, at, m, w);
      TickKeepsAll(SweepOne(s, at), at, m, w);
    }
  }

  lemma {:induction false} AddAllKeepsAll(t: Table, at: World, nodes: seq<NodeInfo>, m: Memories, w: World)
    requires AllKept(t, m, w)
    requires at.protocolVersion == w.protocolVersion && at.protocolMinVersion == w.protocolMinVersion
    ensures AllKept(AddAll(t, at, nodes), Rebuilt(m, nodes), w)
    decreases |nodes|
  {
    hide Alike;
    if nodes != [] {
      var n := nodes[0];
      AlikeSelf(n);
      var t' := if n.listens == [] then t
                else Table([Check(at.now, n.id)] + t.checks,
                           t.proxies[n.id := Proxy(n, at.now, CheckAvailable(at, n))]);
      AddAllKeepsAll(t', at, nodes[1..], if n.listens == [] then m else m[n.id := Memory(n, n, n)], w);
    }
  }

  lemma ApplyKeepsAll(t: Table, call: Call, m: Memories, w: World)
    requires AllKept(t, m, w) && SameVersions([call], w)
    ensures AllKept(Apply(t, call), Remembered(m, t, call), w)
  {
    hide Alike;
    assert [call][0] == call;
    match call.op
    case Tick => TickKeepsAll(Sweep(t, []), call.world, m, w);
    case Set(node) => AlikeSelf(node);
    case Reset(nodes) => AddAllKeepsAll(Table([], map[]), call.world, nodes, map[], w);
    case _ =>
  }

  lemma {:induction false} RunKeepsAll(t: Table, calls: seq<Call>, m: Memories, w: World)
    requires AllKept(t, m, w) && SameVersions(calls, w)
    ensures AllKept(Run(t, calls), History(m, t, calls), w)
    decreases |calls|
  {
    hide AllKept;
    if calls != [] {
      ApplyKeepsAll(t, calls[0], m, w);
      RunKeepsAll(Apply(t, calls[0]), calls[1..], Remembered(m, t, calls[0]), w);
    }
  }

  // ---------------------------------------------------------------- the results

  const EMPTY := Table([], map[])

  /** Over every run: the verdict kept for a known proxy is right for the node kept if and only if the node it was first
      known by and the node last accepted get the same verdict. */
  lemma VerdictIsRightIff(calls: seq<Call>, w: World, id: Id)
    requires SameVersions(calls, w) && id in Run(EMPTY, calls).proxies
    ensures var p, h := Run(EMPTY, calls).proxies[id], History(map[], EMPTY, calls);
            && id in h
            && (p.available == CheckAvailable(w, p.node)
                <==> CheckAvailable(w, h[id].first) == CheckAvailable(w, h[id].accepted))
  {
    RunKeepsAll(EMPTY, calls, map[], w);
    hide Alike;
    assert Keeps(Run(EMPTY, calls).proxies[id], History(map[], EMPTY, calls)[id], w);
    SameVerdict(Run(EMPTY, calls).proxies[id].node, History(map[], EMPTY, calls)[id].accepted, w);
  }

  lemma SameVerdict(a: NodeInfo, b: NodeInfo, w: World)
    requires Alike(a, b)
    ensures CheckAvailable(w, a) == CheckAvailable(w, b)
  {}

  /** Over every run: the node kept is the node last notified, up to the rotation of its addresses, if and only if the
      node last accepted is; that is, unless a skipped `set` brought another one. */
  lemma NodeIsLatestIff(calls: seq<Call>, w: World, id: Id)
    requires SameVersions(calls, w) && id in Run(EMPTY, calls).proxies
    ensures var p, h := Run(EMPTY, calls).proxies[id], History(map[], EMPTY, calls);
            id in h && (Alike(p.node, h[id].notified) <==> Alike(h[id].accepted, h[id].notified))
  {
    RunKeepsAll(EMPTY, calls, map[], w);
    var p, m := Run(EMPTY, calls).proxies[id], History(map[], EMPTY, calls)[id];
    assert Keeps(p, m, w);
    hide Alike;
    AlikeBack(p.node, m.accepted);
    if Alike(p.node, m.notified) {
      AlikeChain(m.accepted, p.node, m.notified);
    }
    if Alike(m.accepted, m.notified) {
      AlikeChain(p.node, m.accepted, m.notified);
    }
  }

  /** A tick dials only proxies whose first node was acceptable: one that upgrades while it is known stays refused. */
  lemma FirstVerdictDecides(calls: seq<Call>, w: World, id: Id)
    requires SameVersions(calls, w) && DialsOf(Dials(Run(EMPTY, calls), w), id)
    ensures var h := History(map[], EMPTY, calls); id in h && CheckAvailable(w, h[id].first)
  {
    TickDialsExactly(Run(EMPTY, calls), w, id);
    RunKeepsAll(EMPTY, calls, map[], w);
    assert Keeps(Run(EMPTY, calls).proxies[id], History(map[], EMPTY, calls)[id], w);
  }
}
