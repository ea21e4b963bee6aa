/** The connection scheduler of `atproxy_manager.cpp`: a deque of checks with lazy cancellation through each proxy's
    `next_action_time`, drained once per tick. */
module ProxyManager {
  import opened Common
  import opened AddressRotation

  type Id = nat

  datatype NodeInfo = NodeInfo(
    id: Id, hostname: string, listens: seq<string>, protocolVersion: nat, protocolMinVersion: nat)

  datatype Check = Check(timeout: int, id: Id)

  datatype Proxy = Proxy(node: NodeInfo, nextAction: int, available: bool)

  /** The bus node: its retry interval and the ids it has an endpoint for. */
  datatype Bus = Bus(retryInterval: int, endpoints: set<Id>)

  /** What one call can see outside the manager. */
  datatype World = World(
    now: int,
    self: Id,
    bus: Option<Bus>,
    stopping: bool,
    protocolVersion: nat,
    protocolMinVersion: nat,
    reachable: (string, string) -> bool,   // is_remote_address_available(hostname, address)
    connect: string -> int)

  datatype Dial = Dial(id: Id, address: string)

  datatype Table = Table(checks: seq<Check>, proxies: map<Id, Proxy>)

  /** A tick under way: the table and the connects issued so far. */
  datatype Sweep = Sweep(table: Table, dials: seq<Dial>)

  predicate CheckAvailable(w: World, node: NodeInfo) {
    node.protocolVersion >= w.protocolMinVersion && w.protocolVersion >= node.protocolMinVersion
  }

  // ---------------------------------------------------------------- tick

  function DueCount(checks: seq<Check>, now: int): nat {
    if checks == [] then 0 else (if checks[0].timeout < now then 1 else 0) + DueCount(checks[1..], now)
  }

  lemma {:induction false} DueCountPush(checks: seq<Check>, c: Check, now: int)
    requires now <= c.timeout
    ensures DueCount(checks + [c], now) == DueCount(checks, now)
  {
    if checks == [] {
      assert (checks + [c])[1..] == [];
    } else {
      assert (checks + [c])[1..] == checks[1..] + [c];
      DueCountPush(checks[1..], c, now);
    }
  }

  predicate HasDue(t: Table, now: int) {
    t.checks != [] && t.checks[0].timeout < now
  }

  /** Time of the check that follows a connect. */
  function RetryAt(now: int, bus: Bus): (at: int)
    ensures at > now
  {
    if now + bus.retryInterval <= now then now + 1 else now + bus.retryInterval
  }

  function Reach(w: World, p: Proxy): string -> bool {
    address => w.reachable(p.node.hostname, address)
  }

  /** The proxy a due check acts on: known, not this process, with addresses, and not waiting for a later check. */
  predicate Acts(t: Table, self: Id, c: Check) {
    && c.id != self
    && c.id in t.proxies
    && t.proxies[c.id].node.listens != []
    && t.proxies[c.id].nextAction <= c.timeout
  }

  /** Handling the check in front of the list. */
  function SweepOne(s: Sweep, w: World): (s': Sweep)
    requires HasDue(s.table, w.now)
    ensures DueCount(s'.table.checks, w.now) < DueCount(s.table.checks, w.now)
  {
    var c, rest, proxies := s.table.checks[0], s.table.checks[1..], s.table.proxies;
    if !Acts(s.table, w.self, c) then s.(table := Table(rest, proxies))
    else
      var p := proxies[c.id];
      match w.bus
      case None =>
        var again := Check(w.now + 1, c.id);
        DueCountPush(rest, again, w.now);
        s.(table := Table(rest + [again], proxies[c.id := p.(nextAction := w.now + 1)]))
      case Some(bus) =>
        if c.id in bus.endpoints || !p.available then
          s.(table := Table(rest, proxies[c.id := p.(nextAction := 0)]))
        else
          var selected := Selected(p.node.listens, Reach(w, p));
          var again := Check(RetryAt(w.now, bus), c.id);
          DueCountPush(rest, again, w.now);
          Sweep(
            Table(rest + [again],
                  proxies[c.id := p.(nextAction := again.timeout, node := p.node.(listens := Next(selected)))]),
            s.dials + [Dial(c.id, selected[0])])
  }

  /** A whole tick. It pushes into the list it drains; the checks pushed are never due. */
  function Swept(s: Sweep, w: World): Sweep
    decreases DueCount(s.table.checks, w.now)
  {
    if HasDue(s.table, w.now) then Swept(SweepOne(s, w), w) else s
  }

  function Ticked(t: Table, w: World): Table { Swept(Sweep(t, []), w).table }

  function Dials(t: Table, w: World): seq<Dial> { Swept(Sweep(t, []), w).dials }

  lemma SweepOneAddsDials(s: Sweep, w: World)
    requires HasDue(s.table, w.now)
    ensures var one := SweepOne(s.(dials := []), w);
            SweepOne(s, w) == Sweep(one.table, s.dials + one.dials)
  {}

  /** Number of connects that did not fail at once: what `tick` returns. */
  function Successes(dials: seq<Dial>, connect: string -> int): nat {
    if dials == [] then 0
    else
      var n := |dials| - 1;
      Successes(dials[..n], connect) + if connect(dials[n].address) >= 0 then 1 else 0
  }

  // ---------------------------------------------------------------- the other operations

  function SetNode(t: Table, w: World, node: NodeInfo): Table {
    if node.id in t.proxies && t.proxies[node.id].nextAction >= w.now then t
    else
      var p := if node.id in t.proxies then t.proxies[node.id].(nextAction := w.now, node := node)
               else Proxy(node, w.now, CheckAvailable(w, node));
      Table([Check(w.now, node.id)] + t.checks, t.proxies[node.id := p])
  }

  function RemoveNode(t: Table, id: Id): Table {
    t.(proxies := t.proxies - {id})
  }

  function AddAll(t: Table, w: World, nodes: seq<NodeInfo>): Table
    decreases |nodes|
  {
    if nodes == [] then t
    else
      var n := nodes[0];
      var t' := if n.listens == [] then t
                else Table([Check(w.now, n.id)] + t.checks, t.proxies[n.id := Proxy(n, w.now, CheckAvailable(w, n))]);
      AddAll(t', w, nodes[1..])
  }

  function ResetNodes(w: World, nodes: seq<NodeInfo>): Table { AddAll(Table([], map[]), w, nodes) }

  function DisconnectedAt(w: World): int {
    if w.stopping then w.now - 1
    else if w.bus.Some? && w.bus.value.retryInterval > 0 then w.now + w.bus.value.retryInterval
    else w.now + 1
  }

  function Disconnected(t: Table, w: World, id: Id): Table {
    var at := DisconnectedAt(w);
    if id in t.proxies && t.proxies[id].nextAction < at then
      Table(t.checks + [Check(at, id)], t.proxies[id := t.proxies[id].(nextAction := at)])
    else t
  }

  // ---------------------------------------------------------------- the object

  class AtproxyManager {
    var checkList: seq<Check>
    var proxySet: map<Id, Proxy>

    ghost function View(): Table
      reads this
    {
      Table(checkList, proxySet)
    }

    constructor ()
      ensures View() == Table([], map[])
    {
      checkList, proxySet := [], map[];
    }

    /** The body of the tick loop for a due check; `dials` is the connect it issues, if any. */
    method HandleDueCheck(w: World) returns (dials: seq<Dial>)
      requires HasDue(View(), w.now)
      modifies this
      ensures Sweep(View(), dials) == SweepOne(Sweep(old(View()), []), w)
      ensures |dials| <= 1
    {
      dials := [];
      var ci := checkList[0];
      checkList := checkList[1..];
      if ci.id == w.self || ci.id !in proxySet {
        return;
      }
      var p := proxySet[ci.id];
      if p.node.listens == [] || p.nextAction > ci.timeout {
        return;
      }
      if w.bus.None? {
        ci := ci.(timeout := w.now + 1);
        proxySet := proxySet[ci.id := p.(nextAction := ci.timeout)];
        checkList := checkList + [ci];
        return;
      }
      var bus := w.bus.value;
      proxySet := proxySet[ci.id := p.(nextAction := 0)];
      if ci.id in bus.endpoints || !p.available {
        return;
      }
      var listens := SelectAddress(p.node.listens, Reach(w, p));
      dials := [Dial(ci.id, listens[0])];
      ci := ci.(timeout := w.now + bus.retryInterval);
      if ci.timeout <= w.now {
        ci := ci.(timeout := w.now + 1);
      }
      listens := NextListenAddress(listens);
      proxySet := proxySet[ci.id := p.(nextAction := ci.timeout, node := p.node.(listens := listens))];
      checkList := checkList + [ci];
    }

    method Tick(w: World) returns (ret: nat, dials: seq<Dial>)
      modifies this
      ensures View() == Ticked(old(View()), w) && dials == Dials(old(View()), w)
      ensures ret == Successes(dials, w.connect)
    {
      ret, dials := 0, [];
      while true
        invariant Swept(Sweep(View(), dials), w) == Swept(Sweep(old(View()), []), w)
        invariant ret == Successes(dials, w.connect)
        decreases DueCount(checkList, w.now)
      {
        if checkList == [] {
          break;
        }
        if w.now <= checkList[0].timeout {
          break;
        }
        ghost var before := Sweep(View(), dials);
        var issued := HandleDueCheck(w);
        SweepOneAddsDials(before, w);
        if issued != [] {
          if w.connect(issued[0].address) >= 0 {
            ret := ret + 1;
          }
          assert (dials + issued)[..|dials|] == dials;
        }
        dials := dials + issued;
      }
    }

    method Set(w: World, node: NodeInfo)
      modifies this
      ensures View() == SetNode(old(View()), w, node)
    {
      var ci := Check(w.now, node.id);
      if node.id in proxySet {
        if proxySet[node.id].nextAction >= ci.timeout {
          return;
        }
        proxySet := proxySet[node.id := proxySet[node.id].(nextAction := ci.timeout, node := node)];
      } else {
        proxySet := proxySet[node.id := Proxy(node, ci.timeout, CheckAvailable(w, node))];
      }
      checkList := [ci] + checkList;
    }

    method Remove(id: Id)
      modifies this
      ensures View() == RemoveNode(old(View()), id)
    {
      if id in proxySet {
        proxySet := proxySet - {id};
      }
    }

    method Reset(w: World, nodes: seq<NodeInfo>)
      modifies this
      ensures View() == ResetNodes(w, nodes)
    {
      proxySet := map[];
      checkList := [];
      for i := 0 to |nodes|
        invariant AddAll(View(), w, nodes[i..]) == ResetNodes(w, nodes)
      {
        var node := nodes[i];
        assert nodes[i..][1..] == nodes[i + 1..];
        if node.listens == [] {
          continue;
        }
        proxySet := proxySet[node.id := Proxy(node, w.now, CheckAvailable(w, node))];
        checkList := [Check(w.now, node.id)] + checkList;
      }
    }

    method OnDisconnected(w: World, id: Id)
      modifies this
      ensures View() == Disconnected(old(View()), w, id)
    {
      if id in proxySet {
        var at: int;
        if !w.stopping {
          if w.bus.Some? && w.bus.value.retryInterval > 0 {
            at := w.now + w.bus.value.retryInterval;
          } else {
            at := w.now + 1;
          }
        } else {
          at := w.now - 1;
        }
        if proxySet[id].nextAction < at {
          proxySet := proxySet[id := proxySet[id].(nextAction := at)];
          checkList := checkList + [Check(at, id)];
        }
      }
    }

    method OnWatcherNotify(w: World, node: NodeInfo, isDelete: bool)
      modifies this
      ensures View() == if isDelete then RemoveNode(old(View()), node.id) else SetNode(old(View()), w, node)
    {
      if isDelete {
        Remove(node.id);
      } else {
        Set(w, node);
      }
    }
  }

  // ---------------------------------------------------------------- no lost wake-up

  /** A proxy that is going to act no earlier than now has a check with exactly that id and time. */
  ghost predicate NoLostWakeUp(t: Table, now: int) {
    forall id :: id in t.proxies && t.proxies[id].nextAction >= now ==> Check(t.proxies[id].nextAction, id) in t.checks
  }

  lemma SweepOneKeepsWakeUps(s: Sweep, w: World)
    requires NoLostWakeUp(s.table, w.now) && w.now > 0 && HasDue(s.table, w.now)
    ensures NoLostWakeUp(SweepOne(s, w).table, w.now)
  {
    var t, t' := s.table, SweepOne(s, w).table;
    forall id | id in t'.proxies && t'.proxies[id].nextAction >= w.now
      ensures Check(t'.proxies[id].nextAction, id) in t'.checks
    {
      if t'.proxies[id] == t.proxies[id] {
        assert Check(t.proxies[id].nextAction, id) in t.checks[1..];
      } else {
        assert Check(t'.proxies[id].nextAction, id) == t'.checks[|t'.checks| - 1];
      }
    }
  }

  lemma {:induction false} TickKeepsWakeUps(s: Sweep, w: World)
    requires NoLostWakeUp(s.table, w.now) && w.now > 0
    ensures NoLostWakeUp(Swept(s, w).table, w.now)
    decreases DueCount(s.table.checks, w.now)
  {
    if HasDue(s.table, w.now) {
      SweepOneKeepsWakeUps(s, w);
      TickKeepsWakeUps(SweepOne(s, w), w);
    }
  }

  lemma {:induction false} AddAllKeepsWakeUps(t: Table, w: World, nodes: seq<NodeInfo>)
    requires NoLostWakeUp(t, w.now)
    ensures NoLostWakeUp(AddAll(t, w, nodes), w.now)
    decreases |nodes|
  {
    if nodes != [] {
      var n := nodes[0];
      AddAllKeepsWakeUps(
        if n.listens == [] then t
        else Table([Check(w.now, n.id)] + t.checks, t.proxies[n.id := Proxy(n, w.now, CheckAvailable(w, n))]),
        w, nodes[1..]);
    }
  }

  datatype Op = Tick | Set(node: NodeInfo) | Remove(id: Id) | Reset(nodes: seq<NodeInfo>) | Disconnect(id: Id)

  datatype Call = Call(op: Op, world: World)

  function Apply(t: Table, call: Call): Table {
    match call.op
    case Tick => Ticked(t, call.world)
    case Set(node) => SetNode(t, call.world, node)
    case Remove(id) => RemoveNode(t, id)
    case Reset(nodes) => ResetNodes(call.world, nodes)
    case Disconnect(id) => Disconnected(t, call.world, id)
  }

  function Run(t: Table, calls: seq<Call>): Table
    decreases |calls|
  {
    if calls == [] then t else Run(Apply(t, calls[0]), calls[1..])
  }

  /** The clock is positive and never goes back. */
  predicate Clocked(now: int, calls: seq<Call>)
    decreases |calls|
  {
    calls != [] ==> 0 < now <= calls[0].world.now && Clocked(calls[0].world.now, calls[1..])
  }

  function LastClock(now: int, calls: seq<Call>): int {
    if calls == [] then now else calls[|calls| - 1].world.now
  }

  lemma {:induction false} RunKeepsWakeUps(t: Table, now: int, calls: seq<Call>)
    requires NoLostWakeUp(t, now) && Clocked(now, calls)
    ensures NoLostWakeUp(Run(t, calls), LastClock(now, calls))
    decreases |calls|
  {
    if calls != [] {
      var w := calls[0].world;
      assert NoLostWakeUp(t, w.now);
      match calls[0].op {
        case Tick => TickKeepsWakeUps(Sweep(t, []), w);
        case Reset(nodes) => AddAllKeepsWakeUps(Table([], map[]), w, nodes);
        case Set(node) =>
        case Remove(id) =>
        case Disconnect(id) =>
      }
      RunKeepsWakeUps(Apply(t, calls[0]), w.now, calls[1..]);
    }
  }

  /** In every run from an empty manager, a `set` that is skipped because an action is pending finds that very
      check in the list. */
  lemma SkippedSetIsJustified(calls: seq<Call>, w: World, node: NodeInfo)
    requires Clocked(1, calls) && LastClock(1, calls) <= w.now
    ensures var t := Run(Table([], map[]), calls);
            SetNode(t, w, node) == t ==>
              node.id in t.proxies && Check(t.proxies[node.id].nextAction, node.id) in t.checks
              && t.proxies[node.id].nextAction >= w.now
  {
    var t := Run(Table([], map[]), calls);
    RunKeepsWakeUps(Table([], map[]), 1, calls);
    assert NoLostWakeUp(t, w.now);
    assert !(node.id in t.proxies && t.proxies[node.id].nextAction >= w.now) ==>
        |SetNode(t, w, node).checks| == |t.checks| + 1;
  }

  // ---------------------------------------------------------------- who is dialled in a tick

  /** Nobody is dialled twice: whoever was dialled now waits for a check after this tick. */
  ghost predicate DialledOnce(s: Sweep, now: int) {
    && (forall i, j :: 0 <= i < j < |s.dials| ==> s.dials[i].id != s.dials[j].id)
    && (forall d :: d in s.dials ==> d.id in s.table.proxies && s.table.proxies[d.id].nextAction > now)
  }

  lemma {:induction false} SweepDialsOnce(s: Sweep, w: World)
    requires DialledOnce(s, w.now)
    ensures DialledOnce(Swept(s, w), w.now)
    decreases DueCount(s.table.checks, w.now)
  {
    if HasDue(s.table, w.now) {
      var s' := SweepOne(s, w);
      forall d | d in s'.dials ensures d.id in s'.table.proxies && s'.table.proxies[d.id].nextAction > w.now {
        assert d in s.dials || d == s'.dials[|s.dials|];
      }
      SweepDialsOnce(s', w);
    }
  }

  /** One tick issues at most one connect per proxy, however many checks for it are queued. */
  lemma TickDialsOnce(t: Table, w: World)
    ensures forall i, j :: 0 <= i < j < |Dials(t, w)| ==> Dials(t, w)[i].id != Dials(t, w)[j].id
  {
    SweepDialsOnce(Sweep(t, []), w);
  }

  predicate Eligible(t: Table, w: World, id: Id) {
    && id != w.self
    && w.bus.Some? && id !in w.bus.value.endpoints
    && id in t.proxies && t.proxies[id].available && t.proxies[id].node.listens != []
  }

  /** A check for `id` no older than `at` stands in the list with nothing but due checks in front of it. */
  predicate Wakes(checks: seq<Check>, now: int, id: Id, at: int) {
    && checks != []
    && checks[0].timeout < now
    && ((checks[0].id == id && at <= checks[0].timeout) || Wakes(checks[1..], now, id, at))
  }

  lemma {:induction false} WakesIgnoresPushed(checks: seq<Check>, c: Check, now: int, id: Id, at: int)
    requires now <= c.timeout
    ensures Wakes(checks + [c], now, id, at) == Wakes(checks, now, id, at)
  {
    if checks != [] {
      assert (checks + [c])[1..] == checks[1..] + [c];
      WakesIgnoresPushed(checks[1..], c, now, id, at);
    }
  }

  ghost predicate DialsOf(dials: seq<Dial>, id: Id) {
    exists d :: d in dials && d.id == id
  }

  /** A check that does not make `id` act leaves it alone. */
  lemma SweepOneKeepsWaiting(s: Sweep, w: World, id: Id)
    requires HasDue(s.table, w.now)
    requires var c := s.table.checks[0];
             c.id != id || id !in s.table.proxies || c.timeout < s.table.proxies[id].nextAction
    ensures var s' := SweepOne(s, w);
            && (id in s'.table.proxies <==> id in s.table.proxies)
            && (id in s.table.proxies ==> s'.table.proxies[id] == s.table.proxies[id])
            && (DialsOf(s'.dials, id) <==> DialsOf(s.dials, id))
            && forall at :: Wakes(s'.table.checks, w.now, id, at) == Wakes(s.table.checks[1..], w.now, id, at)
  {
    var s' := SweepOne(s, w);
    if |s'.dials| > |s.dials| {
      assert forall d :: d in s'.dials <==> d in s.dials || d == s'.dials[|s.dials|];
    }
    forall at ensures Wakes(s'.table.checks, w.now, id, at) == Wakes(s.table.checks[1..], w.now, id, at) {
      if |s'.table.checks| == |s.table.checks| {
        WakesIgnoresPushed(s.table.checks[1..], s'.table.checks[|s'.table.checks| - 1], w.now, id, at);
      }
    }
  }

  /** A proxy waiting for a check after this tick is left alone for the rest of it. */
  lemma {:induction false} SweepKeepsFuture(s: Sweep, w: World, id: Id)
    requires id in s.table.proxies && s.table.proxies[id].nextAction > w.now
    ensures var s' := Swept(s, w);
            && id in s'.table.proxies && s'.table.proxies[id] == s.table.proxies[id]
            && s.dials <= s'.dials
    decreases DueCount(s.table.checks, w.now)
  {
    if HasDue(s.table, w.now) {
      SweepOneKeepsWaiting(s, w, id);
      SweepKeepsFuture(SweepOne(s, w), w, id);
    }
  }

  /** Once it acts without being eligible, a proxy is not dialled later in the tick either. */
  lemma {:induction false} SweepNeverDialsIneligible(s: Sweep, w: World, id: Id)
    requires !Eligible(s.table, w, id) && !DialsOf(s.dials, id)
    ensures !DialsOf(Swept(s, w).dials, id)
    decreases DueCount(s.table.checks, w.now)
  {
    if HasDue(s.table, w.now) {
      var s' := SweepOne(s, w);
      if |s'.dials| > |s.dials| {
        assert forall d :: d in s'.dials <==> d in s.dials || d == s'.dials[|s.dials|];
      }
      SweepNeverDialsIneligible(s', w, id);
    }
  }

  ghost predicate DialledFairly(p: Proxy, id: Id, w: World, s: Sweep) {
    && p.node.listens != []
    && Dial(id, Selected(p.node.listens, Reach(w, p))[0]) in s.dials
    && id in s.table.proxies
    && s.table.proxies[id].node.listens == AfterDial(p.node.listens, Reach(w, p))
    && s.table.proxies[id].nextAction > w.now
  }

  lemma {:induction false} SweepDialsExactly(s: Sweep, w: World, id: Id)
    requires !DialsOf(s.dials, id)
    ensures DialsOf(Swept(s, w).dials, id)
            <==> Eligible(s.table, w, id) && Wakes(s.table.checks, w.now, id, s.table.proxies[id].nextAction)
    ensures DialsOf(Swept(s, w).dials, id) ==> DialledFairly(s.table.proxies[id], id, w, Swept(s, w))
    decreases DueCount(s.table.checks, w.now)
  {
    if HasDue(s.table, w.now) {
      var c, s' := s.table.checks[0], SweepOne(s, w);
      if c.id != id || id !in s.table.proxies || c.timeout < s.table.proxies[id].nextAction {
        SweepOneKeepsWaiting(s, w, id);
        SweepDialsExactly(s', w, id);
      } else if Eligible(s.table, w, id) {
        assert s'.dials[|s.dials|] in s'.dials;
        SweepKeepsFuture(s', w, id);
      } else {
        SweepNeverDialsIneligible(s, w, id);
      }
    }
  }

  /** A tick dials a proxy if and only if it may be dialled and a check no older than its next action is reached; it
      dials the first reachable address, leaves the next one in front and waits for a later check. */
  lemma TickDialsExactly(t: Table, w: World, id: Id)
    ensures DialsOf(Dials(t, w), id)
            <==> Eligible(t, w, id) && Wakes(t.checks, w.now, id, t.proxies[id].nextAction)
    ensures DialsOf(Dials(t, w), id) ==> DialledFairly(t.proxies[id], id, w, Swept(Sweep(t, []), w))
  {
    SweepDialsExactly(Sweep(t, []), w, id);
  }

  /** What a wake-up needs to be served: nothing in front of its check that is not due. */
  lemma {:induction false} ReachedCheckWakes(checks: seq<Check>, now: int, id: Id, at: int, j: nat)
    requires j < |checks| && checks[j].id == id && at <= checks[j].timeout
    requires forall i :: 0 <= i <= j ==> checks[i].timeout < now
    ensures Wakes(checks, now, id, at)
    decreases j
  {
    if j > 0 {
      ReachedCheckWakes(checks[1..], now, id, at, j - 1);
    }
  }
}
