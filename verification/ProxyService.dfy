/** Every proxy that is due is dialled: what a disconnect schedules, and that a proxy that stays eligible and is left
    alone is dialled before its time is overdue by more than the bound of module ProxyDelays. */
module ProxyService {
  import opened Common
  import opened AddressRotation
  import opened ProxyManager
  import opened ProxyDelays

  // ---------------------------------------------------------------- what is scheduled

  /** A known proxy that is lost while the process is not stopping: its next action comes no earlier than the bus's
      retry interval from now, or one second without one, and a check with exactly that id and time is in the list.
      Nothing else about proxies changes, and no check goes. */
  lemma DisconnectSchedules(t: Table, w: World, id: Id)
    requires id in t.proxies && !w.stopping && NoLostWakeUp(t, w.now) && w.now > 0
    ensures var t' := Disconnected(t, w, id);
            var wait := if w.bus.Some? && w.bus.value.retryInterval > 0 then w.bus.value.retryInterval else 1;
            && id in t'.proxies && t'.proxies[id].nextAction >= w.now + wait
            && (t.proxies[id].nextAction <= w.now + wait ==> t'.proxies[id].nextAction == w.now + wait)
            && Check(t'.proxies[id].nextAction, id) in t'.checks
            && t'.proxies == t.proxies[id := t.proxies[id].(nextAction := t'.proxies[id].nextAction)]
            && t.checks <= t'.checks
  {}

  /** A node that is not skipped is to be looked at now, with its check in front. */
  lemma SetSchedules(t: Table, w: World, node: NodeInfo)
    requires node.id in t.proxies ==> t.proxies[node.id].nextAction < w.now
    ensures var t' := SetNode(t, w, node);
            && node.id in t'.proxies && t'.proxies[node.id].nextAction == w.now && t'.proxies[node.id].node == node
            && t'.checks == [Check(w.now, node.id)] + t.checks
  {}

  /** Without a bus node no due proxy is forgotten: it is looked at again a second later. */
  lemma NoBusDefers(s: Sweep, w: World)
    requires HasDue(s.table, w.now) && w.bus.None? && Acts(s.table, w.self, s.table.checks[0])
    ensures var id, t' := s.table.checks[0].id, SweepOne(s, w).table;
            && t'.proxies[id].nextAction == w.now + 1 && Check(w.now + 1, id) in t'.checks
            && SweepOne(s, w).dials == s.dials
  {
    var t' := SweepOne(s, w).table;
    assert t'.checks[|t'.checks| - 1] == Check(w.now + 1, s.table.checks[0].id);
  }

  /** A proxy that is dialled is looked at again after the bus's retry interval, at least a second later. */
  lemma {:induction false} DialledWaits(s: Sweep, w: World, id: Id)
    requires !DialsOf(s.dials, id) && DialsOf(Swept(s, w).dials, id)
    ensures w.bus.Some? && id in Swept(s, w).table.proxies
    ensures var wait := if w.bus.value.retryInterval > 0 then w.bus.value.retryInterval else 1;
            Swept(s, w).table.proxies[id].nextAction == w.now + wait
    decreases DueCount(s.table.checks, w.now)
  {
    var s' := SweepOne(s, w);
    if DialsOf(s'.dials, id) {
      SweepKeepsFuture(s', w, id);
    } else {
      DialledWaits(s', w, id);
    }
  }

  /** What a tick returns: how many of its connects did not fail at once. */
  lemma {:induction false} SuccessesAreCounted(dials: seq<Dial>, connect: string -> int)
    ensures Successes(dials, connect) == |set i | 0 <= i < |dials| && connect(dials[i].address) >= 0|
  {
    if dials != [] {
      var n := |dials| - 1;
      SuccessesAreCounted(dials[..n], connect);
      var before := set i | 0 <= i < |dials[..n]| && connect(dials[..n][i].address) >= 0;
      var all := set i | 0 <= i < |dials| && connect(dials[i].address) >= 0;
      assert all == before + if connect(dials[n].address) >= 0 then {n} else {};
    }
  }

  /** A node is eligible by its versions exactly when some protocol version suits both sides. */
  lemma AvailableIffVersionsMeet(w: World, node: NodeInfo)
    requires w.protocolMinVersion <= w.protocolVersion && node.protocolMinVersion <= node.protocolVersion
    ensures CheckAvailable(w, node)
            <==> exists v :: Speaks(w.protocolMinVersion, w.protocolVersion, v)
                             && Speaks(node.protocolMinVersion, node.protocolVersion, v)
  {
    if CheckAvailable(w, node) {
      var v := if w.protocolVersion <= node.protocolVersion then w.protocolVersion else node.protocolVersion;
      assert Speaks(w.protocolMinVersion, w.protocolVersion, v);
    }
  }

  predicate Speaks(from: nat, to: nat, v: nat) { from <= v <= to }

  // ---------------------------------------------------------------- who is dialled in a run

  /** The connects of all ticks of a run. */
  function RunDials(t: Table, calls: seq<Call>): seq<Dial>
    decreases |calls|
  {
    if calls == [] then []
    else
      (if calls[0].op.Tick? then Dials(t, calls[0].world) else []) + RunDials(Apply(t, calls[0]), calls[1..])
  }

  /** The call is no word of this proxy: no `set`, `remove` or disconnect of it, and no `reset`. */
  predicate LeavesAlone(call: Call, id: Id) {
    match call.op
    case Tick => true
    case Set(node) => node.id != id
    case Remove(i) => i != id
    case Reset(_) => false
    case Disconnect(i) => i != id
  }

  /** The tick may connect: there is a bus, and no endpoint for the proxy yet. */
  predicate MayConnect(w: World, id: Id) {
    w.bus.Some? && id !in w.bus.value.endpoints && id != w.self
  }

  predicate Ready(p: Proxy) { p.available && p.node.listens != [] }

  /** A tick that does not dial a proxy it could dial leaves it as it is. */
  lemma {:induction false} NotDialledIsUnchanged(s: Sweep, w: World, id: Id)
    requires id in s.table.proxies && Ready(s.table.proxies[id]) && MayConnect(w, id) && !DialsOf(s.dials, id)
    requires !DialsOf(Swept(s, w).dials, id)
    ensures id in Swept(s, w).table.proxies && Swept(s, w).table.proxies[id] == s.table.proxies[id]
    decreases DueCount(s.table.checks, w.now)
  {
    if HasDue(s.table, w.now) {
      var c, s' := s.table.checks[0], SweepOne(s, w);
      if c.id != id || c.timeout < s.table.proxies[id].nextAction {
        SweepOneKeepsWaiting(s, w, id);
      } else {
        assert s'.dials[|s.dials|] in s'.dials;
        SweepKeepsFuture(s', w, id);
        assert false;
      }
      NotDialledIsUnchanged(s', w, id);
    }
  }

  /** A proxy that is left alone, and could be dialled but is not, stays as it is. */
  lemma {:induction false} QuietRunKeeps(t: Table, calls: seq<Call>, id: Id)
    requires id in t.proxies && Ready(t.proxies[id])
    requires forall i :: 0 <= i < |calls| ==> LeavesAlone(calls[i], id) && MayConnect(calls[i].world, id)
    requires !DialsOf(RunDials(t, calls), id)
    ensures id in Run(t, calls).proxies && Run(t, calls).proxies[id] == t.proxies[id]
    decreases |calls|
  {
    if calls != [] {
      var w, t' := calls[0].world, Apply(t, calls[0]);
      var first := if calls[0].op.Tick? then Dials(t, w) else [];
      assert forall d :: d in first || d in RunDials(t', calls[1..]) ==> d in RunDials(t, calls);
      if calls[0].op.Tick? {
        NotDialledIsUnchanged(Sweep(t, []), w, id);
      }
      QuietRunKeeps(t', calls[1..], id);
    }
  }

  lemma {:induction false} RunParts(t: Table, a: seq<Call>, b: seq<Call>)
    ensures Run(t, a + b) == Run(Run(t, a), b)
    decreases |a|
  {
    if a == [] {
      assert a + b == b;
    } else {
      assert (a + b)[1..] == a[1..] + b;
      RunParts(Apply(t, a[0]), a[1..], b);
    }
  }

  /** In every run: a proxy that has a next action, may be dialled and is then left alone is dialled, if not before then
      by the first tick of a second that comes more than the retry interval and two seconds after that action was due.
      */
  lemma DueProxyIsDialled(before: seq<Call>, after: seq<Call>, w: World, r: int, id: Id)
    requires Clocked(1, before + after) && LastClock(1, before + after) < w.now
    requires AllPaced(before + after, w.self, r) && Paced(w, w.self, r)
    requires var t := Run(Table([], map[]), before);
             && id in t.proxies && Ready(t.proxies[id])
             && t.proxies[id].nextAction > 0 && t.proxies[id].nextAction + r + 2 < w.now
    requires forall i :: 0 <= i < |after| ==> LeavesAlone(after[i], id) && MayConnect(after[i].world, id)
    requires MayConnect(w, id)
    ensures var t := Run(Table([], map[]), before);
            DialsOf(RunDials(t, after), id) || DialsOf(Dials(Run(t, after), w), id)
  {
    var t := Run(Table([], map[]), before);
    RunParts(Table([], map[]), before, after);
    NoWakeUpIsLate(before + after, w, r);
    if !DialsOf(RunDials(t, after), id) {
      QuietRunKeeps(t, after, id);
      if !DialsOf(Dials(Run(t, after), w), id) {
        NotDialledIsUnchanged(Sweep(Run(t, after), []), w, id);
        assert false;
      }
    }
  }

  /** So a proxy that is lost, stays eligible and is left alone is dialled again. */
  lemma LostProxyIsDialled(before: seq<Call>, lost: Call, after: seq<Call>, w: World, r: int, id: Id)
    requires lost.op == Disconnect(id) && !lost.world.stopping
    requires Clocked(1, before + [lost] + after) && LastClock(1, before + [lost] + after) < w.now
    requires AllPaced(before + [lost] + after, w.self, r) && Paced(w, w.self, r)
    requires var t := Run(Table([], map[]), before);
             && id in t.proxies && Ready(t.proxies[id])
             && (var wait := if lost.world.bus.Some? && lost.world.bus.value.retryInterval > 0
                             then lost.world.bus.value.retryInterval else 1;
                 && t.proxies[id].nextAction <= lost.world.now + wait
                 && lost.world.now + wait + r + 2 < w.now)
    requires forall i :: 0 <= i < |after| ==> LeavesAlone(after[i], id) && MayConnect(after[i].world, id)
    requires MayConnect(w, id)
    ensures var t := Run(Table([], map[]), before + [lost]);
            DialsOf(RunDials(t, after), id) || DialsOf(Dials(Run(t, after), w), id)
  {
    var t := Run(Table([], map[]), before);
    RunParts(Table([], map[]), before, [lost]);
    assert [lost][1..] == [];
    assert Run(t, [lost]) == Disconnected(t, lost.world, id);
    ClockedFirst(1, before, lost, after);
    RunKeepsWakeUps(Table([], map[]), 1, before);
    assert NoLostWakeUp(t, lost.world.now);
    DisconnectSchedules(t, lost.world, id);
    DueProxyIsDialled(before + [lost], after, w, r, id);
  }

  lemma {:induction false} ClockedFirst(now: int, before: seq<Call>, call: Call, after: seq<Call>)
    requires Clocked(now, before + [call] + after) && now > 0
    ensures Clocked(now, before) && LastClock(now, before) <= call.world.now && call.world.now > 0
    decreases |before|
  {
    if before == [] {
      assert (before + [call] + after)[0] == call;
    } else {
      assert (before + [call] + after)[1..] == before[1..] + [call] + after;
      assert (before + [call] + after)[0] == before[0];
      ClockedFirst(before[0].world.now, before[1..], call, after);
      assert LastClock(now, before) == LastClock(before[0].world.now, before[1..]);
    }
  }
}
