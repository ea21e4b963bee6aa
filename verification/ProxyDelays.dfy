/** How late the proxy scheduler can be. Its list is not sorted, so a check that is not due holds up those behind it;
    but nothing in the list is further ahead than the retry interval. */
module ProxyDelays {
  import opened Common
  import opened AddressRotation
  import opened ProxyManager

  /** Calls of one process whose retry interval is at most `r`. */
  predicate Paced(w: World, self: Id, r: int) {
    w.self == self && r >= 1 && (w.bus.Some? ==> w.bus.value.retryInterval <= r)
  }

  predicate AllPaced(calls: seq<Call>, self: Id, r: int) {
    forall i :: 0 <= i < |calls| ==> Paced(calls[i].world, self, r)
  }

  // ---------------------------------------------------------------- what waits has a check

  /** A proxy that may act and has a next action has a check with exactly that time, however old. */
  ghost predicate Attended(t: Table, self: Id) {
    forall id :: id in t.proxies && id != self && t.proxies[id].node.listens != [] && t.proxies[id].nextAction > 0 ==>
      Check(t.proxies[id].nextAction, id) in t.checks
  }

  lemma SweepOneKeepsAttended(s: Sweep, w: World)
    requires HasDue(s.table, w.now) && Attended(s.table, w.self)
    ensures Attended(SweepOne(s, w).table, w.self)
  {
    var t, t' := s.table, SweepOne(s, w).table;
    forall id | id in t'.proxies && id != w.self && t'.proxies[id].node.listens != [] && t'.proxies[id].nextAction > 0
      ensures Check(t'.proxies[id].nextAction, id) in t'.checks
    {
      if t'.proxies[id] == t.proxies[id] && Check(t.proxies[id].nextAction, id) != t.checks[0] {
        assert Check(t.proxies[id].nextAction, id) in t.checks[1..];
      } else {
        assert t'.checks[|t'.checks| - 1] == Check(t'.proxies[id].nextAction, id);
      }
    }
  }

  lemma {:induction false} TickKeepsAttended(s: Sweep, w: World)
    requires Attended(s.table, w.self)
    ensures Attended(Swept(s, w).table, w.self)
    decreases DueCount(s.table.checks, w.now)
  {
    if HasDue(s.table, w.now) {
      SweepOneKeepsAttended(s, w);
      TickKeepsAttended(SweepOne(s, w), w);
    }
  }

  lemma {:induction false} AddAllKeepsAttended(t: Table, w: World, nodes: seq<NodeInfo>)
    requires Attended(t, w.self)
    ensures Attended(AddAll(t, w, nodes), w.self)
    decreases |nodes|
  {
    if nodes != [] {
      var n := nodes[0];
      AddAllKeepsAttended(
        if n.listens == [] then t
        else Table([Check(w.now, n.id)] + t.checks, t.proxies[n.id := Proxy(n, w.now, CheckAvailable(w, n))]),
        w, nodes[1..]);
    }
  }

  lemma ApplyKeepsAttended(t: Table, call: Call)
    requires Attended(t, call.world.self)
    ensures Attended(Apply(t, call), call.world.self)
  {
    match call.op
    case Tick => TickKeepsAttended(Sweep(t, []), call.world);
    case Reset(nodes) => AddAllKeepsAttended(Table([], map[]), call.world, nodes);
    case _ =>
  }

  // ---------------------------------------------------------------- nothing is far ahead

  predicate NoneAhead(checks: seq<Check>, upTo: int) {
    forall i :: 0 <= i < |checks| ==> checks[i].timeout <= upTo
  }

  lemma {:induction false} TickKeepsNoneAhead(s: Sweep, w: World, r: int)
    requires NoneAhead(s.table.checks, w.now + r) && Paced(w, w.self, r)
    ensures NoneAhead(Swept(s, w).table.checks, w.now + r)
    decreases DueCount(s.table.checks, w.now)
  {
    if HasDue(s.table, w.now) {
      TickKeepsNoneAhead(SweepOne(s, w), w, r);
    }
  }

  lemma {:induction false} AddAllKeepsNoneAhead(t: Table, w: World, nodes: seq<NodeInfo>, r: int)
    requires NoneAhead(t.checks, w.now + r) && r >= 1
    ensures NoneAhead(AddAll(t, w, nodes).checks, w.now + r)
    decreases |nodes|
  {
    if nodes != [] {
      var n := nodes[0];
      AddAllKeepsNoneAhead(
        if n.listens == [] then t
        else Table([Check(w.now, n.id)] + t.checks, t.proxies[n.id := Proxy(n, w.now, CheckAvailable(w, n))]),
        w, nodes[1..], r);
    }
  }

  lemma ApplyKeepsNoneAhead(t: Table, call: Call, r: int)
    requires NoneAhead(t.checks, call.world.now + r) && Paced(call.world, call.world.self, r)
    ensures NoneAhead(Apply(t, call).checks, call.world.now + r)
  {
    match call.op
    case Tick => TickKeepsNoneAhead(Sweep(t, []), call.world, r);
    case Reset(nodes) => AddAllKeepsNoneAhead(Table([], map[]), call.world, nodes, r);
    case _ =>
  }

  // ---------------------------------------------------------------- old checks leave the list

  /** The list at some time: what was pushed to the front since `since`, what was there then, and what was pushed to the
      back since. */
  datatype Split = Split(front: seq<Check>, rest: seq<Check>, back: seq<Check>)

  ghost predicate Splits(checks: seq<Check>, s: Split, since: int, now: int, r: int) {
    && checks == s.front + s.rest + s.back
    && (forall i :: 0 <= i < |s.front| ==> since <= s.front[i].timeout <= now)
    && NoneAhead(s.rest, since + r)
    && (forall i :: 0 <= i < |s.back| ==> since - 1 <= s.back[i].timeout)
  }

  lemma PopSplit(checks: seq<Check>, s: Split, since: int, now: int, r: int) returns (s': Split)
    requires checks != [] && Splits(checks, s, since, now, r)
    ensures Splits(checks[1..], s', since, now, r)
  {
    if s.front != [] {
      s' := s.(front := s.front[1..]);
    } else if s.rest != [] {
      s' := s.(rest := s.rest[1..]);
    } else {
      s' := s.(back := s.back[1..]);
    }
  }

  lemma PushBackSplit(checks: seq<Check>, s: Split, c: Check, since: int, now: int, r: int) returns (s': Split)
    requires Splits(checks, s, since, now, r) && since - 1 <= c.timeout
    ensures Splits(checks + [c], s', since, now, r)
  {
    s' := s.(back := s.back + [c]);
  }

  lemma PushFrontSplit(checks: seq<Check>, s: Split, c: Check, since: int, now: int, r: int) returns (s': Split)
    requires Splits(checks, s, since, now, r) && since <= c.timeout <= now
    ensures Splits([c] + checks, s', since, now, r)
  {
    s' := s.(front := [c] + s.front);
  }

  lemma SweepOneSplit(sw: Sweep, w: World, s: Split, since: int, now: int, r: int) returns (s': Split)
    requires HasDue(sw.table, w.now) && Splits(sw.table.checks, s, since, now, r) && since <= w.now
    ensures Splits(SweepOne(sw, w).table.checks, s', since, now, r)
  {
    s' := PopSplit(sw.table.checks, s, since, now, r);
    var checks' := SweepOne(sw, w).table.checks;
    if |checks'| == |sw.table.checks| {
      s' := PushBackSplit(sw.table.checks[1..], s', checks'[|checks'| - 1], since, now, r);
    }
  }

  lemma {:induction false} SweepSplit(sw: Sweep, w: World, s: Split, since: int, now: int, r: int) returns (s': Split)
    requires Splits(sw.table.checks, s, since, now, r) && since <= w.now
    ensures Splits(Swept(sw, w).table.checks, s', since, now, r) && !HasDue(Swept(sw, w).table, w.now)
    decreases DueCount(sw.table.checks, w.now)
  {
    s' := s;
    if HasDue(sw.table, w.now) {
      s' := SweepOneSplit(sw, w, s, since, now, r);
      s' := SweepSplit(SweepOne(sw, w), w, s', since, now, r);
    }
  }

  lemma {:induction false} AddAllSplit(t: Table, w: World, nodes: seq<NodeInfo>, s: Split, since: int, r: int)
    returns (s': Split)
    requires Splits(t.checks, s, since, w.now, r) && since <= w.now
    ensures Splits(AddAll(t, w, nodes).checks, s', since, w.now, r)
    decreases |nodes|
  {
    s' := s;
    if nodes != [] {
      var n := nodes[0];
      if n.listens != [] {
        s' := PushFrontSplit(t.checks, s, Check(w.now, n.id), since, w.now, r);
      }
      s' := AddAllSplit(
        if n.listens == [] then t
        else Table([Check(w.now, n.id)] + t.checks, t.proxies[n.id := Proxy(n, w.now, CheckAvailable(w, n))]),
        w, nodes[1..], s', since, r);
    }
  }

  lemma ApplySplit(t: Table, call: Call, s: Split, since: int, now: int, r: int) returns (s': Split)
    requires Splits(t.checks, s, since, now, r) && since <= call.world.now && now <= call.world.now
    ensures Splits(Apply(t, call).checks, s', since, call.world.now, r)
  {
    var w := call.world;
    s' := s;
    match call.op
    case Tick => s' := SweepSplit(Sweep(t, []), w, s, since, w.now, r);
    case Set(node) =>
      if SetNode(t, w, node) != t { s' := PushFrontSplit(t.checks, s, Check(w.now, node.id), since, w.now, r); }
    case Remove(id) =>
    case Reset(nodes) => s' := AddAllSplit(Table([], map[]), w, nodes, Split([], [], []), since, r);
    case Disconnect(id) =>
      if Disconnected(t, w, id) != t {
        s' := PushBackSplit(t.checks, s, Check(DisconnectedAt(w), id), since, w.now, r);
      }
  }

  /** The calls since `since`. */
  lemma {:induction false} RunSplit(t: Table, now: int, calls: seq<Call>, s: Split, since: int, r: int)
    returns (s': Split)
    requires Splits(t.checks, s, since, now, r) && Clocked(now, calls) && (calls != [] ==> since <= calls[0].world.now)
    ensures Splits(Run(t, calls).checks, s', since, LastClock(now, calls), r)
    decreases |calls|
  {
    s' := s;
    if calls != [] {
      var w := calls[0].world;
      s' := ApplySplit(t, calls[0], s, since, now, r);
      s' := RunSplit(Apply(t, calls[0]), w.now, calls[1..], s', since, r);
      assert LastClock(now, calls) == LastClock(w.now, calls[1..]);
    }
  }

  // ---------------------------------------------------------------- the bound

  /** No check in the list, and no next action of a proxy that may act, is older. */
  ghost predicate NoneOverdue(t: Table, self: Id, oldest: int) {
    && (forall i :: 0 <= i < |t.checks| ==> oldest <= t.checks[i].timeout)
    && (forall id :: id in t.proxies && id != self && t.proxies[id].node.listens != []
                     && t.proxies[id].nextAction > 0 ==>
          oldest <= t.proxies[id].nextAction)
  }

  lemma TickClears(t: Table, s: Split, w: World, since: int, now: int, r: int)
    requires Splits(t.checks, s, since, now, r) && Attended(t, w.self) && now < w.now && since + r < w.now
    requires r >= 1
    ensures NoneOverdue(Ticked(t, w), w.self, since - 1)
  {
    var s' := SweepSplit(Sweep(t, []), w, s, since, now, r);
    var t' := Ticked(t, w);
    TickKeepsAttended(Sweep(t, []), w);
    if s'.front + s'.rest != [] {
      FirstIsDue(t'.checks, s', since, now, w.now, r);
      assert false;
    }
    assert t'.checks == s'.back;
  }

  lemma FirstIsDue(checks: seq<Check>, s: Split, since: int, now: int, later: int, r: int)
    requires Splits(checks, s, since, now, r) && now < later && since + r < later && s.front + s.rest != []
    ensures checks != [] && checks[0].timeout < later
  {
    assert checks[0] == (s.front + s.rest)[0];
    assert (s.front + s.rest)[0] == if s.front != [] then s.front[0] else s.rest[0];
  }

  /** In a run that goes on for longer than the retry interval, the calls before and after some time. */
  lemma {:induction false} RunTo(t: Table, now: int, calls: seq<Call>, w: World, since: int, r: int)
    requires Clocked(now, calls) && AllPaced(calls, w.self, r) && Paced(w, w.self, r)
    requires Attended(t, w.self) && NoneAhead(t.checks, now + r) && LastClock(now, calls) < w.now
    requires (now <= since || t.checks == []) && since + r < w.now
    ensures NoneOverdue(Ticked(Run(t, calls), w), w.self, since - 1)
    decreases |calls|
  {
    if calls == [] || calls[0].world.now > since {
      var s := RunSplit(t, now, calls, Split([], t.checks, []), since, r);
      RunKeepsAttended(t, calls, w.self, r);
      TickClears(Run(t, calls), s, w, since, LastClock(now, calls), r);
    } else {
      var next := calls[0].world.now;
      ApplyKeepsAttended(t, calls[0]);
      assert NoneAhead(t.checks, next + r);
      ApplyKeepsNoneAhead(t, calls[0], r);
      assert LastClock(now, calls) == LastClock(next, calls[1..]);
      RunTo(Apply(t, calls[0]), next, calls[1..], w, since, r);
    }
  }

  lemma {:induction false} RunKeepsAttended(t: Table, calls: seq<Call>, self: Id, r: int)
    requires Attended(t, self) && AllPaced(calls, self, r)
    ensures Attended(Run(t, calls), self)
    decreases |calls|
  {
    if calls != [] {
      ApplyKeepsAttended(t, calls[0]);
      RunKeepsAttended(Apply(t, calls[0]), calls[1..], self, r);
    }
  }

  /** In every run with a retry interval of at most `r`, the first tick of a second leaves no check and no next action
      of a proxy that may act overdue by more than `r` + 2: whatever was queued, and wherever, has been looked at. */
  lemma NoWakeUpIsLate(calls: seq<Call>, w: World, r: int)
    requires Clocked(1, calls) && LastClock(1, calls) < w.now && AllPaced(calls, w.self, r) && Paced(w, w.self, r)
    ensures NoneOverdue(Ticked(Run(Table([], map[]), calls), w), w.self, w.now - r - 2)
  {
    RunTo(Table([], map[]), 1, calls, w, w.now - r - 1, r);
  }
}
