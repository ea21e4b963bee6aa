/** Nothing is left lying: a member whose check has not run is being checked or waits for a retry, and a tick takes up
    everything that waits. */
module Pursuit {
  import opened Common
  import opened Keepalives
  import opened Cluster

  /** Its check has run, or a request is in flight. */
  predicate Moving(k: Keepalive) { k.checkRun || k.request != NoRequest }

  /** Every member of a cluster with a lease has had its check, or is in flight, or is to be retried. */
  ghost predicate Pursued(c: Cluster) {
    && Listed(c) && (c.closing ==> c.lease == 0) && (c.lease != 0 ==> c.running)
    && (c.lease != 0 ==> forall id :: id in c.actors ==> Moving(c.keepalives[id]) || id in c.retry)
  }

  lemma ProcessMoves(k: Keepalive, lease: int, launch: Launch)
    ensures var p := Process(k, lease, false, launch);
            && (Moving(k) ==> Moving(p.keepalive)) && (!p.needRetry ==> Moving(p.keepalive))
            && (launch == Started && lease != 0 ==> !p.needRetry && Moving(p.keepalive))
  {}

  lemma ActivateMoves(c: Cluster, i: Id, launch: Launch)
    requires i in c.keepalives && !c.closing
    ensures var c' := Activate(c, i, launch);
            && (Moving(c'.keepalives[i]) || i in c'.retry)
            && (launch == Started && c.lease != 0 ==> Moving(c'.keepalives[i]))
            && (forall id :: id in c.keepalives && Moving(c.keepalives[id]) ==> Moving(c'.keepalives[id]))
            && (forall id :: id in c.retry ==> id in c'.retry)
  {
    hide Process;
    ProcessMoves(c.keepalives[i], c.lease, launch);
  }

  lemma ActivateKeepsPursued(c: Cluster, i: Id, launch: Launch)
    requires i in c.keepalives && !c.closing && Listed(c) && c.running
    requires c.lease != 0 ==> forall id :: id in c.actors && id != i ==> Moving(c.keepalives[id]) || id in c.retry
    ensures Pursued(Activate(c, i, launch))
  {
    hide Moving;
    ActivateMoves(c, i, launch);
    AnyStep(c, i, launch);
  }

  lemma AnyStep(c: Cluster, i: Id, launch: Launch)
    requires i in c.keepalives && Listed(c)
    ensures Listed(Activate(c, i, launch)) && Activate(c, i, launch).actors == c.actors
    ensures var c' := Activate(c, i, launch); c'.closing == c.closing && c'.lease == c.lease && c'.running == c.running
    ensures Activate(c, i, launch).keepalives.Keys == c.keepalives.Keys
  {
    hide Process;
  }

  /** After a republish of several all of them move or are to be retried, and the others are no worse. */
  lemma {:induction false} RepublishAllMoves(c: Cluster, ids: seq<Id>, launches: Launches)
    requires !c.closing && forall id :: id in ids ==> id in c.keepalives
    ensures var c' := RepublishAll(c, ids, launches);
            && !c'.closing
            && (forall id :: id in c.keepalives && Moving(c.keepalives[id]) ==> Moving(c'.keepalives[id]))
            && (forall id :: id in c.retry ==> id in c'.retry)
            && (forall id :: id in ids ==> Moving(c'.keepalives[id]) || id in c'.retry)
            && (forall id :: id in ids && launches(id) == Started && c.lease != 0 ==> Moving(c'.keepalives[id]))
    decreases |ids|
  {
    hide Moving, Activate;
    if ids != [] {
      ResetMoves(c.keepalives[ids[0]]);
      ActivateMoves(Update(c, ids[0], c.keepalives[ids[0]].(valueChanged := true)), ids[0], launches(ids[0]));
      RepublishAllMoves(Republish(c, ids[0], launches(ids[0])), ids[1..], launches);
    }
  }

  lemma ResetMoves(k: Keepalive)
    ensures Moving(k.(valueChanged := true)) == Moving(k)
  {}

  // ---------------------------------------------------------------- sweeps

  /** A sweep loses the check of no member: those it cannot start are not among the waiting. */
  ghost predicate SweepMoves(c: Cluster, launches: Launches)
    requires Listed(c)
  {
    c.lease != 0 ==>
      forall id :: id in c.retry && id in c.actors && !Moving(c.keepalives[id]) && c.keepalives[id].checker.Some? ==>
        launches(id) == Started
  }

  lemma ProcessWithoutChecker(k: Keepalive, lease: int, launch: Launch)
    requires k.checker.None? || Moving(k)
    ensures Moving(Process(k, lease, false, launch).keepalive)
  {}

  lemma {:induction false} RepublishAllOn(c: Cluster, ids: seq<Id>, launches: Launches, id: Id)
    requires c.lease != 0 && !c.closing && id in ids && forall i :: i in ids ==> i in c.keepalives
    requires Moving(c.keepalives[id]) || c.keepalives[id].checker.None? || launches(id) == Started
    ensures Moving(RepublishAll(c, ids, launches).keepalives[id])
    decreases |ids|
  {
    hide Moving, Process;
    var k := c.keepalives[ids[0]].(valueChanged := true);
    var c1 := Republish(c, ids[0], launches(ids[0]));
    RepublishTouchesOne(c, ids[0], launches(ids[0]));
    ResetMoves(c.keepalives[ids[0]]);
    if ids[0] == id {
      ProcessMoves(k, c.lease, launches(id));
      if Moving(k) || k.checker.None? { ProcessWithoutChecker(k, c.lease, launches(id)); }
      RepublishAllMoves(c1, ids[1..], launches);
    } else {
      RepublishAllOn(c1, ids[1..], launches, id);
    }
  }

  /** A sweep leaves every member pursued if and only if it starts the check of each that waits for one. */
  lemma SweepIsPursuedIff(c: Cluster, launches: Launches)
    requires Pursued(c)
    ensures Pursued(Sweep(c, launches)) <==> SweepMoves(c, launches)
  {
    hide Process;
    if c.lease != 0 {
      var c' := Sweep(c, launches);
      RepublishAllMoves(c, c.retry, launches);
      forall id | id in c.actors && id in c.retry
        ensures Moving(c'.keepalives[id]) <==>
                (!Moving(c.keepalives[id]) && c.keepalives[id].checker.Some? ==> launches(id) == Started)
      {
        if !Moving(c.keepalives[id]) && c.keepalives[id].checker.Some? && launches(id) != Started {
          RepublishAllFails(c, c.retry, launches, id);
        } else {
          RepublishAllOn(c, c.retry, launches, id);
        }
      }
    }
  }

  lemma FailedProcess(k: Keepalive, lease: int, launch: Launch)
    requires !Moving(k) && k.checker.Some? && launch != Started
    ensures var k' := Process(k, lease, false, launch).keepalive; !Moving(k') && k'.checker == k.checker
  {}

  lemma {:induction false} RepublishAllFails(c: Cluster, ids: seq<Id>, launches: Launches, id: Id)
    requires !c.closing && id in c.keepalives && forall i :: i in ids ==> i in c.keepalives
    requires !Moving(c.keepalives[id]) && c.keepalives[id].checker.Some? && launches(id) != Started
    ensures !Moving(RepublishAll(c, ids, launches).keepalives[id])
    decreases |ids|
  {
    hide Moving, Process;
    if ids != [] {
      RepublishTouchesOne(c, ids[0], launches(ids[0]));
      ResetMoves(c.keepalives[ids[0]]);
      if ids[0] == id { FailedProcess(c.keepalives[id].(valueChanged := true), c.lease, launches(id)); }
      RepublishAllFails(Republish(c, ids[0], launches(ids[0])), ids[1..], launches, id);
    }
  }

  /** What waits is taken up: after a tick that can reach the server, with requests that start, every keepalive of the
      retry list has a request in flight, or its check was answered and there is nothing to put. */
  lemma TickTakesUp(c: Cluster, launches: Launches, id: Id)
    requires Listed(c) && !c.closing && c.lease != 0 && id in c.retry && launches(id) == Started
    ensures var c' := Tick(c, true, launches);
            && c'.retry == [] && id in c'.keepalives
            && TakenUp(c'.keepalives[id])
  {
    hide Process;
    RepublishAllStarts(c.(running := c.running || !c.enableLease), c.retry, launches, id);
  }

  /** A request is in flight, or its check was answered and refused. */
  predicate TakenUp(k: Keepalive) { k.request != NoRequest || (k.checkRun && !k.checkPassed) }

  lemma StartedProcess(k: Keepalive, lease: int)
    requires lease != 0
    ensures TakenUp(Process(k.(valueChanged := true), lease, false, Started).keepalive)
  {}

  lemma {:induction false} RepublishAllStarts(c: Cluster, ids: seq<Id>, launches: Launches, id: Id)
    requires c.lease != 0 && !c.closing && id in ids && launches(id) == Started
    requires forall i :: i in ids ==> i in c.keepalives
    ensures TakenUp(RepublishAll(c, ids, launches).keepalives[id])
    decreases |ids|
  {
    hide TakenUp, Process;
    RepublishTouchesOne(c, ids[0], launches(ids[0]));
    var c1 := Republish(c, ids[0], launches(ids[0]));
    if id in ids[1..] {
      RepublishAllStarts(c1, ids[1..], launches, id);
    } else {
      StartedProcess(c.keepalives[id], c.lease);
      NotTouched(c1, ids[1..], launches, id);
    }
  }

  lemma {:induction false} NotTouched(c: Cluster, ids: seq<Id>, launches: Launches, id: Id)
    requires id in c.keepalives && id !in ids && forall i :: i in ids ==> i in c.keepalives
    ensures RepublishAll(c, ids, launches).keepalives[id] == c.keepalives[id]
    decreases |ids|
  {
    hide Process;
    if ids != [] {
      RepublishTouchesOne(c, ids[0], launches(ids[0]));
      NotTouched(Republish(c, ids[0], launches(ids[0])), ids[1..], launches, id);
    }
  }

  // ---------------------------------------------------------------- runs

  /** What the pursuit relies on: a member is closed by being removed, and no sweep loses a check. */
  ghost predicate Careful(c: Cluster, step: Step)
    requires Listed(c)
  {
    match step
    case CloseOne(id, _) => c.lease != 0 ==> id !in c.actors || id in c.retry
    case AnswerLease(lease, force, launches, sweep) =>
      c.closing || SweepMoves(BeforeSweep(c, lease, force, launches), sweep)
    case TickNow(ready, sweep) => !ready || SweepMoves(c, sweep)
    case _ => true
  }

  lemma SetLeaseKeepsPursued(c: Cluster, lease: int, force: bool, launches: Launches, sweep: Launches)
    requires Pursued(c) && !c.closing && SweepMoves(BeforeSweep(c, lease, force, launches), sweep)
    ensures Pursued(SetLease(c, lease, force, launches, sweep))
  {
    hide Sweep, Moving, SweepMoves;
    if c.lease == lease && !force && lease != 0 {
      SweepIsPursuedIff(c.(running := true), sweep);
    } else if lease != 0 {
      var c2 := c.(lease := lease, running := true, retry := []);
      RepublishAllMoves(c2, c.actors, launches);
      SweepIsPursuedIff(RepublishAll(c2, c.actors, launches), sweep);
    }
  }

  lemma AnswerKeepsPursued(c: Cluster, id: Id, reply: GetReply, ok: bool, launch: Launch)
    requires Pursued(c) && id in c.keepalives
    ensures c.keepalives[id].request.Get? ==> Pursued(GetDone(c, id, reply, launch))
    ensures c.keepalives[id].request.Put? && c.keepalives[id].checkRun ==> Pursued(PutDone(c, id, ok, launch))
  {
    hide Process;
    var k := c.keepalives[id];
    if k.request.Get? && reply.GetOk? {
      var checked := Update(c, id, Checked(k.(request := NoRequest), reply.content));
      if c.running && !c.closing { ActivateKeepsPursued(checked, id, launch); } else { AnyStep(checked, id, launch); }
    }
    if k.request.Put? && k.checkRun && ok {
      var acked := Some(Published(k.request.value, k.request.lease));
      var done := Update(c, id, k.(request := NoRequest, hasData := true, acked := acked));
      if c.running && !c.closing { ActivateKeepsPursued(done, id, launch); } else { AnyStep(done, id, launch); }
    }
  }

  lemma RemoveKeepsPursued(c: Cluster, id: Id)
    requires Pursued(c) && id in c.keepalives
    ensures Pursued(RemoveKeepalive(c, id)) || (c.lease != 0 && id in RemoveKeepalive(c, id).actors)
  {
    SwapAndPopMembers(c.actors, id);
    SwapAndPopMembers(c.retry, id);
    hide SwapAndPop;
  }

  /** A member is in the list once. */
  ghost predicate Once(c: Cluster) { forall id :: multiset(c.actors)[id] <= 1 }

  lemma StepKeepsOnce(c: Cluster, step: Step)
    requires Listed(c) && Once(c)
    ensures Once(Apply(c, step))
  {
    hide Sweep, SetLease, SetValue, AddKeepalive, SwapAndPop, GetDone, PutDone;
    match step
    case ChangeValue(id, value, launch) => if id in c.keepalives { SetValueActors(c, id, value, launch); }
    case Join(id, launch) => if id in c.keepalives { JoinActors(c, id, launch); }
    case Leave(id) => SwapAndPopIsRemoval(c.actors, id);
    case AnswerGet(id, reply, launch) =>
      if id in c.keepalives && c.keepalives[id].request.Get? { AnswerActors(c, id, reply, true, launch); }
    case AnswerPut(id, ok, launch) =>
      if id in c.keepalives && c.keepalives[id].request.Put? { AnswerActors(c, id, GetFailed, ok, launch); }
    case AnswerLease(lease, force, launches, sweep) => SetLeaseActors(c, lease, force, launches, sweep);
    case TickNow(_, sweep) => SweepActors(c.(running := c.running || !c.enableLease), sweep);
    case _ =>
  }

  lemma SetValueActors(c: Cluster, id: Id, value: string, launch: Launch)
    requires id in c.keepalives
    ensures SetValue(c, id, value, launch).actors == c.actors
  {
    hide Activate;
  }

  lemma AnswerActors(c: Cluster, id: Id, reply: GetReply, ok: bool, launch: Launch)
    requires id in c.keepalives
    ensures c.keepalives[id].request.Get? ==> GetDone(c, id, reply, launch).actors == c.actors
    ensures c.keepalives[id].request.Put? ==> PutDone(c, id, ok, launch).actors == c.actors
  {
    hide Activate;
  }

  lemma OneMore(s: seq<Id>, id: Id)
    requires id !in s && forall i :: multiset(s)[i] <= 1
    ensures forall i :: multiset(s + [id])[i] <= 1
  {
    assert multiset(s)[id] == 0 && multiset(s + [id]) == multiset(s) + multiset{id};
  }

  lemma JoinActors(c: Cluster, id: Id, launch: Launch)
    requires id in c.keepalives && Once(c)
    ensures Once(AddKeepalive(c, id, launch))
  {
    hide Activate;
    if id !in c.actors { OneMore(c.actors, id); }
  }

  lemma SweepActors(c: Cluster, sweep: Launches)
    requires Listed(c)
    ensures Sweep(c, sweep).actors == c.actors
  {}

  lemma SetLeaseActors(c: Cluster, lease: int, force: bool, launches: Launches, sweep: Launches)
    requires Listed(c)
    ensures SetLease(c, lease, force, launches, sweep).actors == c.actors
  {}

  /** The keepalive that leaves is gone from the members. */
  lemma LeftIsGone(c: Cluster, id: Id)
    requires Listed(c) && Once(c) && id in c.keepalives
    ensures id !in RemoveKeepalive(c, id).actors
  {
    hide SwapAndPop;
    SwapAndPopIsRemoval(c.actors, id);
    assert multiset(SwapAndPop(c.actors, id))[id] == 0;
  }

  lemma StepKeepsPursued(c: Cluster, step: Step)
    requires Pursued(c) && Once(c) && AllChecked(c) && Careful(c, step)
    ensures Pursued(Apply(c, step))
  {
    hide Process, Sweep, SetLease, SwapAndPop, GetDone, PutDone, RemoveKeepalive, Activate;
    match step
    case ChangeValue(id, value, launch) =>
      if id in c.keepalives {
        var changed := Update(c, id, c.keepalives[id].(value := value, valueChanged := true));
        if c.running && c.lease != 0 { ActivateKeepsPursued(changed, id, launch); }
      }
    case Join(id, launch) =>
      if id in c.keepalives && c.running && c.lease != 0 {
        ActivateKeepsPursued(c.(enableLease := true, actors := c.actors + [id]), id, launch);
      }
    case Leave(id) =>
      if id in c.keepalives {
        RemoveKeepsPursued(c, id);
        LeftIsGone(c, id);
      }
    case AnswerGet(id, reply, launch) => if id in c.keepalives { AnswerKeepsPursued(c, id, reply, true, launch); }
    case AnswerPut(id, ok, launch) =>
      if id in c.keepalives && c.keepalives[id].request.Put? {
        assert CheckInv(c.keepalives[id]);
        AnswerKeepsPursued(c, id, GetFailed, ok, launch);
      }
    case AnswerLease(lease, force, launches, sweep) =>
      if !c.closing { SetLeaseKeepsPursued(c, lease, force, launches, sweep); }
    case TickNow(ready, sweep) =>
      if ready { SweepIsPursuedIff(c.(running := c.running || !c.enableLease), sweep); }
    case _ =>
  }

  ghost predicate CarefulRun(c: Cluster, steps: seq<Step>)
    requires Listed(c)
    decreases |steps|
  {
    steps == [] ||
    (Careful(c, steps[0]) && (ApplyKeepsListed(c, steps[0]); CarefulRun(Apply(c, steps[0]), steps[1..])))
  }

  lemma {:induction false} RunKeepsPursued(c: Cluster, steps: seq<Step>)
    requires Pursued(c) && Once(c) && AllChecked(c) && CarefulRun(c, steps)
    ensures Pursued(Run(c, steps))
    decreases |steps|
  {
    hide Once, AllChecked, Careful, Apply;
    if steps != [] {
      StepKeepsPursued(c, steps[0]);
      StepKeepsOnce(c, steps[0]);
      StepKeepsChecked(c, steps[0]);
      RunKeepsPursued(Apply(c, steps[0]), steps[1..]);
    }
  }

  /** In every run in which members are closed only by being removed and no sweep loses a check: a member whose check
      has not run, in a cluster with a lease, has its check in flight or waits in the retry list. */
  lemma UncheckedIsPursued(steps: seq<Step>, id: Id)
    requires CarefulRun(INITIAL, steps)
    requires var c := Run(INITIAL, steps);
             c.lease != 0 && id in c.actors && id in c.keepalives && !c.keepalives[id].checkRun
    ensures var c := Run(INITIAL, steps); c.keepalives[id].request == Get || id in c.retry
  {
    hide Run;
    RunKeepsPursued(INITIAL, steps);
    RunKeepsChecked(INITIAL, steps);
    assert CheckInv(Run(INITIAL, steps).keepalives[id]);
  }
}
