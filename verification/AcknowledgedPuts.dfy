/** From the acknowledgement to the store: what a keepalive was told is published is what the server has. */
module AcknowledgedPuts {
  import opened Common
  import opened Keepalives
  import C = Cluster
  import D = Deletors
  import opened Republication

  /** Acknowledged puts stay, a put in flight is replaced only after its answer or when it is given up, and the path
      never changes. */
  ghost predicate Carries(k: Keepalive, k': Keepalive) {
    k'.path == k.path && k'.acked == k.acked && (k.request.Put? && k'.request.Put? ==> k'.request == k.request)
  }

  lemma ProcessCarries(k: Keepalive, lease: int, closing: bool, launch: Launch)
    ensures Carries(k, Process(k, lease, closing, launch).keepalive)
    ensures k.request.Put? ==> Process(k, lease, closing, launch).keepalive == k
  {}

  lemma {:induction false} RepublishAllCarries(c: C.Cluster, ids: seq<C.Id>, launches: C.Launches, id: C.Id)
    requires id in c.keepalives && forall i :: i in ids ==> i in c.keepalives
    ensures var k, k' := c.keepalives[id], C.RepublishAll(c, ids, launches).keepalives[id];
            Carries(k, k') && (k.request.Put? ==> k'.request == k.request)
    decreases |ids|
  {
    hide Process;
    if ids != [] {
      var k := c.keepalives[ids[0]].(valueChanged := true);
      C.RepublishTouchesOne(c, ids[0], launches(ids[0]));
      ProcessCarries(k, c.lease, c.closing, launches(ids[0]));
      RepublishAllCarries(C.Republish(c, ids[0], launches(ids[0])), ids[1..], launches, id);
    }
  }

  lemma SweepCarries(c: C.Cluster, launches: C.Launches, id: C.Id)
    requires C.Listed(c) && id in c.keepalives
    ensures id in C.Sweep(c, launches).keepalives
    ensures var k, k' := c.keepalives[id], C.Sweep(c, launches).keepalives[id];
            Carries(k, k') && (k.request.Put? ==> k'.request == k.request)
  {
    if c.lease != 0 { RepublishAllCarries(c, c.retry, launches, id); }
  }

  lemma SetLeaseCarries(c: C.Cluster, lease: int, force: bool, launches: C.Launches, sweep: C.Launches, id: C.Id)
    requires C.Listed(c) && id in c.keepalives
    ensures var c' := C.SetLease(c, lease, force, launches, sweep);
            id in c'.keepalives && Carries(c.keepalives[id], c'.keepalives[id])
  {
    hide C.Sweep;
    var c1 := c.(lease := lease, running := c.running || lease != 0);
    if c.lease == lease && !force && lease != 0 {
      SweepCarries(c1, sweep, id);
    } else if lease != 0 {
      RepublishAllCarries(c1.(retry := []), c.actors, launches, id);
      SweepCarries(C.RepublishAll(c1.(retry := []), c.actors, launches), sweep, id);
    }
  }

  lemma ActivateCarries(c: C.Cluster, i: C.Id, launch: Launch, id: C.Id)
    requires i in c.keepalives && id in c.keepalives
    ensures var c' := C.Activate(c, i, launch); id in c'.keepalives && Carries(c.keepalives[id], c'.keepalives[id])
  {
    hide Process;
    ProcessCarries(c.keepalives[i], c.lease, c.closing, launch);
  }

  /** What the answer to a put makes of its keepalive. */
  lemma PutDoneCarries(c: C.Cluster, i: C.Id, ok: bool, launch: Launch, id: C.Id)
    requires i in c.keepalives && c.keepalives[i].request.Put? && id in c.keepalives
    ensures var c', k := C.PutDone(c, i, ok, launch), c.keepalives[id];
            && id in c'.keepalives
            && (i != id ==> Carries(k, c'.keepalives[id]))
            && (i == id ==>
                  (&& c'.keepalives[id].path == k.path
                   && c'.keepalives[id].acked
                      == if ok then Some(Published(k.request.value, k.request.lease)) else k.acked))
  {
    hide C.Activate;
    var k := c.keepalives[i];
    var acked := Some(Published(k.request.value, k.request.lease));
    ActivateCarries(C.Update(c, i, k.(request := NoRequest, hasData := true, acked := acked)), i, launch, id);
  }

  lemma GetDoneCarries(c: C.Cluster, i: C.Id, reply: GetReply, launch: Launch, id: C.Id)
    requires i in c.keepalives && c.keepalives[i].request.Get? && id in c.keepalives
    ensures var c' := C.GetDone(c, i, reply, launch);
            id in c'.keepalives && Carries(c.keepalives[id], c'.keepalives[id])
  {
    hide C.Activate, Checked;
    if reply.GetOk? {
      var k := Checked(c.keepalives[i].(request := NoRequest), reply.content);
      CheckedCarries(c.keepalives[i].(request := NoRequest), reply.content);
      ActivateCarries(C.Update(c, i, k), i, launch, id);
    }
  }

  /** Only the successful answer to its put changes what is acknowledged of a keepalive. */
  lemma StepCarries(c: C.Cluster, step: C.Step, id: C.Id)
    requires C.Listed(c) && id in c.keepalives
    ensures var c' := C.Apply(c, step);
            && id in c'.keepalives
            && var k, k' := c.keepalives[id], c'.keepalives[id];
               if step.AnswerPut? && step.id == id && k.request.Put? then
                 k'.path == k.path
                 && k'.acked == if step.ok then Some(Published(k.request.value, k.request.lease)) else k.acked
               else Carries(k, k')
  {
    hide C.Sweep, C.SetLease, C.GetDone, C.PutDone, C.Activate, Closed, C.SwapAndPop, Carries;
    CarriesItself(c.keepalives[id]);
    ClosedCarries(c.keepalives[id]);
    match step
    case InstallChecker(_, checker) => CheckerCarries(c.keepalives[id], checker);
    case ChangeValue(i, value, launch) => if i in c.keepalives { SetValueCarries(c, i, value, launch, id); }
    case Join(i, launch) =>
      if i in c.keepalives { ActivateCarries(c.(enableLease := true, actors := c.actors + [i]), i, launch, id); }
    case AnswerGet(i, reply, launch) =>
      if i in c.keepalives && c.keepalives[i].request.Get? { GetDoneCarries(c, i, reply, launch, id); }
    case AnswerPut(i, ok, launch) =>
      if i in c.keepalives && c.keepalives[i].request.Put? { PutDoneCarries(c, i, ok, launch, id); }
    case AnswerLease(lease, force, launches, sweep) => SetLeaseCarries(c, lease, force, launches, sweep, id);
    case TickNow(ready, sweep) => SweepCarries(c.(running := c.running || !c.enableLease), sweep, id);
    case _ =>
  }

  lemma CarriesItself(k: Keepalive)
    ensures Carries(k, k)
  {}

  lemma CheckerCarries(k: Keepalive, checker: Option<string -> bool>)
    ensures Carries(k, WithChecker(k, checker))
  {}

  lemma SetValueCarries(c: C.Cluster, i: C.Id, value: string, launch: Launch, id: C.Id)
    requires i in c.keepalives && id in c.keepalives
    ensures var c' := C.SetValue(c, i, value, launch);
            id in c'.keepalives && Carries(c.keepalives[id], c'.keepalives[id])
  {
    hide C.Activate;
    ActivateCarries(C.Update(c, i, c.keepalives[i].(value := value, valueChanged := true)), i, launch, id);
  }

  lemma ClosedCarries(k: Keepalive)
    ensures Carries(k, Closed(k, true)) && Carries(k, Closed(k, false))
  {}

  lemma CheckedCarries(k: Keepalive, content: string)
    ensures Carries(k, Checked(k, content)) && Checked(k, content).request == k.request
  {}

  /** What is acknowledged of the keepalive, and a put of it the server has carried out, is what the store has. */
  ghost predicate Stored(s: System, id: C.Id)
    requires Ok(s)
  {
    && id in s.cluster.keepalives && s.cluster.keepalives[id].path in s.store
    && var k := s.cluster.keepalives[id];
       && k.acked == Some(s.store[k.path])
       && (id in s.puts ==> Published(k.request.value, k.request.lease) == s.store[k.path])
  }

  lemma StepKeepsStored(s: System, step: Step, id: C.Id)
    requires Ok(s) && Stored(s, id)
    requires var key := s.cluster.keepalives[id].path; Harmless(s, key) && Agreed(s, key) && Keeps(s, step, key)
    ensures Ok(Apply(s, step)) && Stored(Apply(s, step), id)
    ensures Apply(s, step).cluster.keepalives[id].path == s.cluster.keepalives[id].path
  {
    hide C.Apply, D.Apply, Keeps, Harmless, Hits;
    var key := s.cluster.keepalives[id].path;
    ApplyKeepsOk(s, step);
    StepKeeps(s, step, key);
    if Possible(s, step) {
      if step.Local? {
        StepCarries(s.cluster, step.step, id);
      } else if step == PutLands(id) {
        LandingsMayPut(s, step, Writes(s, step).value);
      }
    }
  }

  lemma {:induction false} RunKeepsStored(s: System, steps: seq<Step>, id: C.Id)
    requires Ok(s) && Stored(s, id)
    requires var key := s.cluster.keepalives[id].path; Harmless(s, key) && Agreed(s, key) && RunKeeps(s, steps, key)
    ensures Ok(Run(s, steps)) && Stored(Run(s, steps), id)
    ensures Run(s, steps).cluster.keepalives[id].path == s.cluster.keepalives[id].path
    decreases |steps|
  {
    hide Apply, Harmless, Agreed, Keeps, Stored;
    if steps != [] {
      StoredHasKey(s, id);
      StepKeepsStored(s, steps[0], id);
      StepKeeps(s, steps[0], s.cluster.keepalives[id].path);
      RunKeepsStored(Apply(s, steps[0]), steps[1..], id);
    }
  }

  lemma StoredHasKey(s: System, id: C.Id)
    requires Ok(s) && Stored(s, id)
    ensures id in s.cluster.keepalives && s.cluster.keepalives[id].path in s.store
  {}

  /** Published is stored: from a state in which what was acknowledged of a keepalive is in the store, nothing threatens
      it and no other put of its path may land, over every run that starts none. A member that is not stale then has its
      value in the store under the lease of now. By `HoldsIff` both conditions are needed. */
  lemma PublishedIsStored(s: System, steps: seq<Step>, id: C.Id)
    requires Ok(s) && Stored(s, id)
    requires var key := s.cluster.keepalives[id].path; Harmless(s, key) && Agreed(s, key) && RunKeeps(s, steps, key)
    ensures var s' := Run(s, steps);
            && id in s'.cluster.keepalives
            && var c, k := s'.cluster, s'.cluster.keepalives[id];
               && k.path in s'.store && k.acked == Some(s'.store[k.path])
               && (C.NeverStale(c) && c.lease != 0 && !c.closing && id in c.actors && id !in c.retry
                   && k.checkRun && k.checkPassed && k.request == NoRequest ==>
                     s'.store[k.path] == Published(k.value, c.lease))
  {
    RunKeepsStored(s, steps, id);
  }
}
