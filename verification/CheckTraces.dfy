/** Check before put, told by the steps of a run: which answers came, what the installed checker says of them, and when
    puts start. */
module CheckTraces {
  import opened Common
  import opened Keepalives
  import opened Cluster

  // ---------------------------------------------------------------- what happens in a run

  /** The state that the step at `i` meets. */
  ghost function At(steps: seq<Step>, i: nat): Cluster
    requires i <= |steps|
  {
    Run(INITIAL, steps[..i])
  }

  /** The step closes the keepalive. */
  predicate Closes(c: Cluster, step: Step, id: Id) {
    match step
    case Leave(i) => i == id && (id in c.actors || id in c.retry)
    case CloseOne(i, _) => i == id
    case Shutdown => id in c.actors
    case _ => false
  }

  /** The step answers the check of the keepalive with the content of its key. */
  predicate Answers(c: Cluster, step: Step, id: Id) {
    step.AnswerGet? && step.id == id && step.reply.GetOk? && id in c.keepalives && c.keepalives[id].request.Get?
  }

  /** A put of the keepalive is in flight after the step, and it is not one that was before. */
  ghost predicate StartsPut(c: Cluster, step: Step, id: Id)
    requires Listed(c)
  {
    var c' := Apply(c, step);
    && id in c'.keepalives && c'.keepalives[id].request.Put?
    && !(id in c.keepalives && c.keepalives[id].request.Put? && !(step.AnswerPut? && step.id == id))
  }

  // ---------------------------------------------------------------- what one step does to the check

  /** With a checker installed, activation leaves checker and verdict alone. */
  ghost predicate SameCheck(k: Keepalive, k': Keepalive) {
    k'.checker == k.checker && (k.checker.Some? ==> k'.checkRun == k.checkRun && k'.checkPassed == k.checkPassed)
  }

  lemma ProcessSameCheck(k: Keepalive, lease: int, closing: bool, launch: Launch)
    ensures SameCheck(k, Process(k, lease, closing, launch).keepalive)
  {}

  lemma ActivateSameCheck(c: Cluster, i: Id, launch: Launch, id: Id)
    requires i in c.keepalives && id in c.keepalives
    ensures id in Activate(c, i, launch).keepalives
    ensures SameCheck(c.keepalives[id], Activate(c, i, launch).keepalives[id])
  {
    hide Process;
    ProcessSameCheck(c.keepalives[i], c.lease, c.closing, launch);
  }

  lemma {:induction false} RepublishAllSameCheck(c: Cluster, ids: seq<Id>, launches: Launches, id: Id)
    requires id in c.keepalives && forall i :: i in ids ==> i in c.keepalives
    ensures SameCheck(c.keepalives[id], RepublishAll(c, ids, launches).keepalives[id])
    decreases |ids|
  {
    hide Process;
    if ids != [] {
      RepublishTouchesOne(c, ids[0], launches(ids[0]));
      ProcessSameCheck(c.keepalives[ids[0]].(valueChanged := true), c.lease, c.closing, launches(ids[0]));
      RepublishAllSameCheck(Republish(c, ids[0], launches(ids[0])), ids[1..], launches, id);
    }
  }

  lemma SweepSameCheck(c: Cluster, launches: Launches, id: Id)
    requires Listed(c) && id in c.keepalives
    ensures id in Sweep(c, launches).keepalives && SameCheck(c.keepalives[id], Sweep(c, launches).keepalives[id])
  {
    if c.lease != 0 { RepublishAllSameCheck(c, c.retry, launches, id); }
  }

  lemma SetLeaseSameCheck(c: Cluster, lease: int, force: bool, launches: Launches, sweep: Launches, id: Id)
    requires Listed(c) && id in c.keepalives
    ensures var c' := SetLease(c, lease, force, launches, sweep);
            id in c'.keepalives && SameCheck(c.keepalives[id], c'.keepalives[id])
  {
    hide Sweep;
    var c1 := c.(lease := lease, running := c.running || lease != 0);
    if c.lease == lease && !force && lease != 0 {
      SweepSameCheck(c1, sweep, id);
    } else if lease != 0 {
      RepublishAllSameCheck(c1.(retry := []), c.actors, launches, id);
      SweepSameCheck(RepublishAll(c1.(retry := []), c.actors, launches), sweep, id);
    }
  }

  lemma GetDoneSameCheck(c: Cluster, i: Id, reply: GetReply, launch: Launch, id: Id)
    requires i in c.keepalives && c.keepalives[i].request.Get? && id in c.keepalives
    ensures var k, c' := c.keepalives[id], GetDone(c, i, reply, launch);
            && id in c'.keepalives
            && (i != id || !reply.GetOk? ==> SameCheck(k, c'.keepalives[id]))
            && (i == id && reply.GetOk? && k.checker.Some? ==>
                  && c'.keepalives[id].checker == k.checker && c'.keepalives[id].checkRun
                  && c'.keepalives[id].checkPassed == k.checker.value(reply.content))
  {
    hide Activate;
    if reply.GetOk? {
      ActivateSameCheck(Update(c, i, Checked(c.keepalives[i].(request := NoRequest), reply.content)), i, launch, id);
    }
  }

  lemma PutDoneSameCheck(c: Cluster, i: Id, ok: bool, launch: Launch, id: Id)
    requires i in c.keepalives && c.keepalives[i].request.Put? && id in c.keepalives
    ensures var c' := PutDone(c, i, ok, launch);
            id in c'.keepalives && SameCheck(c.keepalives[id], c'.keepalives[id])
  {
    hide Activate;
    var k := c.keepalives[i];
    var acked := Some(Published(k.request.value, k.request.lease));
    ActivateSameCheck(Update(c, i, k.(request := NoRequest, hasData := true, acked := acked)), i, launch, id);
  }

  /** Only the answer to its check changes the verdict on a keepalive with a checker, to what the checker says. */
  lemma StepOnCheck(c: Cluster, step: Step, id: Id)
    requires Listed(c) && id in c.keepalives && !Closes(c, step, id) && !(step.InstallChecker? && step.id == id)
    ensures var k, c' := c.keepalives[id], Apply(c, step);
            && id in c'.keepalives
            && (!Answers(c, step, id) ==> SameCheck(k, c'.keepalives[id]))
            && (Answers(c, step, id) && k.checker.Some? ==>
                  && c'.keepalives[id].checker == k.checker && c'.keepalives[id].checkRun
                  && c'.keepalives[id].checkPassed == k.checker.value(step.reply.content))
  {
    hide Sweep, SetLease, SetValue, AddKeepalive, GetDone, PutDone, Closed, SwapAndPop, SameCheck;
    SameAsBefore(c.keepalives[id]);
    match step
    case ChangeValue(i, value, launch) => if i in c.keepalives { JoiningSameCheck(c, i, value, launch, id); }
    case Join(i, launch) => if i in c.keepalives { JoiningSameCheck(c, i, "", launch, id); }
    case AnswerGet(i, reply, launch) =>
      if i in c.keepalives && c.keepalives[i].request.Get? { GetDoneSameCheck(c, i, reply, launch, id); }
    case AnswerPut(i, ok, launch) =>
      if i in c.keepalives && c.keepalives[i].request.Put? { PutDoneSameCheck(c, i, ok, launch, id); }
    case AnswerLease(lease, force, launches, sweep) => SetLeaseSameCheck(c, lease, force, launches, sweep, id);
    case TickNow(ready, sweep) => SweepSameCheck(c.(running := c.running || !c.enableLease), sweep, id);
    case _ =>
  }

  lemma SameAsBefore(k: Keepalive)
    ensures SameCheck(k, k)
  {}

  lemma JoiningSameCheck(c: Cluster, i: Id, value: string, launch: Launch, id: Id)
    requires i in c.keepalives && id in c.keepalives
    ensures var c' := SetValue(c, i, value, launch);
            id in c'.keepalives && SameCheck(c.keepalives[id], c'.keepalives[id])
    ensures var c' := AddKeepalive(c, i, launch); id in c'.keepalives && SameCheck(c.keepalives[id], c'.keepalives[id])
  {
    hide Activate;
    ActivateSameCheck(Update(c, i, c.keepalives[i].(value := value, valueChanged := true)), i, launch, id);
    ActivateSameCheck(c.(enableLease := true, actors := c.actors + [i]), i, launch, id);
  }

  // ---------------------------------------------------------------- runs

  /** The checker is installed by the step at `a`, before any check was run: it is not too late. */
  ghost predicate InstalledInTime(steps: seq<Step>, id: Id, a: nat, fn: string -> bool) {
    && a < |steps| && steps[a] == InstallChecker(id, Some(fn))
    && id in At(steps, a).keepalives && !At(steps, a).keepalives[id].checkRun
  }

  /** After `a` and before `b` the keepalive is not closed and keeps its checker. */
  ghost predicate Undisturbed(steps: seq<Step>, id: Id, a: nat, b: nat)
    requires b <= |steps|
  {
    forall j :: a < j < b ==> !Closes(At(steps, j), steps[j], id) && !(steps[j].InstallChecker? && steps[j].id == id)
  }

  /** The step at `j` answers the check. */
  ghost predicate AnswersAt(steps: seq<Step>, id: Id, j: nat)
    requires j < |steps|
  {
    Answers(At(steps, j), steps[j], id)
  }

  lemma RunOneMore(steps: seq<Step>, i: nat)
    requires i < |steps|
    ensures Listed(At(steps, i)) && At(steps, i + 1) == Apply(At(steps, i), steps[i])
  {
    RunSplit(INITIAL, steps[..i + 1], i);
    assert steps[..i + 1][..i] == steps[..i] && steps[..i + 1][i..] == [steps[i]];
  }

  lemma {:induction false} RunSplit(c: Cluster, steps: seq<Step>, i: nat)
    requires Listed(c) && i < |steps| && i == |steps| - 1
    ensures Listed(Run(c, steps[..i])) && Run(c, steps) == Apply(Run(c, steps[..i]), steps[i])
    decreases i
  {
    hide Apply;
    ApplyKeepsListed(c, steps[0]);
    if i == 0 {
      assert steps[1..] == [];
    } else {
      RunSplit(Apply(c, steps[0]), steps[1..], i - 1);
      assert steps[1..][..i - 1] == steps[..i][1..];
    }
  }

  lemma AtIsChecked(steps: seq<Step>, i: nat)
    requires i <= |steps|
    ensures AllChecked(At(steps, i))
  {
    RunKeepsChecked(INITIAL, steps[..i]);
  }

  /** The verdict after the answers so far: none yet, and no put; or all of them accepted, and at least one; or a
      rejection, and no put. */
  ghost predicate Verdict(steps: seq<Step>, id: Id, a: nat, b: nat, fn: string -> bool)
    requires b <= |steps|
  {
    && id in At(steps, b).keepalives
    && var k := At(steps, b).keepalives[id];
       && k.checker == Some(fn)
       && (!k.checkRun ==> forall j :: a < j < b ==> !AnswersAt(steps, id, j))
       && (k.checkRun && k.checkPassed ==>
             && (exists j :: a < j < b && AnswersAt(steps, id, j))
             && (forall j :: a < j < b && AnswersAt(steps, id, j) ==> fn(steps[j].reply.content)))
  }

  lemma {:induction false} RunGivesVerdict(steps: seq<Step>, id: Id, a: nat, b: nat, fn: string -> bool)
    requires InstalledInTime(steps, id, a, fn) && a < b <= |steps| && Undisturbed(steps, id, a, b)
    ensures Verdict(steps, id, a, b, fn)
    decreases b
  {
    hide Apply, At;
    RunOneMore(steps, b - 1);
    if b == a + 1 {
      InstallSetsChecker(At(steps, a), steps[a]);
    } else {
      RunGivesVerdict(steps, id, a, b - 1, fn);
      StepOnCheck(At(steps, b - 1), steps[b - 1], id);
      AtIsChecked(steps, b - 1);
      assert AnswersAt(steps, id, b - 1) ==> !At(steps, b - 1).keepalives[id].checkRun;
    }
  }

  lemma InstallSetsChecker(c: Cluster, step: Step)
    requires Listed(c) && step.InstallChecker? && step.id in c.keepalives
    ensures var k, c' := c.keepalives[step.id], Apply(c, step);
            && step.id in c'.keepalives && c'.keepalives[step.id].checker == step.checker
            && c'.keepalives[step.id].checkRun == k.checkRun
  {}

  /** In every run, a put of a keepalive whose checker was installed before any check comes after an answer to its check
      that this checker accepts, and after none that it rejects; the checker is the one installed, and the keepalive was
      not closed since. */
  lemma PutFollowsAcceptedAnswer(steps: seq<Step>, id: Id, a: nat, i: nat, fn: string -> bool)
    requires InstalledInTime(steps, id, a, fn) && a < i < |steps| && Undisturbed(steps, id, a, i)
    requires Listed(At(steps, i)) && StartsPut(At(steps, i), steps[i], id)
    ensures exists j :: a < j <= i && AnswersAt(steps, id, j) && fn(steps[j].reply.content)
    ensures forall j :: a < j <= i && AnswersAt(steps, id, j) ==> fn(steps[j].reply.content)
  {
    hide Apply, At;
    RunOneMore(steps, i);
    StartIsNoEnd(At(steps, i), steps[i], id);
    assert Undisturbed(steps, id, a, i + 1);
    RunGivesVerdict(steps, id, a, i + 1, fn);
    AtIsChecked(steps, i + 1);
    assert CheckInv(At(steps, i + 1).keepalives[id]);
  }

  lemma StartIsNoEnd(c: Cluster, step: Step, id: Id)
    requires Listed(c) && StartsPut(c, step, id)
    ensures !Closes(c, step, id) && !(step.InstallChecker? && step.id == id)
  {}

  /** And for a keepalive set up with its own value, as `add_keepalive_actor` does: it puts only where its key was empty
      or held that very value. */
  lemma ActorPutsOverItsOwn(steps: seq<Step>, id: Id, a: nat, i: nat, value: string)
    requires InstalledInTime(steps, id, a, DefaultChecker(value)) && a < i < |steps| && Undisturbed(steps, id, a, i)
    requires Listed(At(steps, i)) && StartsPut(At(steps, i), steps[i], id)
    ensures exists j :: a < j <= i && AnswersAt(steps, id, j)
                          && (steps[j].reply.content == "" || steps[j].reply.content == value)
    ensures forall j :: a < j <= i && AnswersAt(steps, id, j) ==>
                          steps[j].reply.content == "" || steps[j].reply.content == value
  {
    hide StartsPut, At;
    PutFollowsAcceptedAnswer(steps, id, a, i, DefaultChecker(value));
  }
}
