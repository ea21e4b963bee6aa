/** One etcd keepalive of `etcd_keepalive.cpp` as a value: a key that is checked once and then kept published under
    the cluster's lease. */
module Keepalives {
  import opened Common

  datatype Request = NoRequest | Get | Put(value: string, lease: int)

  datatype GetReply = GetFailed | GetWithoutKvs | GetOk(content: string)

  datatype Published = Published(value: string, lease: int)

  /** What happened to a keepalive since it was created or last closed. */
  datatype Mark = CheckerInstalled | CheckerRemoved | Activated | Accepted | Rejected | PutStarted

  datatype Keepalive = Keepalive(
    path: Key,
    value: string,
    request: Request,
    valueChanged: bool,
    hasData: bool,
    checker: Option<string -> bool>,
    checkRun: bool,
    checkPassed: bool,
    acked: Option<Published>,   // the last put the server acknowledged
    marks: seq<Mark>)
  {
    function Marked(m: Mark): Keepalive { this.(marks := marks + [m]) }

    /** Its value, under the given lease, is what the server last acknowledged. */
    predicate Current(lease: int) { acked == Some(Published(value, lease)) }
  }

  function Created(path: Key): Keepalive {
    Keepalive(path, "", NoRequest, true, false, None, false, false, None, [])
  }

  function DefaultChecker(data: string): string -> bool {
    checked => checked == "" || data == checked
  }

  function Closed(k: Keepalive, resetHasData: bool): Keepalive {
    k.(request := NoRequest, valueChanged := true, hasData := k.hasData && !resetHasData,
       checkRun := false, checkPassed := false, checker := None, marks := [])
  }

  /** A keepalive after `process`, and whether it asks to be retried. */
  datatype Processed = Processed(keepalive: Keepalive, needRetry: bool)

  /** Activation alone: a keepalive without a checker passes its check. */
  function Triggered(k: Keepalive): Keepalive {
    (if k.checker.None? then k.(checkRun := true, checkPassed := true) else k).Marked(Activated)
  }

  function Process(k: Keepalive, lease: int, closing: bool, launch: Launch): Processed {
    if k.request != NoRequest then Processed(k, false)
    else
      var k := Triggered(k);
      if !k.checkRun then
        if launch != Started || closing then Processed(k, true) else Processed(k.(request := Get), false)
      else if k.checkPassed && k.valueChanged then
        if launch == CreateFailed || closing || lease == 0 then Processed(k, true)
        else if launch == StartFailed then Processed(k.(valueChanged := false), true)
        else Processed(k.(valueChanged := false, request := Put(k.value, lease)).Marked(PutStarted), false)
      else Processed(k, false)
  }

  /** The answer to the check, before `active` is called again. */
  function Checked(k: Keepalive, content: string): Keepalive {
    var passed := k.checker.None? || k.checker.value(content);
    k.(checkRun := true, checkPassed := passed).Marked(if passed then Accepted else Rejected)
  }

  // ---------------------------------------------------------------- check before put

  datatype Phase = Unchecked | Passed | Refused

  /** What the answers received so far say; one rejection is final. */
  function PhaseOf(marks: seq<Mark>): Phase {
    if marks == [] then Unchecked
    else
      var before := PhaseOf(marks[..|marks| - 1]);
      match marks[|marks| - 1]
      case Accepted => if before == Refused then Refused else Passed
      case Rejected => Refused
      case _ => before
  }

  /** A checker was installed before the keepalive was first activated, and never removed. */
  ghost predicate Guarded(marks: seq<Mark>) {
    CheckerRemoved !in marks && (marks != [] ==> marks[0] == CheckerInstalled)
  }

  /** Every put was started after an accepting answer, and none after a rejecting one. */
  ghost predicate PutsAreChecked(marks: seq<Mark>) {
    forall i :: 0 <= i < |marks| && marks[i] == PutStarted ==> PhaseOf(marks[..i]) == Passed
  }

  ghost predicate CheckInv(k: Keepalive) {
    && (k.request.Get? ==> !k.checkRun)
    && (!k.valueChanged ==> k.checkRun && k.checkPassed)
    && (k.request.Put? ==> k.checkRun && k.checkPassed)
    && (Guarded(k.marks) ==>
          && (k.marks != [] ==> k.checker.Some?)
          && (if !k.checkRun then PhaseOf(k.marks) == Unchecked
              else PhaseOf(k.marks) == if k.checkPassed then Passed else Refused)
          && PutsAreChecked(k.marks))
    && (k.marks == [] ==> !k.checkRun)
  }

  lemma MarkedKeepsPhase(k: Keepalive, m: Mark)
    requires m == Activated || m == PutStarted || m == CheckerInstalled
    requires PutsAreChecked(k.marks) && (m == PutStarted ==> PhaseOf(k.marks) == Passed)
    ensures PhaseOf(k.Marked(m).marks) == PhaseOf(k.marks) && PutsAreChecked(k.Marked(m).marks)
  {
    var marks := k.Marked(m).marks;
    assert marks[..|k.marks|] == k.marks;
    forall i | 0 <= i < |marks| && marks[i] == PutStarted ensures PhaseOf(marks[..i]) == Passed {
      assert marks[..i] == k.marks[..i];
    }
  }

  lemma MarkedKeepsGuard(k: Keepalive, m: Mark)
    requires Guarded(k.Marked(m).marks)
    ensures Guarded(k.marks)
    ensures k.marks == [] ==> m == CheckerInstalled
  {
    var marks := k.Marked(m).marks;
    assert forall i :: 0 <= i < |k.marks| ==> marks[i] == k.marks[i];
    assert marks[|k.marks|] == m;
  }

  lemma TriggeredKeepsCheckInv(k: Keepalive)
    requires CheckInv(k) && k.request == NoRequest
    ensures CheckInv(Triggered(k))
  {
    var k1 := Triggered(k);
    if Guarded(k1.marks) {
      MarkedKeepsGuard(k, Activated);
      MarkedKeepsPhase(k, Activated);
    }
  }

  lemma PutStartedKeepsCheckInv(k: Keepalive, put: Request)
    requires CheckInv(k) && k.checkRun && k.checkPassed && put.Put?
    ensures CheckInv(k.(valueChanged := false, request := put).Marked(PutStarted))
  {
    if Guarded(k.Marked(PutStarted).marks) {
      MarkedKeepsGuard(k, PutStarted);
      MarkedKeepsPhase(k, PutStarted);
    }
  }

  lemma ProcessKeepsCheckInv(k: Keepalive, lease: int, closing: bool, launch: Launch)
    requires CheckInv(k)
    ensures CheckInv(Process(k, lease, closing, launch).keepalive)
  {
    hide Guarded, PhaseOf, PutsAreChecked;
    if k.request == NoRequest {
      TriggeredKeepsCheckInv(k);
      if k.checkRun || k.checker.None? {
        assert Triggered(k).checkPassed ==> CheckInv(Triggered(k).(valueChanged := false));
        if Triggered(k).checkPassed {
          PutStartedKeepsCheckInv(Triggered(k), Put(k.value, lease));
        }
      }
    }
  }

  lemma CheckedKeepsCheckInv(k: Keepalive, content: string)
    requires CheckInv(k) && k.request.Get?
    ensures CheckInv(Checked(k.(request := NoRequest), content))
  {
    var k0 := k.(request := NoRequest);
    var m := if k.checker.None? || k.checker.value(content) then Accepted else Rejected;
    var marks := k0.Marked(m).marks;
    assert marks[..|k.marks|] == k.marks;
    if Guarded(marks) {
      MarkedKeepsGuard(k0, m);
      forall i | 0 <= i < |marks| && marks[i] == PutStarted ensures PhaseOf(marks[..i]) == Passed {
        assert marks[..i] == k.marks[..i];
      }
    }
  }

  function WithChecker(k: Keepalive, checker: Option<string -> bool>): Keepalive {
    k.(checker := checker).Marked(if checker.Some? then CheckerInstalled else CheckerRemoved)
  }

  lemma SetCheckerKeepsCheckInv(k: Keepalive, checker: Option<string -> bool>)
    requires CheckInv(k)
    ensures CheckInv(WithChecker(k, checker))
  {
    var k' := WithChecker(k, checker);
    if Guarded(k'.marks) {
      assert k'.marks[|k.marks|] == if checker.Some? then CheckerInstalled else CheckerRemoved;
      MarkedKeepsGuard(k, CheckerInstalled);
      MarkedKeepsPhase(k, CheckerInstalled);
    }
  }

  /** Without a checker the very first activation that can makes a put, on nobody's answer. */
  lemma UnguardedPutIsUnchecked(path: Key, value: string, lease: int)
    requires lease != 0
    ensures var k := Process(Created(path).(value := value), lease, false, Started).keepalive;
            k.request == Put(value, lease) && !PutsAreChecked(k.marks)
  {
    var k := Process(Created(path).(value := value), lease, false, Started).keepalive;
    assert k.marks == [Activated, PutStarted];
    assert k.marks[..1] == [Activated];
    assert PhaseOf(k.marks[..1]) == Unchecked by { assert k.marks[..1][..0] == []; }
    assert k.marks[1] == PutStarted;
  }
}
