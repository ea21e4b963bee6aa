/** A run in which a key that was published again is lost to the delete of its earlier removal. */
module LateDelete {
  import opened Common
  import opened Keepalives
  import C = Cluster
  import D = Deletors
  import KeyRange
  import opened Republication
  import opened AcknowledgedPuts

  function Plain(step: C.Step): Step { Local(step, 0, Started, path => Started) }

  const EMPTY := System(C.INITIAL, D.INITIAL, map[], {}, {}, [], [], {}, {})

  const HELD: map<Key, Published> := map[C.KEY := Published("", 1)]

  const FIRST := C.FIRST_PUT.(
    request := NoRequest, hasData := true, acked := Some(Published("", 1)), marks := [Activated, PutStarted, Activated])
  const CLOSED := Closed(FIRST, true)
  const SECOND := C.FIRST_PUT.(acked := Some(Published("", 1)))

  const PUTTING := EMPTY.(cluster := C.PUTTING)
  const STORED := PUTTING.(store := HELD, puts := {0})
  const PUBLISHED := STORED.(cluster := C.PUTTING.(keepalives := map[0 := FIRST]), puts := {})

  const FLYING := D.Pool(false, map[], map[0 := D.Deletor(C.KEY, 1, true, true, 1, 0)])
  const REMOVED := PUBLISHED.(
    cluster := C.PUTTING.(actors := [], keepalives := map[0 := CLOSED]), pool := FLYING)
  const PUTTING_AGAIN := REMOVED.(cluster := C.PUTTING.(keepalives := map[0 := SECOND]))
  const STORED_AGAIN := PUTTING_AGAIN.(puts := {0})
  const PUBLISHED_AGAIN := PUBLISHED.(pool := FLYING)
  const LOST := PUBLISHED_AGAIN.(store := map[], landed := {0})

  const DONE := Plain(C.AnswerPut(0, true, Started))

  const REPUBLISHED: seq<Step> := [
    Plain(C.Create(0, C.KEY)), Plain(C.Join(0, Started)), Plain(C.GRANT_1), PutLands(0), DONE,
    Plain(C.Leave(0)), Plain(C.Join(0, Started)), PutLands(0), DONE, DeleteLands(0)]

  lemma OneStep(s: System, steps: seq<Step>, i: nat, s': System)
    requires Ok(s) && i < |steps| && Apply(s, steps[i]) == s'
    ensures Ok(s') && Run(s, steps[i..]) == Run(s', steps[i + 1..])
  {
    hide Apply;
    ApplyKeepsOk(s, steps[i]);
    assert steps[i..][1..] == steps[i + 1..];
  }

  lemma CreatesAndJoins()
    ensures Ok(EMPTY) && Ok(EMPTY.(cluster := C.CREATED)) && Ok(EMPTY.(cluster := C.JOINED))
    ensures Apply(EMPTY, Plain(C.Create(0, C.KEY))) == EMPTY.(cluster := C.CREATED)
    ensures Apply(EMPTY.(cluster := C.CREATED), Plain(C.Join(0, Started))) == EMPTY.(cluster := C.JOINED)
  {
    C.CreatedFirst();
    C.JoinedFirst();
    hide C.Apply;
  }

  lemma IsGranted()
    ensures Ok(EMPTY.(cluster := C.JOINED)) && Apply(EMPTY.(cluster := C.JOINED), Plain(C.GRANT_1)) == PUTTING
  {
    C.GrantStartsPut();
    hide C.Apply;
    assert D.RetryAll(D.INITIAL, path => Started) == D.INITIAL;
  }

  lemma FirstIsDone(acked: Option<Published>)
    ensures var k := C.FIRST_PUT.(acked := acked);
            C.PutDone(C.PUTTING.(keepalives := map[0 := k]), 0, true, Started)
            == C.PUTTING.(keepalives := map[0 := FIRST])
  {
    assert [Activated, PutStarted] + [Activated] == [Activated, PutStarted, Activated];
  }

  lemma IsPublished()
    ensures Ok(PUTTING) && Apply(PUTTING, PutLands(0)) == STORED
    ensures Ok(STORED) && Apply(STORED, DONE) == PUBLISHED
  {
    FirstIsDone(None);
    assert C.PUTTING == C.PUTTING.(keepalives := map[0 := C.FIRST_PUT.(acked := None)]);
    hide C.PutDone;
  }

  lemma IsRemoved()
    ensures Ok(PUBLISHED) && Apply(PUBLISHED, Plain(C.Leave(0))) == REMOVED
  {
    assert C.SwapAndPop([0], 0) == [] && C.SwapAndPop([], 0) == [];
    assert D.Begin(D.INITIAL, 0, C.KEY, Started) == FLYING;
    assert Late(PUBLISHED.cluster, {}, [0]) == [] && [] + [] == PUBLISHED.latePuts;
  }

  lemma JoinsAgain()
    ensures Ok(REMOVED) && Apply(REMOVED, Plain(C.Join(0, Started))) == PUTTING_AGAIN
  {
    assert [] + [0] == [0] && [] + [Activated] + [PutStarted] == [Activated, PutStarted];
    assert C.AddKeepalive(REMOVED.cluster, 0, Started) == PUTTING_AGAIN.cluster;
    assert D.Linear(FLYING, 0) && D.Bounded(FLYING.deletors[0]);
  }

  lemma IsPublishedAgain()
    ensures Ok(PUTTING_AGAIN) && Apply(PUTTING_AGAIN, PutLands(0)) == STORED_AGAIN
    ensures Ok(STORED_AGAIN) && Apply(STORED_AGAIN, DONE) == PUBLISHED_AGAIN
  {
    FirstIsDone(Some(Published("", 1)));
    hide C.PutDone;
    assert D.Linear(FLYING, 0) && D.Bounded(FLYING.deletors[0]);
  }

  lemma DeleteIsLate()
    ensures Ok(PUBLISHED_AGAIN) && Apply(PUBLISHED_AGAIN, DeleteLands(0)) == LOST
  {
    HitsIff(C.KEY, C.KEY);
    assert KeyRange.HasRoom(C.KEY) by { assert C.KEY[0] < 0xff; }
    assert D.Linear(FLYING, 0) && D.Bounded(FLYING.deletors[0]);
  }

  lemma RunToRemoval()
    ensures Ok(EMPTY) && Ok(REMOVED) && Run(EMPTY, REPUBLISHED) == Run(REMOVED, REPUBLISHED[6..])
  {
    hide Apply, Ok, Run;
    CreatesAndJoins();
    OneStep(EMPTY, REPUBLISHED, 0, EMPTY.(cluster := C.CREATED));
    OneStep(EMPTY.(cluster := C.CREATED), REPUBLISHED, 1, EMPTY.(cluster := C.JOINED));
    IsGranted();
    OneStep(EMPTY.(cluster := C.JOINED), REPUBLISHED, 2, PUTTING);
    IsPublished();
    OneStep(PUTTING, REPUBLISHED, 3, STORED);
    OneStep(STORED, REPUBLISHED, 4, PUBLISHED);
    IsRemoved();
    OneStep(PUBLISHED, REPUBLISHED, 5, REMOVED);
    assert REPUBLISHED[0..] == REPUBLISHED;
  }

  lemma RunFromRemoval()
    ensures Ok(REMOVED) && Run(REMOVED, REPUBLISHED[6..]) == LOST
  {
    hide Apply, Ok;
    JoinsAgain();
    OneStep(REMOVED, REPUBLISHED, 6, PUTTING_AGAIN);
    IsPublishedAgain();
    OneStep(PUTTING_AGAIN, REPUBLISHED, 7, STORED_AGAIN);
    OneStep(STORED_AGAIN, REPUBLISHED, 8, PUBLISHED_AGAIN);
    DeleteIsLate();
    OneStep(PUBLISHED_AGAIN, REPUBLISHED, 9, LOST);
    assert REPUBLISHED[10..] == [];
  }

  /** From the initial state: a keepalive is published, removed, added and published again, and then the delete of the
      removal lands. The cluster holds the value for published, and the server does not have it. */
  lemma RepublishedIsLost()
    ensures Ok(EMPTY)
    ensures var s := Run(EMPTY, REPUBLISHED);
            && s.cluster.lease == 1 && 0 in s.cluster.actors
            && 0 in s.cluster.keepalives && s.cluster.keepalives[0].Current(1)
            && C.NeverStale(s.cluster) && C.KEY !in s.store
  {
    hide Run;
    RunToRemoval();
    RunFromRemoval();
  }

  /** After the first publication all that keeps a published value in the store is given; after the second the delete of
      the removal is still to come. */
  lemma FirstIsSafeSecondIsNot()
    ensures Ok(PUBLISHED) && Stored(PUBLISHED, 0) && Harmless(PUBLISHED, C.KEY) && Agreed(PUBLISHED, C.KEY)
    ensures Ok(PUBLISHED_AGAIN) && Stored(PUBLISHED_AGAIN, 0) && !Harmless(PUBLISHED_AGAIN, C.KEY)
  {
    IsRemoved();
    IsPublishedAgain();
    HitsIff(C.KEY, C.KEY);
    assert KeyRange.HasRoom(C.KEY) by { assert C.KEY[0] < 0xff; }
    assert Live(PUBLISHED_AGAIN, 0) && Threatens(PUBLISHED_AGAIN, C.KEY);
  }
}
