/** What single operations of the cluster bring about, told by their effects. */
module ClusterEffects {
  import opened Common
  import opened Keepalives
  import opened Cluster
  import opened Pursuit

  // ---------------------------------------------------------------- joining, waiting and closing

  /** Whoever joins, or has to be retried, makes the cluster ask for a lease. */
  lemma WhoWaitsAsksForLease(c: Cluster, id: Id, launch: Launch)
    requires id in c.keepalives && !c.closing
    ensures id !in c.actors ==> AddKeepalive(c, id, launch).enableLease && id in AddKeepalive(c, id, launch).actors
    ensures id !in c.retry ==> AddRetry(c, id).enableLease && AddRetry(c, id).retry == c.retry + [id]
  {
    hide Process;
  }

  /** A closing cluster takes nobody in, retries nothing, and its members can make no request. */
  lemma ClosingRefuses(c: Cluster, id: Id, launch: Launch, ready: bool, sweep: Launches)
    requires Listed(c) && c.closing && id in c.keepalives
    ensures AddKeepalive(c, id, launch) == c && AddRetry(c, id) == c && Tick(c, ready, sweep) == c
    ensures c.keepalives[id].request == NoRequest ==> Activate(c, id, launch).keepalives[id].request == NoRequest
    ensures Activate(c, id, launch).retry == c.retry
  {}

  /** `close`: nobody is a member or waits, no lease is left, and what the members had in flight is given up. */
  lemma ClosedClusterIsIdle(c: Cluster, id: Id)
    requires Listed(c)
    ensures var c' := CloseCluster(c);
            && c'.closing && c'.lease == 0 && c'.actors == [] && c'.retry == []
            && (id in c.actors ==> c'.keepalives[id].request == NoRequest && !c'.keepalives[id].checkRun)
            && (id in c.keepalives && id !in c.actors ==> c'.keepalives[id] == c.keepalives[id])
  {}

  /** A keepalive that is closed is as new but for its value, and has data only if it had and was not to forget it. */
  lemma ClosedIsLikeNew(k: Keepalive, resetHasData: bool)
    ensures Closed(k, resetHasData)
            == Created(k.path).(value := k.value, acked := k.acked, hasData := k.hasData && !resetHasData)
  {}

  // ---------------------------------------------------------------- values

  /** Setting the value a keepalive has already does nothing; a new one is put at once where that is possible. */
  lemma SetValuePuts(c: Cluster, id: Id, value: string)
    requires id in c.keepalives
    ensures c.keepalives[id].value == value ==> SetValue(c, id, value, Started) == c
    ensures var k, k' := c.keepalives[id], SetValue(c, id, value, Started).keepalives[id];
            && k'.value == value
            && ((value != k.value && c.running && c.lease != 0 && !c.closing
                 && k.checkRun && k.checkPassed && k.request == NoRequest) ==> k'.request == Put(value, c.lease))
            && (value != k.value && k.request != NoRequest ==> k'.valueChanged && k'.request == k.request)
  {}

  /** A put that could not be started is remembered by the retry list alone: the dirty flag is clear already. */
  lemma UnstartedPutWaits(c: Cluster, id: Id)
    requires id in c.keepalives && c.lease != 0 && !c.closing
    requires var k := c.keepalives[id]; k.request == NoRequest && k.checkRun && k.checkPassed && k.valueChanged
    ensures var c' := Activate(c, id, StartFailed);
            id in c'.retry && !c'.keepalives[id].valueChanged && c'.keepalives[id].request == NoRequest
  {}

  /** The answer to the check of an actor's keepalive decides: its value is put where the key was empty or its own, and
      nothing where it was another's. */
  lemma ActorAnswerDecides(c: Cluster, id: Id, value: string, content: string)
    requires id in c.keepalives && c.keepalives[id].request.Get? && c.keepalives[id].valueChanged
    requires c.keepalives[id].checker == Some(DefaultChecker(value))
    requires c.running && c.lease != 0 && !c.closing
    ensures GetDone(c, id, GetOk(content), Started).keepalives[id].request
            == if content == "" || content == value then Put(c.keepalives[id].value, c.lease) else NoRequest
  {}

  // ---------------------------------------------------------------- leases and ticks

  /** The lease is kept alive: what waits for a retry is taken up. */
  lemma KeptLeaseTakesUp(c: Cluster, launches: Launches, sweep: Launches, id: Id)
    requires Listed(c) && !c.closing && c.lease != 0 && id in c.retry && sweep(id) == Started
    ensures var c' := SetLease(c, c.lease, false, launches, sweep);
            c'.retry == [] && id in c'.keepalives && TakenUp(c'.keepalives[id])
  {
    hide Process, TakenUp;
    RepublishAllStarts(c.(running := true), c.retry, sweep, id);
    assert c.(lease := c.lease, running := c.running || c.lease != 0) == c.(running := true);
  }

  /** A new lease: every member has a request in flight or was refused, whether it waited or not. */
  lemma NewLeaseTakesUp(c: Cluster, lease: int, id: Id)
    requires Listed(c) && !c.closing && lease != 0 && id in c.actors
    ensures var c' := SetLease(c, lease, true, Always(Started), Always(Started));
            c'.lease == lease && c'.running && id in c'.keepalives && TakenUp(c'.keepalives[id])
  {
    hide Process, TakenUp;
    var c2 := c.(lease := lease, running := true, retry := []);
    RepublishAllStarts(c2, c.actors, Always(Started), id);
    var c3 := RepublishAll(c2, c.actors, Always(Started));
    if id in c3.retry {
      RepublishAllStarts(c3, c3.retry, Always(Started), id);
    } else {
      NotTouched(c3, c3.retry, Always(Started), id);
    }
  }

  /** A lost lease is forgotten and nothing else. */
  lemma LostLeaseIsForgotten(c: Cluster, force: bool, launches: Launches, sweep: Launches)
    requires Listed(c)
    ensures SetLease(c, 0, force, launches, sweep) == c.(lease := 0)
  {}

  /** A cluster that needs no lease is started by a tick; one that waits for its lease, or cannot reach the server, does
      nothing. */
  lemma TickStartsOrWaits(c: Cluster, ready: bool, sweep: Launches)
    requires Listed(c) && !c.closing
    ensures ready && !c.enableLease ==> Tick(c, ready, sweep).running
    ensures !ready || (c.enableLease && c.lease == 0) ==> Tick(c, ready, sweep) == c
  {
    hide RepublishAll;
  }
}
