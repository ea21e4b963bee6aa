/** The publisher side of `etcd_cluster.cpp`: the members, the retry list and the lease, as a value and the steps that
    change it. Requests complete later, in any order, successfully or not. */
module Cluster {
  import opened Common
  import opened Keepalives

  type Id = nat

  datatype Cluster = Cluster(
    lease: int,
    running: bool,
    closing: bool,
    enableLease: bool,
    actors: seq<Id>,
    retry: seq<Id>,
    keepalives: map<Id, Keepalive>)

  function Update(c: Cluster, id: Id, k: Keepalive): Cluster { c.(keepalives := c.keepalives[id := k]) }

  function AddRetry(c: Cluster, id: Id): Cluster {
    if c.closing || id in c.retry then c else c.(enableLease := true, retry := c.retry + [id])
  }

  /** `active` on a keepalive, and the entry into the retry list if its request fails at once. */
  function Activate(c: Cluster, id: Id, launch: Launch): (r: Cluster)
    requires id in c.keepalives
    ensures r == c.(retry := r.retry, enableLease := r.enableLease, keepalives := r.keepalives)
    ensures r.keepalives.Keys == c.keepalives.Keys
    ensures forall i :: i in r.retry ==> i in c.retry || i == id
  {
    var p := Process(c.keepalives[id], c.lease, c.closing, launch);
    var c := Update(c, id, p.keepalive);
    if p.needRetry then AddRetry(c, id) else c
  }

  function SetValue(c: Cluster, id: Id, value: string, launch: Launch): Cluster
    requires id in c.keepalives
  {
    if c.keepalives[id].value == value then c
    else
      var c := Update(c, id, c.keepalives[id].(value := value, valueChanged := true));
      if c.running && c.lease != 0 then Activate(c, id, launch) else c
  }

  function AddKeepalive(c: Cluster, id: Id, launch: Launch): Cluster
    requires id in c.keepalives
  {
    if c.closing || id in c.actors then c
    else
      var c := c.(enableLease := true, actors := c.actors + [id]);
      if c.running && c.lease != 0 then Activate(c, id, launch) else c
  }

  /** The last element takes the place of the first occurrence of `id`. */
  function SwapAndPop(s: seq<Id>, id: Id): seq<Id> {
    if id !in s then s else s[IndexOf(s, id) := s[|s| - 1]][..|s| - 1]
  }

  function IndexOf(s: seq<Id>, id: Id): (i: nat)
    requires id in s
    ensures i < |s| && s[i] == id && id !in s[..i]
  {
    if s[0] == id then 0 else 1 + IndexOf(s[1..], id)
  }

  /** Removal closes the keepalive; one that has data leaves a delete behind (see module Deletors). */
  function RemoveKeepalive(c: Cluster, id: Id): Cluster
    requires id in c.keepalives
  {
    if id !in c.actors && id !in c.retry then c
    else
      var k := c.keepalives[id];
      Update(c.(actors := SwapAndPop(c.actors, id), retry := SwapAndPop(c.retry, id)), id, Closed(k, k.hasData))
  }

  function GetDone(c: Cluster, id: Id, reply: GetReply, launch: Launch): Cluster
    requires id in c.keepalives
  {
    var k := c.keepalives[id].(request := NoRequest);
    if !reply.GetOk? then AddRetry(Update(c, id, k), id)
    else Activate(Update(c, id, Checked(k, reply.content)), id, launch)
  }

  function PutDone(c: Cluster, id: Id, ok: bool, launch: Launch): Cluster
    requires id in c.keepalives && c.keepalives[id].request.Put?
  {
    var k := c.keepalives[id];
    var done := k.(request := NoRequest);
    if !ok then AddRetry(Update(c, id, done.(valueChanged := true)), id)
    else
      var acked := Some(Published(k.request.value, k.request.lease));
      Activate(Update(c, id, done.(hasData := true, acked := acked)), id, launch)
  }

  type Launches = Id -> Launch

  /** `reset_value_changed` and `active`. */
  function Republish(c: Cluster, id: Id, launch: Launch): (r: Cluster)
    requires id in c.keepalives
    ensures r == c.(retry := r.retry, enableLease := r.enableLease, keepalives := r.keepalives)
    ensures r.keepalives.Keys == c.keepalives.Keys
    ensures forall i :: i in r.retry ==> i in c.retry || i == id
  {
    Activate(Update(c, id, c.keepalives[id].(valueChanged := true)), id, launch)
  }

  function RepublishAll(c: Cluster, ids: seq<Id>, launches: Launches): (r: Cluster)
    requires forall id :: id in ids ==> id in c.keepalives
    ensures r == c.(retry := r.retry, enableLease := r.enableLease, keepalives := r.keepalives)
    ensures r.keepalives.Keys == c.keepalives.Keys
    ensures forall id :: id in r.retry ==> id in c.retry || id in ids
    decreases |ids|
  {
    if ids == [] then c else RepublishAll(Republish(c, ids[0], launches(ids[0])), ids[1..], launches)
  }

  lemma RepublishFirst(c: Cluster, ids: seq<Id>, launches: Launches)
    requires ids != [] && forall id :: id in ids ==> id in c.keepalives
    ensures RepublishAll(c, ids, launches) == RepublishAll(Republish(c, ids[0], launches(ids[0])), ids[1..], launches)
  {}

  lemma RepublishNone(c: Cluster, launches: Launches)
    ensures RepublishAll(c, [], launches) == c
  {}

  ghost predicate Listed(c: Cluster) {
    && (forall id :: id in c.actors ==> id in c.keepalives)
    && (forall id :: id in c.retry ==> id in c.keepalives)
  }

  /** The keepalive part of `retry_pending_actions`. The list is cleared even of those that failed again. */
  function Sweep(c: Cluster, launches: Launches): (r: Cluster)
    requires Listed(c)
    ensures Listed(r)
  {
    if c.lease == 0 then c else RepublishAll(c, c.retry, launches).(retry := [])
  }

  /** `ready`: there is a curl handle and a member to talk to, and no authorization is outstanding. */
  function Tick(c: Cluster, ready: bool, sweep: Launches): Cluster
    requires Listed(c)
  {
    if c.closing || !ready || (c.enableLease && c.lease == 0) then c
    else Sweep(c.(running := c.running || !c.enableLease), sweep)
  }

  /** A lease granted or kept alive (`running` is set before), or lost when `lease` is 0. */
  function SetLease(c: Cluster, lease: int, force: bool, launches: Launches, sweep: Launches): (r: Cluster)
    requires Listed(c)
    ensures Listed(r)
  {
    var c1 := c.(lease := lease, running := c.running || lease != 0);
    if c.lease == lease && !force && lease != 0 then Sweep(c1, sweep)
    else if lease == 0 then c1
    else Sweep(RepublishAll(c1.(retry := []), c.actors, launches), sweep)
  }

  function CloseAll(keepalives: map<Id, Keepalive>, ids: seq<Id>): map<Id, Keepalive> {
    map id | id in keepalives :: if id in ids then Closed(keepalives[id], false) else keepalives[id]
  }

  function CloseCluster(c: Cluster): Cluster {
    c.(closing := true, lease := 0, actors := [], retry := [], keepalives := CloseAll(c.keepalives, c.actors))
  }

  // ---------------------------------------------------------------- runs

  datatype Step =
    | Create(id: Id, path: Key)
    | InstallChecker(id: Id, checker: Option<string -> bool>)
    | ChangeValue(id: Id, value: string, launch: Launch)
    | Join(id: Id, launch: Launch)
    | Leave(id: Id)
    | AnswerGet(id: Id, reply: GetReply, launch: Launch)
    | AnswerPut(id: Id, ok: bool, launch: Launch)
    | AnswerLease(lease: int, force: bool, launches: Launches, sweep: Launches)
    | TickNow(ready: bool, sweep: Launches)
    | CloseOne(id: Id, resetHasData: bool)
    | Shutdown
    | Reopen

  const INITIAL := Cluster(0, false, false, false, [], [], map[])

  /** One step; a step that is not possible changes nothing. */
  ghost function Apply(c: Cluster, step: Step): Cluster
    requires Listed(c)
  {
    match step
    case Create(id, path) => if id in c.keepalives then c else Update(c, id, Created(path))
    case InstallChecker(id, checker) =>
      if id in c.keepalives then Update(c, id, WithChecker(c.keepalives[id], checker)) else c
    case ChangeValue(id, value, launch) => if id in c.keepalives then SetValue(c, id, value, launch) else c
    case Join(id, launch) => if id in c.keepalives then AddKeepalive(c, id, launch) else c
    case Leave(id) => if id in c.keepalives then RemoveKeepalive(c, id) else c
    case AnswerGet(id, reply, launch) =>
      if id in c.keepalives && c.keepalives[id].request.Get? then GetDone(c, id, reply, launch) else c
    case AnswerPut(id, ok, launch) =>
      if id in c.keepalives && c.keepalives[id].request.Put? then PutDone(c, id, ok, launch) else c
    case AnswerLease(lease, force, launches, sweep) =>
      if c.closing then c else SetLease(c, lease, force, launches, sweep)
    case TickNow(ready, sweep) => Tick(c, ready, sweep)
    case CloseOne(id, reset) => if id in c.keepalives then Update(c, id, Closed(c.keepalives[id], reset)) else c
    case Shutdown => CloseCluster(c)
    case Reopen => c.(closing := false)
  }

  // ---------------------------------------------------------------- never stale

  /** A member that passed its check, waits for nothing and is not to be retried has its value published. */
  ghost predicate NeverStale(c: Cluster) {
    c.lease != 0 && !c.closing ==>
      forall id :: id in c.actors && id !in c.retry && id in c.keepalives ==>
        var k := c.keepalives[id];
        k.checkRun && k.checkPassed && k.request == NoRequest ==> k.Current(c.lease)
  }

  /** What makes a member fresh by itself: its value is published under the lease, or about to be. */
  ghost predicate FreshNow(k: Keepalive, lease: int) {
    match k.request
    case NoRequest => k.checkRun && k.checkPassed ==> k.Current(lease)
    case Put(value, l) => k.valueChanged || (value == k.value && l == lease)
    case Get => true
  }

  ghost predicate Fresh(c: Cluster, id: Id)
    requires id in c.keepalives
  {
    id in c.retry || FreshNow(c.keepalives[id], c.lease)
  }

  ghost predicate Distinct(s: seq<Id>) {
    forall id :: multiset(s)[id] <= 1
  }

  /** The invariant, but for the freshness of the keepalives in `stale`. */
  ghost predicate InvBut(c: Cluster, stale: set<Id>) {
    && Listed(c) && Distinct(c.retry)
    && (c.closing ==> c.lease == 0)
    && (c.lease != 0 ==> c.running)
    && (forall id :: id in c.keepalives ==> CheckInv(c.keepalives[id]))
    && (c.lease != 0 ==> forall id :: id in c.actors && id !in stale ==> Fresh(c, id))
  }

  ghost predicate Inv(c: Cluster) { InvBut(c, {}) }

  lemma InvIsNeverStale(c: Cluster)
    requires Inv(c)
    ensures NeverStale(c)
  {
    if c.lease != 0 {
      forall id | id in c.actors && id !in c.retry
        ensures var k := c.keepalives[id];
                k.checkRun && k.checkPassed && k.request == NoRequest ==> k.Current(c.lease)
      {
        assert Fresh(c, id);
      }
    }
  }

  lemma ProcessMakesFresh(k: Keepalive, lease: int, launch: Launch)
    requires lease != 0 && CheckInv(k) && (k.valueChanged || FreshNow(k, lease))
    ensures var p := Process(k, lease, false, launch);
            && (!p.needRetry ==> FreshNow(p.keepalive, lease))
            && (launch == Started ==> !p.needRetry)
  {}

  lemma UpdateKeepsInv(c: Cluster, id: Id, k: Keepalive, stale: set<Id>)
    requires InvBut(c, stale) && CheckInv(k)
    ensures InvBut(Update(c, id, k), stale + {id})
    ensures c.lease == 0 || id in c.retry || FreshNow(k, c.lease) || id !in c.actors ==>
              InvBut(Update(c, id, k), stale - {id})
  {
    var c' := Update(c, id, k);
    forall i | i in c'.keepalives ensures CheckInv(c'.keepalives[i]) {}
    if c.lease != 0 {
      forall i | i in c'.actors && i !in stale && i != id ensures Fresh(c', i) {
        assert Fresh(c, i);
      }
    }
  }

  lemma AddRetryKeepsInv(c: Cluster, id: Id, stale: set<Id>)
    requires InvBut(c, stale) && id in c.keepalives
    ensures InvBut(AddRetry(c, id), if c.closing then stale else stale - {id})
  {
    var c' := AddRetry(c, id);
    if c.lease != 0 {
      forall i | i in c'.actors && (i !in stale || i == id) ensures Fresh(c', i) {
        if i != id {
          assert Fresh(c, i);
        }
      }
    }
  }

  /** Activating a keepalive that is fresh, or has its dirty flag set, leaves it fresh. */
  lemma ActivateKeepsInv(c: Cluster, id: Id, launch: Launch, stale: set<Id>)
    requires InvBut(c, stale) && id in c.keepalives
    requires c.lease != 0 && id in c.actors ==> c.keepalives[id].valueChanged || (id !in stale && Fresh(c, id))
    ensures InvBut(Activate(c, id, launch), stale - {id})
  {
    var p := Process(c.keepalives[id], c.lease, c.closing, launch);
    ProcessKeepsCheckInv(c.keepalives[id], c.lease, c.closing, launch);
    if c.lease != 0 && (c.keepalives[id].valueChanged || FreshNow(c.keepalives[id], c.lease)) {
      ProcessMakesFresh(c.keepalives[id], c.lease, launch);
    }
    UpdateKeepsInv(c, id, p.keepalive, stale);
    if p.needRetry {
      AddRetryKeepsInv(Update(c, id, p.keepalive), id, stale + {id});
      assert stale + {id} - {id} == stale - {id};
    }
  }

  lemma SetValueKeepsInv(c: Cluster, id: Id, value: string, launch: Launch)
    requires Inv(c) && id in c.keepalives
    ensures Inv(SetValue(c, id, value, launch))
  {
    var k := c.keepalives[id];
    if k.value != value {
      var k' := k.(value := value, valueChanged := true);
      UpdateKeepsInv(c, id, k', {});
      if c.running && c.lease != 0 {
        ActivateKeepsInv(Update(c, id, k'), id, launch, {} + {id});
        assert ({} + {id}) - {id} == {};
      } else {
        assert {} - {id} == {};
      }
    }
  }

  /** What keeps a keepalive from being stale when it joins: its dirty flag is set, it waits to be retried, or the
      last put it started carries the value and the lease of now. */
  ghost predicate CleanToJoin(c: Cluster, id: Id)
    requires id in c.keepalives
  {
    var k := c.keepalives[id];
    || k.valueChanged
    || id in c.retry
    || (match k.request
        case NoRequest => k.Current(c.lease)
        case Put(value, l) => value == k.value && l == c.lease
        case Get => true)
  }

  lemma AddKeepaliveKeepsInv(c: Cluster, id: Id, launch: Launch)
    requires Inv(c) && id in c.keepalives && (c.lease != 0 ==> CleanToJoin(c, id))
    ensures Inv(AddKeepalive(c, id, launch))
  {
    if !c.closing && id !in c.actors {
      var c1 := c.(enableLease := true, actors := c.actors + [id]);
      if c.lease != 0 {
        forall i | i in c1.actors && i != id ensures Fresh(c1, i) {
          assert Fresh(c, i);
        }
        if c.keepalives[id].valueChanged {
          ActivateKeepsInv(c1, id, launch, {id});
        } else {
          assert Fresh(c1, id);
          ActivateKeepsInv(c1, id, launch, {});
        }
      }
    }
  }

  /** No member is stale once the keepalive has joined, nor once a put it has in flight is acknowledged. */
  ghost predicate JoinsFresh(c: Cluster, id: Id, launch: Launch, next: Launch)
    requires id in c.keepalives
  {
    var joined := AddKeepalive(c, id, launch);
    NeverStale(joined) && (joined.keepalives[id].request.Put? ==> NeverStale(PutDone(joined, id, true, next)))
  }

  /** Joining under a lease leaves nothing stale, now and after the put in flight, if and only if the keepalive is
      clean: one whose last put went out under an older lease, while it was not a member, is never put again. */
  lemma JoinIsNeverStaleIff(c: Cluster, id: Id, launch: Launch, next: Launch)
    requires Inv(c) && id in c.keepalives && c.lease != 0 && !c.closing && id !in c.actors
    ensures JoinsFresh(c, id, launch, next) <==> CleanToJoin(c, id)
  {
    hide PutDone;
    var joined := AddKeepalive(c, id, launch);
    if CleanToJoin(c, id) {
      AddKeepaliveKeepsInv(c, id, launch);
      InvIsNeverStale(joined);
      if joined.keepalives[id].request.Put? {
        PutDoneKeepsInv(joined, id, true, next);
        InvIsNeverStale(PutDone(joined, id, true, next));
      }
    } else {
      JoinedUnclean(c, id, launch, next);
    }
  }

  /** With no request in flight the staleness shows at once. */
  lemma JoiningUncleanIsStale(c: Cluster, id: Id, launch: Launch)
    requires Inv(c) && id in c.keepalives && c.lease != 0 && !c.closing && id !in c.actors
    requires !CleanToJoin(c, id) && c.keepalives[id].request == NoRequest
    ensures !NeverStale(AddKeepalive(c, id, launch))
  {
    var joined := AddKeepalive(c, id, launch);
    assert id in joined.actors && id !in joined.retry;
  }

  /** The invariant is kept under the same condition. */
  lemma JoinKeepsInvIff(c: Cluster, id: Id, launch: Launch)
    requires Inv(c) && id in c.keepalives && c.lease != 0 && !c.closing && id !in c.actors
    ensures Inv(AddKeepalive(c, id, launch)) <==> CleanToJoin(c, id)
  {
    if CleanToJoin(c, id) {
      AddKeepaliveKeepsInv(c, id, launch);
    } else {
      assert !Fresh(AddKeepalive(c, id, launch), id);
    }
  }

  lemma JoinedUnclean(c: Cluster, id: Id, launch: Launch, next: Launch)
    requires Inv(c) && id in c.keepalives && c.lease != 0 && !c.closing && id !in c.actors
    requires !CleanToJoin(c, id)
    ensures !JoinsFresh(c, id, launch, next)
  {
    var joined := AddKeepalive(c, id, launch);
    assert id in joined.actors && id !in joined.retry;
    assert joined.keepalives[id].request == c.keepalives[id].request;
    if joined.keepalives[id].request.Put? {
      var done := PutDone(joined, id, true, next);
      assert id in done.actors && id !in done.retry && done.keepalives[id].request == NoRequest;
    }
  }

  /** The keepalive as it would be with another history of puts: the fields the object has are the same. */
  function WithHistory(c: Cluster, id: Id, acked: Option<Published>, inFlight: Published): Cluster
    requires id in c.keepalives
  {
    var k := c.keepalives[id];
    Update(c, id, k.(acked := acked,
                     request := if k.request.Put? then Put(inFlight.value, inFlight.lease) else k.request))
  }

  /** What the caller of `add_keepalive` can look at: the dirty flag, the retry list, whether a check is under way. */
  predicate VisiblyClean(c: Cluster, id: Id)
    requires id in c.keepalives
  {
    c.keepalives[id].valueChanged || id in c.retry || c.keepalives[id].request.Get?
  }

  /** The test that does not depend on what was put before is exact: a join is safe whatever puts came before it if and
      only if the dirty flag is set, a retry is due or a check is under way. */
  lemma JoinIsSafeWhateverWasPutIff(c: Cluster, id: Id, launch: Launch, next: Launch)
    requires Inv(c) && id in c.keepalives && c.lease != 0 && !c.closing && id !in c.actors
    ensures (forall acked, inFlight :: JoinsFresh(WithHistory(c, id, acked, inFlight), id, launch, next))
            <==> VisiblyClean(c, id)
  {
    hide JoinsFresh;
    forall acked, inFlight
      ensures Inv(WithHistory(c, id, acked, inFlight))
      ensures JoinsFresh(WithHistory(c, id, acked, inFlight), id, launch, next)
              <==> CleanToJoin(WithHistory(c, id, acked, inFlight), id)
    {
      HistoryKeepsInv(c, id, acked, inFlight);
      JoinIsNeverStaleIff(WithHistory(c, id, acked, inFlight), id, launch, next);
    }
    if !VisiblyClean(c, id) {
      assert !CleanToJoin(WithHistory(c, id, None, Published("", c.lease + 1)), id);
    }
  }

  lemma HistoryKeepsInv(c: Cluster, id: Id, acked: Option<Published>, inFlight: Published)
    requires Inv(c) && id in c.keepalives && id !in c.actors
    ensures Inv(WithHistory(c, id, acked, inFlight))
  {
    UpdateKeepsInv(c, id, WithHistory(c, id, acked, inFlight).keepalives[id], {});
    assert {} - {id} == {};
  }

  /** Exactly one occurrence goes. */
  lemma SwapAndPopIsRemoval(s: seq<Id>, id: Id)
    ensures multiset(SwapAndPop(s, id)) == multiset(s) - multiset{id}
  {
    if id !in s {
      Absent(s, id);
    } else {
      var i, n, r := IndexOf(s, id), |s| - 1, SwapAndPop(s, id);
      assert r == s[i := s[n]][..n];
      hide *;
      if i == n {
        SwapLast(s[..n], id);
        assert s == s[..n] + [id] && r == s[..n];
      } else {
        SwapInside(s[..i], id, s[i + 1..n], s[n]);
        SwapPieces(s, i);
      }
    }
  }

  lemma Absent(s: seq<Id>, id: Id)
    requires id !in s
    ensures multiset(s) == multiset(s) - multiset{id}
  {
    assert multiset(s)[id] == 0;
  }

  lemma SwapPieces(s: seq<Id>, i: nat)
    requires i < |s| - 1
    ensures var n := |s| - 1;
            && s == s[..i] + [s[i]] + s[i + 1..n] + [s[n]]
            && s[i := s[n]][..n] == s[..i] + [s[n]] + s[i + 1..n]
  {}

  lemma SwapLast(front: seq<Id>, id: Id)
    ensures multiset(front) == multiset(front + [id]) - multiset{id}
  {
    assert multiset(front + [id]) == multiset(front) + multiset{id};
  }

  lemma SwapInside(front: seq<Id>, id: Id, back: seq<Id>, last: Id)
    ensures multiset(front + [last] + back) == multiset(front + [id] + back + [last]) - multiset{id}
  {
    var ms := multiset(front) + multiset(back) + multiset{last};
    assert multiset(front + [last] + back) == ms;
    assert multiset(front + [id] + back + [last]) == ms + multiset{id};
  }

  lemma SwapAndPopMembers(s: seq<Id>, id: Id)
    ensures forall i :: i in SwapAndPop(s, id) ==> i in s
    ensures forall i :: i != id && i in s ==> i in SwapAndPop(s, id)
  {
    hide SwapAndPop;
    SwapAndPopIsRemoval(s, id);
    forall i ensures i in SwapAndPop(s, id) <==> i in multiset(SwapAndPop(s, id)) {}
    forall i ensures i in s <==> i in multiset(s) {}
  }

  lemma RemoveKeepaliveKeepsInv(c: Cluster, id: Id)
    requires Inv(c) && id in c.keepalives
    ensures Inv(RemoveKeepalive(c, id))
  {
    SwapAndPopMembers(c.actors, id);
    SwapAndPopMembers(c.retry, id);
    SwapAndPopIsRemoval(c.retry, id);
    if id in c.actors || id in c.retry {
      var c1 := c.(actors := SwapAndPop(c.actors, id), retry := SwapAndPop(c.retry, id));
      if c.lease != 0 {
        forall i | i in c1.actors && i != id ensures Fresh(c1, i) {
          assert Fresh(c, i);
        }
      }
      UpdateKeepsInv(c1, id, Closed(c.keepalives[id], c.keepalives[id].hasData), {id});
      assert {id} - {id} == {};
    }
  }

  lemma GetDoneKeepsInv(c: Cluster, id: Id, reply: GetReply, launch: Launch)
    requires Inv(c) && id in c.keepalives && c.keepalives[id].request.Get?
    ensures Inv(GetDone(c, id, reply, launch))
  {
    var k := c.keepalives[id].(request := NoRequest);
    if reply.GetOk? {
      CheckedKeepsCheckInv(c.keepalives[id], reply.content);
      UpdateKeepsInv(c, id, Checked(k, reply.content), {});
      ActivateKeepsInv(Update(c, id, Checked(k, reply.content)), id, launch, {} + {id});
    } else {
      UpdateKeepsInv(c, id, k, {});
      AddRetryKeepsInv(Update(c, id, k), id, {});
    }
    assert ({} + {id}) - {id} == {} && {} - {id} == {};
  }

  lemma PutDoneKeepsInv(c: Cluster, id: Id, ok: bool, launch: Launch)
    requires Inv(c) && id in c.keepalives && c.keepalives[id].request.Put?
    ensures Inv(PutDone(c, id, ok, launch))
  {
    var k := c.keepalives[id];
    var done := k.(request := NoRequest);
    if ok {
      var k' := done.(hasData := true, acked := Some(Published(k.request.value, k.request.lease)));
      UpdateKeepsInv(c, id, k', {});
      assert c.lease != 0 && id in c.actors ==> Fresh(c, id);
      if c.lease != 0 && id in c.actors && !k'.valueChanged {
        assert Fresh(Update(c, id, k'), id);
        assert {} - {id} == {};
        ActivateKeepsInv(Update(c, id, k'), id, launch, {});
      } else {
        ActivateKeepsInv(Update(c, id, k'), id, launch, {} + {id});
      }
      assert ({} + {id}) - {id} == {} && {} - {id} == {};
    } else {
      UpdateKeepsInv(c, id, done.(valueChanged := true), {});
      AddRetryKeepsInv(Update(c, id, done.(valueChanged := true)), id, {} + {id});
      assert ({} + {id}) - {id} == {};
    }
  }

  lemma RepublishKeepsInv(c: Cluster, id: Id, launch: Launch, stale: set<Id>)
    requires InvBut(c, stale) && id in c.keepalives
    ensures InvBut(Republish(c, id, launch), stale - {id})
  {
    var k := c.keepalives[id].(valueChanged := true);
    UpdateKeepsInv(c, id, k, stale);
    ActivateKeepsInv(Update(c, id, k), id, launch, stale + {id});
    assert stale + {id} - {id} == stale - {id};
  }

  lemma {:induction false} RepublishAllKeepsInv(c: Cluster, ids: seq<Id>, launches: Launches, stale: set<Id>)
    requires InvBut(c, stale) && forall id :: id in ids ==> id in c.keepalives
    requires forall id :: id in stale ==> id in ids
    ensures Inv(RepublishAll(c, ids, launches))
    decreases |ids|
  {
    hide InvBut, Republish;
    if ids == [] {
      assert stale == {};
    } else {
      RepublishKeepsInv(c, ids[0], launches(ids[0]), stale);
      RepublishAllKeepsInv(Republish(c, ids[0], launches(ids[0])), ids[1..], launches, stale - {ids[0]});
    }
  }

  /** The staleness a keepalive swept without success is left in: its flag is set but nothing will look at it. */
  ghost predicate StaleIfLost(k: Keepalive, lease: int) {
    k.request == NoRequest && (k.checker.None? || (k.checkRun && k.checkPassed)) && !k.Current(lease)
  }

  lemma DistinctTail(s: seq<Id>)
    requires s != [] && Distinct(s)
    ensures s[0] !in s[1..] && Distinct(s[1..])
  {
    assert s == [s[0]] + s[1..];
    assert multiset(s) == multiset{s[0]} + multiset(s[1..]);
    assert multiset(s)[s[0]] <= 1 && multiset(s[1..])[s[0]] == 0;
    forall id ensures multiset(s[1..])[id] <= multiset(s)[id] {}
  }

  lemma RepublishTouchesOne(c: Cluster, id: Id, launch: Launch)
    requires id in c.keepalives
    ensures var k := c.keepalives[id].(valueChanged := true);
            Republish(c, id, launch).keepalives
            == c.keepalives[id := Process(k, c.lease, c.closing, launch).keepalive]
  {
    hide Process;
  }

  lemma {:induction false} RepublishAllFollows(c: Cluster, ids: seq<Id>, launches: Launches, id: Id)
    requires c.lease != 0 && !c.closing && id in c.keepalives
    requires forall i :: i in ids ==> i in c.keepalives
    requires Distinct(ids)
    ensures var k' := RepublishAll(c, ids, launches).keepalives[id];
            k' == if id in ids
                  then Process(c.keepalives[id].(valueChanged := true), c.lease, false, launches(id)).keepalive
                  else c.keepalives[id]
    decreases |ids|
  {
    if ids != [] {
      DistinctTail(ids);
      RepublishTouchesOne(c, ids[0], launches(ids[0]));
      hide Distinct, Process, Republish;
      RepublishAllFollows(Republish(c, ids[0], launches(ids[0])), ids[1..], launches, id);
    }
  }

  lemma SweptOne(k: Keepalive, lease: int, launch: Launch)
    requires lease != 0
    ensures var k' := Process(k.(valueChanged := true), lease, false, launch).keepalive;
            k'.checkRun && k'.checkPassed && k'.request == NoRequest && !k'.Current(lease)
            <==> StaleIfLost(k, lease) && launch != Started
  {}

  /** The requests of the members that would be stale without them can be made. */
  ghost predicate SweepSafe(c: Cluster, launches: Launches)
    requires Listed(c)
  {
    c.lease != 0 ==>
      forall id :: id in c.retry && id in c.actors && StaleIfLost(c.keepalives[id], c.lease) ==> launches(id) == Started
  }

  lemma SweptOneIsFresh(k: Keepalive, lease: int, launch: Launch)
    requires lease != 0 && CheckInv(k) && (StaleIfLost(k, lease) ==> launch == Started)
    ensures FreshNow(Process(k.(valueChanged := true), lease, false, launch).keepalive, lease)
  {
    SweptOne(k, lease, launch);
  }

  lemma SweepKeepsInv(c: Cluster, launches: Launches)
    requires Inv(c) && SweepSafe(c, launches)
    ensures Inv(Sweep(c, launches))
  {
    hide Process, CheckInv, FreshNow;
    if c.lease != 0 {
      RepublishAllKeepsInv(c, c.retry, launches, {});
      var c1 := RepublishAll(c, c.retry, launches);
      var c' := c1.(retry := []);
      forall id | id in c'.actors ensures Fresh(c', id) {
        RepublishAllFollows(c, c.retry, launches, id);
        assert Fresh(c, id);
        if id in c.retry { SweptOneIsFresh(c.keepalives[id], c.lease, launches(id)); }
      }
    }
  }

  /** A sweep leaves no member stale if and only if the requests of those that would be stale without them start:
      `add_retry_keepalive` ignores a member that is still in the list, and then the list is cleared. */
  lemma SweepIsNeverStaleIff(c: Cluster, launches: Launches)
    requires Inv(c)
    ensures NeverStale(Sweep(c, launches)) <==> SweepSafe(c, launches)
  {
    hide Process;
    InvIsNeverStale(c);
    if c.lease != 0 {
      var c' := Sweep(c, launches);
      forall id | id in c.actors
        ensures var k' := c'.keepalives[id];
                k'.checkRun && k'.checkPassed && k'.request == NoRequest && !k'.Current(c.lease)
                <==> id in c.retry && StaleIfLost(c.keepalives[id], c.lease) && launches(id) != Started
      {
        RepublishAllFollows(c, c.retry, launches, id);
        assert Fresh(c, id);
        SweptOne(c.keepalives[id], c.lease, launches(id));
      }
    }
  }

  /** The state in which `set_lease` sweeps. */
  function BeforeSweep(c: Cluster, lease: int, force: bool, launches: Launches): (r: Cluster)
    requires Listed(c)
    ensures Listed(r)
  {
    var c1 := c.(lease := lease, running := c.running || lease != 0);
    if lease == 0 || (c.lease == lease && !force) then c1
    else RepublishAll(c1.(retry := []), c.actors, launches)
  }

  /** Under a new lease every member is to be republished. */
  lemma NewLeaseMakesStale(c: Cluster, lease: int)
    requires Inv(c) && !c.closing && lease != 0
    ensures InvBut(c.(lease := lease, running := true, retry := []), set id | id in c.actors)
  {}

  lemma SetLeaseKeepsInv(c: Cluster, lease: int, force: bool, launches: Launches, sweep: Launches)
    requires Inv(c) && !c.closing && SweepSafe(BeforeSweep(c, lease, force, launches), sweep)
    ensures Inv(SetLease(c, lease, force, launches, sweep))
  {
    hide Sweep, RepublishAll, SweepSafe, CheckInv, Fresh;
    if c.lease == lease && !force && lease != 0 {
      SweepKeepsInv(c.(running := true), sweep);
    } else if lease != 0 {
      NewLeaseMakesStale(c, lease);
      var c2 := c.(lease := lease, running := true, retry := []);
      RepublishAllKeepsInv(c2, c.actors, launches, set id | id in c.actors);
      SweepKeepsInv(RepublishAll(c2, c.actors, launches), sweep);
    }
  }

  lemma CloseClusterKeepsInv(c: Cluster)
    requires Inv(c)
    ensures Inv(CloseCluster(c))
  {}

  /** What the publisher relies on: keepalives join clean, and no retry sweep loses a request that matters. */
  ghost predicate Tame(c: Cluster, step: Step)
    requires Listed(c)
  {
    match step
    case Join(id, _) => id in c.keepalives && c.lease != 0 ==> CleanToJoin(c, id)
    case AnswerLease(lease, force, launches, sweep) =>
      c.closing || SweepSafe(BeforeSweep(c, lease, force, launches), sweep)
    case TickNow(ready, sweep) => !ready || SweepSafe(c, sweep)
    case _ => true
  }

  lemma StepKeepsInv(c: Cluster, step: Step)
    requires Inv(c) && Tame(c, step)
    ensures Inv(Apply(c, step))
  {
    match step
    case Create(id, path) =>
      if id !in c.keepalives {
        var c' := Apply(c, step);
        forall i | i in c'.actors ensures c.lease != 0 ==> Fresh(c', i) {
          assert c.lease != 0 ==> Fresh(c, i);
        }
      }
    case InstallChecker(id, checker) =>
      if id in c.keepalives {
        SetCheckerKeepsCheckInv(c.keepalives[id], checker);
        UpdateKeepsInv(c, id, WithChecker(c.keepalives[id], checker), {});
        assert c.lease != 0 && id in c.actors ==> Fresh(c, id);
        assert {} - {id} == {};
      }
    case ChangeValue(id, value, launch) => if id in c.keepalives { SetValueKeepsInv(c, id, value, launch); }
    case Join(id, launch) => if id in c.keepalives { AddKeepaliveKeepsInv(c, id, launch); }
    case Leave(id) => if id in c.keepalives { RemoveKeepaliveKeepsInv(c, id); }
    case AnswerGet(id, reply, launch) =>
      if id in c.keepalives && c.keepalives[id].request.Get? { GetDoneKeepsInv(c, id, reply, launch); }
    case AnswerPut(id, ok, launch) =>
      if id in c.keepalives && c.keepalives[id].request.Put? { PutDoneKeepsInv(c, id, ok, launch); }
    case AnswerLease(lease, force, launches, sweep) =>
      if !c.closing { SetLeaseKeepsInv(c, lease, force, launches, sweep); }
    case TickNow(ready, sweep) =>
      if ready { SweepKeepsInv(c.(running := c.running || !c.enableLease), sweep); }
    case CloseOne(id, reset) =>
      if id in c.keepalives {
        UpdateKeepsInv(c, id, Closed(c.keepalives[id], reset), {});
        assert {} - {id} == {};
      }
    case Shutdown => CloseClusterKeepsInv(c);
    case Reopen =>
  }

  lemma ApplyKeepsListed(c: Cluster, step: Step)
    requires Listed(c)
    ensures Listed(Apply(c, step))
  {
    hide Process, SwapAndPop, Sweep, SetLease, RepublishAll;
    match step
    case Leave(id) =>
      SwapAndPopMembers(c.actors, id);
      SwapAndPopMembers(c.retry, id);
    case _ =>
  }

  ghost function Run(c: Cluster, steps: seq<Step>): Cluster
    requires Listed(c)
    decreases |steps|
  {
    if steps == [] then c
    else
      ApplyKeepsListed(c, steps[0]);
      Run(Apply(c, steps[0]), steps[1..])
  }

  ghost predicate TameRun(c: Cluster, steps: seq<Step>)
    requires Listed(c)
    decreases |steps|
  {
    steps == [] ||
    (Tame(c, steps[0]) && (ApplyKeepsListed(c, steps[0]); TameRun(Apply(c, steps[0]), steps[1..])))
  }

  lemma {:induction false} RunKeepsInv(c: Cluster, steps: seq<Step>)
    requires Inv(c) && TameRun(c, steps)
    ensures Inv(Run(c, steps))
    decreases |steps|
  {
    if steps != [] {
      StepKeepsInv(c, steps[0]);
      RunKeepsInv(Apply(c, steps[0]), steps[1..]);
    }
  }

  /** Publication is never stale: over every tame run, also when value or lease change while a put is in flight. */
  lemma PublicationIsNeverStale(steps: seq<Step>)
    requires TameRun(INITIAL, steps)
    ensures NeverStale(Run(INITIAL, steps))
  {
    RunKeepsInv(INITIAL, steps);
    InvIsNeverStale(Run(INITIAL, steps));
  }

  // ---------------------------------------------------------------- where the assumptions are needed

  function Always(launch: Launch): Launches { id => launch }

  lemma RepublishJustOne(c: Cluster, id: Id, launches: Launches)
    requires id in c.keepalives
    ensures RepublishAll(c, [id], launches) == Republish(c, id, launches(id))
  {
    assert [id][1..] == [];
  }

  /** A lease is asked for once something has joined. */
  predicate Granted(c: Cluster, step: Step) { step.AnswerLease? ==> c.enableLease }

  ghost predicate GrantedRun(c: Cluster, steps: seq<Step>)
    requires Listed(c)
    decreases |steps|
  {
    steps == [] ||
    (Granted(c, steps[0]) && (ApplyKeepsListed(c, steps[0]); GrantedRun(Apply(c, steps[0]), steps[1..])))
  }

  lemma RunStep(c: Cluster, steps: seq<Step>, i: nat, c': Cluster)
    requires i < |steps| && Listed(c) && Granted(c, steps[i]) && c' == Apply(c, steps[i])
    ensures Listed(c') && Run(c, steps[i..]) == Run(c', steps[i + 1..])
    ensures GrantedRun(c', steps[i + 1..]) ==> GrantedRun(c, steps[i..])
  {
    hide Apply;
    ApplyKeepsListed(c, steps[i]);
    assert steps[i..][1..] == steps[i + 1..];
  }

  const KEY: Key := [0x6B]

  const GRANT_1 := AnswerLease(1, true, Always(Started), Always(Started))
  const LOSE := AnswerLease(0, false, Always(Started), Always(Started))
  const GRANT_2 := AnswerLease(2, true, Always(Started), Always(Started))

  const CREATED := Cluster(0, false, false, false, [], [], map[0 := Created(KEY)])
  const JOINED := CREATED.(enableLease := true, actors := [0])

  const FIRST_PUT: Keepalive :=
    Keepalive(KEY, "", Put("", 1), false, false, None, true, true, None, [Activated, PutStarted])

  const PUTTING := JOINED.(lease := 1, running := true, keepalives := map[0 := FIRST_PUT])

  lemma CreatedFirst()
    ensures Apply(INITIAL, Create(0, KEY)) == CREATED
  {}

  lemma JoinedFirst()
    ensures Apply(CREATED, Join(0, Started)) == JOINED
  {}

  lemma GrantStartsPut()
    ensures Apply(JOINED, GRANT_1) == PUTTING
  {
    RepublishJustOne(JOINED.(lease := 1, running := true), 0, Always(Started));
    assert [] + [Activated] + [PutStarted] == [Activated, PutStarted];
    assert Republish(JOINED.(lease := 1, running := true), 0, Started) == PUTTING;
  }

  // A put fails, and cannot be made in the next sweep either.

  const WAITING := PUTTING.(
    retry := [0], keepalives := map[0 := FIRST_PUT.(request := NoRequest, valueChanged := true)])

  const SKIPPED :=
    Keepalive(KEY, "", NoRequest, true, false, None, true, true, None, [Activated, PutStarted, Activated])

  const LOST_RETRY: seq<Step> :=
    [Create(0, KEY), Join(0, Started), GRANT_1, AnswerPut(0, false, Started), TickNow(true, Always(CreateFailed))]

  lemma SweepSkips()
    ensures Apply(WAITING, TickNow(true, Always(CreateFailed)))
            == WAITING.(retry := [], keepalives := map[0 := SKIPPED])
  {
    RepublishJustOne(WAITING, 0, Always(CreateFailed));
    assert [Activated, PutStarted] + [Activated] == [Activated, PutStarted, Activated];
    assert Republish(WAITING, 0, CreateFailed) == WAITING.(keepalives := map[0 := SKIPPED]);
  }

  /** From the initial state: a put fails, and the sweep that cannot retry it clears the list; the member is stale. */
  lemma StaleAfterFailedSweep()
    ensures GrantedRun(INITIAL, LOST_RETRY) && !NeverStale(Run(INITIAL, LOST_RETRY))
  {
    hide Apply, Run, GrantedRun;
    var swept := WAITING.(retry := [], keepalives := map[0 := SKIPPED]);
    CreatedFirst();
    JoinedFirst();
    GrantStartsPut();
    PutFails();
    SweepSkips();
    RunStep(INITIAL, LOST_RETRY, 0, CREATED);
    RunStep(CREATED, LOST_RETRY, 1, JOINED);
    RunStep(JOINED, LOST_RETRY, 2, PUTTING);
    RunStep(PUTTING, LOST_RETRY, 3, WAITING);
    RunStep(WAITING, LOST_RETRY, 4, swept);
    EndOfRun(swept, LOST_RETRY);
    assert 0 in swept.actors && !SKIPPED.Current(1);
  }

  lemma PutFails()
    ensures Apply(PUTTING, AnswerPut(0, false, Started)) == WAITING
  {
    assert [] + [0] == [0];
  }

  lemma EndOfRun(c: Cluster, steps: seq<Step>)
    requires Listed(c)
    ensures Run(c, steps[|steps|..]) == c && GrantedRun(c, steps[|steps|..]) && steps[0..] == steps
  {}

  // A value is put by a keepalive that has left; the lease changes; the keepalive joins again.

  const LEFT := JOINED.(actors := [])
  const IDLE := LEFT.(lease := 1, running := true)

  const ALONE_PUT := FIRST_PUT.(value := "v", request := Put("v", 1))
  const ALONE := ALONE_PUT.(request := NoRequest, hasData := true, acked := Some(Published("v", 1)),
                            marks := [Activated, PutStarted, Activated])

  const PUT_STARTED := IDLE.(keepalives := map[0 := ALONE_PUT])
  const PUT_ALONE := IDLE.(keepalives := map[0 := ALONE])

  const CHANGE := ChangeValue(0, "v", Started)
  const DONE := AnswerPut(0, true, Started)
  const JOIN := Join(0, Started)

  const LATE_JOIN: seq<Step> := [Create(0, KEY), JOIN, Leave(0), GRANT_1, CHANGE, DONE, LOSE, GRANT_2, JOIN]

  const STALE := PUT_ALONE.(
    lease := 2, actors := [0], keepalives := map[0 := ALONE.(marks := [Activated, PutStarted, Activated, Activated])])

  lemma JoinedLeaves()
    ensures Apply(JOINED, Leave(0)) == LEFT
  {
    assert SwapAndPop([0], 0) == [];
    assert SwapAndPop([], 0) == [];
  }

  lemma NobodyIsRepublished(c: Cluster, lease: int)
    requires c.actors == [] && c.retry == [] && Listed(c) && !c.closing && lease != 0
    ensures Apply(c, AnswerLease(lease, true, Always(Started), Always(Started))) == c.(lease := lease, running := true)
  {}

  lemma PutsAlone()
    ensures Apply(IDLE, CHANGE) == PUT_STARTED && Apply(PUT_STARTED, DONE) == PUT_ALONE
  {
    assert [] + [Activated] + [PutStarted] == [Activated, PutStarted];
    assert [Activated, PutStarted] + [Activated] == [Activated, PutStarted, Activated];
  }

  lemma JoinsLate()
    ensures Apply(PUT_ALONE.(lease := 2), JOIN) == STALE
  {
    assert [Activated, PutStarted, Activated] + [Activated] == [Activated, PutStarted, Activated, Activated];
  }

  lemma RunToPut()
    ensures Run(INITIAL, LATE_JOIN) == Run(IDLE, LATE_JOIN[4..])
    ensures GrantedRun(IDLE, LATE_JOIN[4..]) ==> GrantedRun(INITIAL, LATE_JOIN)
  {
    hide Apply, Run, GrantedRun;
    CreatedFirst();
    RunStep(INITIAL, LATE_JOIN, 0, CREATED);
    JoinedFirst();
    RunStep(CREATED, LATE_JOIN, 1, JOINED);
    JoinedLeaves();
    RunStep(JOINED, LATE_JOIN, 2, LEFT);
    NobodyIsRepublished(LEFT, 1);
    RunStep(LEFT, LATE_JOIN, 3, IDLE);
    assert LATE_JOIN[0..] == LATE_JOIN;
  }

  lemma RunFromPut()
    ensures Run(IDLE, LATE_JOIN[4..]) == STALE && GrantedRun(IDLE, LATE_JOIN[4..])
  {
    hide Apply, Run, GrantedRun;
    PutsAlone();
    RunStep(IDLE, LATE_JOIN, 4, PUT_STARTED);
    RunStep(PUT_STARTED, LATE_JOIN, 5, PUT_ALONE);
    LeaseIsLost(PUT_ALONE);
    RunStep(PUT_ALONE, LATE_JOIN, 6, PUT_ALONE.(lease := 0));
    NobodyIsRepublished(PUT_ALONE.(lease := 0), 2);
    RunStep(PUT_ALONE.(lease := 0), LATE_JOIN, 7, PUT_ALONE.(lease := 2));
    JoinsLate();
    RunStep(PUT_ALONE.(lease := 2), LATE_JOIN, 8, STALE);
    EndOfRun(STALE, LATE_JOIN);
  }

  /** From the initial state: a value put while the keepalive is no member survives a lease change and is stale once it
      joins. */
  lemma StaleAfterUncleanJoin()
    ensures GrantedRun(INITIAL, LATE_JOIN) && !NeverStale(Run(INITIAL, LATE_JOIN))
  {
    hide Run, GrantedRun;
    RunToPut();
    RunFromPut();
    assert 0 in STALE.actors && !STALE.keepalives[0].Current(2);
  }

  lemma LeaseIsLost(c: Cluster)
    requires Listed(c) && !c.closing
    ensures Apply(c, LOSE) == c.(lease := 0)
  {}

  /** The way `add_keepalive_actor` brings a new keepalive in is clean, whatever the cluster is doing. */
  lemma ActorJoinsClean(c: Cluster, id: Id, path: Key, value: string, launch: Launch)
    requires Inv(c) && id !in c.keepalives
    ensures var c1 := Apply(c, Create(id, path));
            var c2 := Apply(c1, InstallChecker(id, Some(DefaultChecker(value))));
            var c3 := Apply(c2, ChangeValue(id, value, launch));
            id in c3.keepalives && CleanToJoin(c3, id) && Guarded(c3.keepalives[id].marks)
  {
    var k := WithChecker(Created(path), Some(DefaultChecker(value)));
    var k' := k.(value := value, valueChanged := true);
    assert k.marks == [CheckerInstalled];
    ActivatedFresh(k', c.lease, c.closing, launch);
    CreatedWithChecker(c, id, path, Some(DefaultChecker(value)));
    hide Process, AddRetry, WithChecker;
    var c3 := SetValue(Update(c, id, k), id, value, launch);
    assert c3.keepalives[id] == k || c3.keepalives[id] == k'
      || c3.keepalives[id] == Process(k', c.lease, c.closing, launch).keepalive;
  }

  lemma CreatedWithChecker(c: Cluster, id: Id, path: Key, checker: Option<string -> bool>)
    requires Listed(c) && id !in c.keepalives
    ensures Listed(Apply(c, Create(id, path)))
    ensures Apply(Apply(c, Create(id, path)), InstallChecker(id, checker))
            == Update(c, id, WithChecker(Created(path), checker))
  {}

  lemma ActivatedFresh(k: Keepalive, lease: int, closing: bool, launch: Launch)
    requires k.request == NoRequest && k.valueChanged && k.checker.Some? && !k.checkRun && k.marks == [CheckerInstalled]
    ensures var k' := Process(k, lease, closing, launch).keepalive;
            k'.valueChanged && k'.marks == [CheckerInstalled, Activated]
  {}

  // ---------------------------------------------------------------- check before put

  ghost predicate AllChecked(c: Cluster) {
    forall id :: id in c.keepalives ==> CheckInv(c.keepalives[id])
  }

  lemma ActivateKeepsChecked(c: Cluster, id: Id, launch: Launch)
    requires AllChecked(c) && id in c.keepalives
    ensures AllChecked(Activate(c, id, launch))
  {
    ProcessKeepsCheckInv(c.keepalives[id], c.lease, c.closing, launch);
  }

  lemma {:induction false} RepublishAllKeepsChecked(c: Cluster, ids: seq<Id>, launches: Launches)
    requires AllChecked(c) && forall id :: id in ids ==> id in c.keepalives
    ensures AllChecked(RepublishAll(c, ids, launches))
    decreases |ids|
  {
    hide Process, Activate;
    if ids != [] {
      ActivateKeepsChecked(Update(c, ids[0], c.keepalives[ids[0]].(valueChanged := true)), ids[0], launches(ids[0]));
      RepublishAllKeepsChecked(Republish(c, ids[0], launches(ids[0])), ids[1..], launches);
    }
  }

  lemma SweepKeepsChecked(c: Cluster, launches: Launches)
    requires Listed(c) && AllChecked(c)
    ensures AllChecked(Sweep(c, launches))
  {
    if c.lease != 0 {
      RepublishAllKeepsChecked(c, c.retry, launches);
    }
  }

  lemma SetLeaseKeepsChecked(c: Cluster, lease: int, force: bool, launches: Launches, sweep: Launches)
    requires Listed(c) && AllChecked(c)
    ensures AllChecked(SetLease(c, lease, force, launches, sweep))
  {
    var c1 := c.(lease := lease, running := c.running || lease != 0);
    if c.lease == lease && !force && lease != 0 {
      SweepKeepsChecked(c1, sweep);
    } else if lease != 0 {
      RepublishAllKeepsChecked(c1.(retry := []), c.actors, launches);
      SweepKeepsChecked(RepublishAll(c1.(retry := []), c.actors, launches), sweep);
    }
  }

  /** What the steps change by themselves. */
  lemma PlainChangesKeepCheckInv(k: Keepalive, value: string, hasData: bool, acked: Option<Published>)
    requires CheckInv(k)
    ensures CheckInv(k.(value := value, valueChanged := true))
    ensures k.request.Put? ==> CheckInv(k.(request := NoRequest, hasData := hasData, acked := acked))
    ensures CheckInv(k.(request := NoRequest)) && CheckInv(k.(request := NoRequest, valueChanged := true))
  {
    hide PhaseOf, PutsAreChecked;
  }

  lemma AnswersKeepChecked(c: Cluster, id: Id, reply: GetReply, ok: bool, launch: Launch)
    requires AllChecked(c) && id in c.keepalives
    ensures c.keepalives[id].request.Get? ==> AllChecked(GetDone(c, id, reply, launch))
    ensures c.keepalives[id].request.Put? ==> AllChecked(PutDone(c, id, ok, launch))
  {
    hide CheckInv, Activate, Checked;
    var k := c.keepalives[id];
    if k.request.Get? {
      PlainChangesKeepCheckInv(k, k.value, k.hasData, k.acked);
      if reply.GetOk? {
        CheckedKeepsCheckInv(k, reply.content);
        ActivateKeepsChecked(Update(c, id, Checked(k.(request := NoRequest), reply.content)), id, launch);
      }
    } else if k.request.Put? {
      var acked := Some(Published(k.request.value, k.request.lease));
      PlainChangesKeepCheckInv(k, k.value, true, acked);
      if ok {
        ActivateKeepsChecked(Update(c, id, k.(request := NoRequest, hasData := true, acked := acked)), id, launch);
      }
    }
  }

  lemma StepKeepsChecked(c: Cluster, step: Step)
    requires Listed(c) && AllChecked(c)
    ensures AllChecked(Apply(c, step))
  {
    hide CheckInv, Activate, Sweep, SetLease, SwapAndPop, WithChecker, GetDone, PutDone, Closed, Created;
    match step
    case Create(id, path) => FirstIsChecked(path);
    case InstallChecker(id, checker) =>
      if id in c.keepalives { SetCheckerKeepsCheckInv(c.keepalives[id], checker); }
    case ChangeValue(id, value, launch) =>
      if id in c.keepalives {
        var k := c.keepalives[id];
        PlainChangesKeepCheckInv(k, value, k.hasData, k.acked);
        ActivateKeepsChecked(Update(c, id, k.(value := value, valueChanged := true)), id, launch);
      }
    case Join(id, launch) =>
      if id in c.keepalives {
        ActivateKeepsChecked(c.(enableLease := true, actors := c.actors + [id]), id, launch);
      }
    case AnswerGet(id, reply, launch) => if id in c.keepalives { AnswersKeepChecked(c, id, reply, true, launch); }
    case AnswerPut(id, ok, launch) => if id in c.keepalives { AnswersKeepChecked(c, id, GetFailed, ok, launch); }
    case AnswerLease(lease, force, launches, sweep) => SetLeaseKeepsChecked(c, lease, force, launches, sweep);
    case TickNow(_, sweep) => SweepKeepsChecked(c.(running := c.running || !c.enableLease), sweep);
    case _ => ClosingKeepsChecked(c);
  }

  lemma FirstIsChecked(path: Key)
    ensures CheckInv(Created(path))
  {}

  lemma ClosingKeepsChecked(c: Cluster)
    requires AllChecked(c)
    ensures AllChecked(CloseCluster(c))
    ensures forall id, reset :: id in c.keepalives ==> CheckInv(Closed(c.keepalives[id], reset))
  {}

  lemma {:induction false} RunKeepsChecked(c: Cluster, steps: seq<Step>)
    requires Listed(c) && AllChecked(c)
    ensures AllChecked(Run(c, steps))
    decreases |steps|
  {
    if steps != [] {
      StepKeepsChecked(c, steps[0]);
      ApplyKeepsListed(c, steps[0]);
      RunKeepsChecked(Apply(c, steps[0]), steps[1..]);
    }
  }

  /** In any run at all, a keepalive whose checker was installed before its first activation starts a put only after
      an accepting answer, and never after a rejecting one until it is closed. */
  lemma CheckComesBeforePut(steps: seq<Step>, id: Id)
    requires id in Run(INITIAL, steps).keepalives
    ensures var k := Run(INITIAL, steps).keepalives[id];
            Guarded(k.marks) ==> PutsAreChecked(k.marks)
  {
    RunKeepsChecked(INITIAL, steps);
  }
}
