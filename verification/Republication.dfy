/** Publishing, deleting and the server's store together. A delete covers every key its path is a prefix of, and
    `add_keepalive` takes back only a delete that waits, so one in flight can remove what was published since. A request
    that was given up, or answered as failed, may still be carried out. */
module Republication {
  import opened Common
  import opened Keepalives
  import C = Cluster
  import D = Deletors
  import KeyRange

  /** A put as the server sees it. */
  datatype Write = Write(key: Key, value: Published)

  datatype System = System(
    cluster: C.Cluster,
    pool: D.Pool,
    store: map<Key, Published>,
    landed: set<D.Id>,         // deletors whose delete in flight the server has carried out
    puts: set<C.Id>,           // keepalives whose put in flight the server has carried out
    lateDeletes: seq<Key>,     // paths of deletes answered as failed that may still be carried out
    latePuts: seq<Write>,      // puts answered as failed, or given up by `close`, that may still be carried out
    revokes: set<int>,         // leases whose revoke is on its way
    ended: set<int>)           // leases the server has ended; it takes no put under them

  /** A step of the cluster comes with what it needs for the deletors and the revoke: a name for the deletor it makes,
      and launches. */
  datatype Step =
    | Local(step: C.Step, deletor: D.Id, launch: Launch, retries: D.Launches)
    | PutLands(id: C.Id)
    | DeleteLands(id: D.Id)
    | DeleteAnswered(id: D.Id, ok: bool)
    | LateDeleteLands(at: nat)
    | LatePutLands(at: nat)
    | RevokeLands(lease: int)
    | LeaseExpires(lease: int)
    | StrayPut(write: Write)      // of another client
    | StrayDelete(path: Key)      // of another client

  /** The keys a delete of `path` covers. */
  ghost predicate Hits(path: Key, key: Key) { KeyRange.Selects(KeyRange.PrefixRange(path), key) }

  /** The removal of a keepalive that has data. */
  predicate Deletes(c: C.Cluster, step: C.Step) {
    step.Leave? && step.id in c.keepalives && (step.id in c.actors || step.id in c.retry)
    && c.keepalives[step.id].hasData
  }

  /** What a step of the cluster does to the deletors. */
  function PoolStep(c: C.Cluster, local: Step): Option<D.Step>
    requires local.Local?
  {
    match local.step
    case Join(id, _) =>
      if id in c.keepalives && !c.closing && id !in c.actors then Some(D.Add(c.keepalives[id].path)) else None
    case Leave(id) =>
      if Deletes(c, local.step) then Some(D.Remove(local.deletor, c.keepalives[id].path, local.launch)) else None
    case TickNow(ready, _) =>
      if c.closing || !ready || (c.enableLease && c.lease == 0) then None else Some(D.Retry(local.retries))
    case AnswerLease(lease, _, _, _) => if c.closing || lease == 0 then None else Some(D.Retry(local.retries))
    case Shutdown => Some(D.Close)
    case Reopen => Some(D.Reopen)
    case _ => None
  }

  /** The put a keepalive has in flight, not carried out yet. */
  function InFlight(c: C.Cluster, puts: set<C.Id>, id: C.Id): Option<Write> {
    if id in c.keepalives && c.keepalives[id].request.Put? && id !in puts then
      var k := c.keepalives[id];
      Some(Write(k.path, Published(k.request.value, k.request.lease)))
    else None
  }

  /** The keepalives whose requests a step of the cluster ends without a success. */
  function GivenUp(c: C.Cluster, step: C.Step): seq<C.Id> {
    match step
    case AnswerPut(id, ok, _) => if ok then [] else [id]
    case Leave(id) => if id in c.actors || id in c.retry then [id] else []
    case CloseOne(id, _) => [id]
    case Shutdown => c.actors
    case _ => []
  }

  function Late(c: C.Cluster, puts: set<C.Id>, ids: seq<C.Id>): seq<Write> {
    if ids == [] then []
    else
      var first := InFlight(c, puts, ids[0]);
      (if first.Some? then [first.value] else []) + Late(c, puts, ids[1..])
  }

  /** `close` revokes the lease. */
  predicate Revokes(c: C.Cluster, step: Step) {
    step.Local? && step.step.Shutdown? && step.launch == Started && c.lease != 0
  }

  ghost predicate Ok(s: System) {
    && C.Listed(s.cluster) && D.Inv(s.pool)
    && (forall id :: id in s.landed ==> id in s.pool.deletors && s.pool.deletors[id].inFlight)
    && (forall id :: id in s.puts ==> id in s.cluster.keepalives && s.cluster.keepalives[id].request.Put?)
  }

  /** What a step would have the server put. */
  function Writes(s: System, step: Step): Option<Write> {
    match step
    case PutLands(id) => InFlight(s.cluster, s.puts, id)
    case LatePutLands(at) => if at < |s.latePuts| then Some(s.latePuts[at]) else None
    case StrayPut(write) => Some(write)
    case _ => None
  }

  /** A new deletor has a new name; a request is answered with success only if the server has carried it out; the server
      takes no put under a lease that has ended. */
  predicate Possible(s: System, step: Step) {
    match step
    case Local(local, deletor, _, _) =>
      && (Deletes(s.cluster, local) ==> deletor !in s.pool.deletors)
      && (local.AnswerPut? && local.ok ==> local.id in s.puts)
    case DeleteLands(id) => id in s.pool.deletors && s.pool.deletors[id].inFlight && id !in s.landed
    case DeleteAnswered(id, ok) =>
      id in s.pool.deletors && s.pool.deletors[id].inFlight && (ok ==> id in s.landed)
    case LateDeleteLands(at) => at < |s.lateDeletes|
    case RevokeLands(lease) => lease in s.revokes
    case LeaseExpires(lease) => lease != 0
    case StrayDelete(_) => true
    case _ => Writes(s, step).Some? && Writes(s, step).value.value.lease !in s.ended
  }

  function Without<A>(l: seq<A>, at: nat): seq<A>
    requires at < |l|
  {
    l[..at] + l[at + 1..]
  }

  function Wrote(s: System, write: Write): System { s.(store := s.store[write.key := write.value]) }

  ghost function Deleted(s: System, path: Key): System {
    s.(store := map key | key in s.store && !Hits(path, key) :: s.store[key])
  }

  function LeaseEnded(s: System, lease: int): System {
    s.(store := map key | key in s.store && s.store[key].lease != lease :: s.store[key],
       revokes := s.revokes - {lease}, ended := s.ended + {lease})
  }

  /** One step; a step that is not possible changes nothing. */
  ghost function Apply(s: System, step: Step): System
    requires Ok(s)
  {
    if !Possible(s, step) then s
    else
      match step
      case Local(local, _, _, _) =>
        var cluster := C.Apply(s.cluster, local);
        var pool := PoolStep(s.cluster, step);
        s.(cluster := cluster,
           pool := if pool.Some? then D.Apply(s.pool, pool.value) else s.pool,
           puts := (set id | id in s.puts && id in cluster.keepalives && cluster.keepalives[id].request.Put?
                        && !(local.AnswerPut? && local.id == id)),
           latePuts := s.latePuts + Late(s.cluster, s.puts, GivenUp(s.cluster, local)),
           revokes := if Revokes(s.cluster, step) then s.revokes + {s.cluster.lease} else s.revokes)
      case DeleteLands(id) => Deleted(s, s.pool.deletors[id].path).(landed := s.landed + {id})
      case DeleteAnswered(id, ok) =>
        s.(pool := D.Apply(s.pool, D.Answer(id, ok)), landed := s.landed - {id},
           lateDeletes := s.lateDeletes + if id in s.landed then [] else [s.pool.deletors[id].path])
      case LateDeleteLands(at) => Deleted(s, s.lateDeletes[at]).(lateDeletes := Without(s.lateDeletes, at))
      case RevokeLands(lease) => LeaseEnded(s, lease)
      case LeaseExpires(lease) => LeaseEnded(s, lease)
      case StrayDelete(path) => Deleted(s, path)
      case PutLands(id) => Wrote(s, Writes(s, step).value).(puts := s.puts + {id})
      case LatePutLands(at) => Wrote(s, Writes(s, step).value).(latePuts := Without(s.latePuts, at))
      case StrayPut(write) => Wrote(s, write)
  }

  lemma LandedStay(p: D.Pool, step: D.Step, landed: set<D.Id>)
    requires D.Inv(p) && forall id :: id in landed ==> id in p.deletors && p.deletors[id].inFlight
    requires step.Answer? ==> step.id !in landed
    ensures D.Inv(D.Apply(p, step))
    ensures forall id :: id in landed ==> id in D.Apply(p, step).deletors && D.Apply(p, step).deletors[id].inFlight
  {
    D.StepKeepsInv(p, step);
    hide D.Apply, D.Inv;
    forall id | id in landed ensures id in D.Apply(p, step).deletors && D.Apply(p, step).deletors[id].inFlight {
      StepMovesDeletor(p, step, id);
    }
  }

  lemma ApplyKeepsOk(s: System, step: Step)
    requires Ok(s)
    ensures Ok(Apply(s, step))
  {
    hide C.Apply, D.Apply, D.Inv, C.Listed;
    if Possible(s, step) {
      match step
      case Local(local, _, _, _) =>
        C.ApplyKeepsListed(s.cluster, local);
        if PoolStep(s.cluster, step).Some? {
          LandedStay(s.pool, PoolStep(s.cluster, step).value, s.landed);
        }
      case DeleteAnswered(id, ok) => LandedStay(s.pool, D.Answer(id, ok), s.landed - {id});
      case _ =>
    }
  }

  /** What a step makes of a deletor: nothing, freed from the map, tried again from the map, or answered. */
  lemma StepMovesDeletor(p: D.Pool, step: D.Step, id: D.Id)
    requires D.Inv(p) && id in p.deletors
    ensures var p' := D.Apply(p, step);
            && id in p'.deletors
            && var d, d' := p.deletors[id], p'.deletors[id];
               || d' == d
               || (d' == D.Freed(d) && !d.inFlight)
               || (step.Retry? && !d.inFlight && d.frees == 0 && d' == D.Attempt(d, p.closing, step.launches(d.path)))
               || (step.Answer? && step.id == id && d.inFlight
                   && (d' == d.(inFlight := false) || d' == D.Freed(d.(inFlight := false))))
  {
    assert D.Linear(p, id) && D.Bounded(p.deletors[id]);
  }

  ghost function Run(s: System, steps: seq<Step>): System
    requires Ok(s)
    decreases |steps|
  {
    if steps == [] then s
    else
      ApplyKeepsOk(s, steps[0]);
      Run(Apply(s, steps[0]), steps[1..])
  }

  // ---------------------------------------------------------------- what a delete covers

  /** The path and everything it is a prefix of, if the path has a byte below 0xff; otherwise the path alone, if it is
      not empty. */
  lemma HitsIff(path: Key, key: Key)
    ensures Hits(path, key) <==> if KeyRange.HasRoom(path) then path <= key else path != [] && path == key
  {
    if KeyRange.HasRoom(path) {
      KeyRange.SuccessorBoundsPrefix(path, key);
    }
  }

  // ---------------------------------------------------------------- when a published key survives

  /** The deletor can still carry out a delete: the one in flight, or another attempt. */
  ghost predicate Live(s: System, id: D.Id)
    requires id in s.pool.deletors
  {
    var d := s.pool.deletors[id];
    d.frees == 0 && (d.retryTimes < D.MAX_RETRIES || (d.inFlight && id !in s.landed))
  }

  /** A delete of the path may yet be carried out. */
  ghost predicate Threatens(s: System, path: Key) {
    path in s.lateDeletes || exists id :: id in s.pool.deletors && s.pool.deletors[id].path == path && Live(s, id)
  }

  /** Nothing this client has set going can remove the key: no delete that covers it, and no revoke of its lease. */
  ghost predicate Harmless(s: System, key: Key)
    requires key in s.store
  {
    (forall path :: Threatens(s, path) ==> !Hits(path, key)) && s.store[key].lease !in s.revokes
  }

  /** The step sets nothing going that would remove the key: it removes no keepalive whose delete covers it, does not
      revoke or expire its lease, deletes it for no other client and puts it under no lease that is being revoked. */
  ghost predicate Spares(s: System, step: Step, key: Key)
    requires key in s.store
  {
    && (step.Local? && Deletes(s.cluster, step.step) ==> !Hits(s.cluster.keepalives[step.step.id].path, key))
    && (Revokes(s.cluster, step) ==> s.store[key].lease != s.cluster.lease)
    && (step.LeaseExpires? ==> s.store[key].lease != step.lease)
    && (step.StrayDelete? ==> !Hits(step.path, key))
    && (Writes(s, step).Some? && Writes(s, step).value.key == key ==> Writes(s, step).value.value.lease !in s.revokes)
  }

  /** The server may yet put the key with the value: a put in flight, or a late one. */
  ghost predicate MayPut(s: System, write: Write) {
    && write.value.lease !in s.ended
    && (write in s.latePuts || exists id :: InFlight(s.cluster, s.puts, id) == Some(write))
  }

  /** The step also leaves the value alone: it starts no put of the key with another value, here or elsewhere. */
  ghost predicate Keeps(s: System, step: Step, key: Key)
    requires Ok(s) && key in s.store
  {
    && (step.Local? && Deletes(s.cluster, step.step) ==> !Hits(s.cluster.keepalives[step.step.id].path, key))
    && (Revokes(s.cluster, step) ==> s.store[key].lease != s.cluster.lease)
    && (step.LeaseExpires? ==> s.store[key].lease != step.lease)
    && (step.StrayDelete? ==> !Hits(step.path, key))
    && (step.StrayPut? && step.write.key == key ==> step.write.value == s.store[key])
    && (forall value :: value != s.store[key] && MayPut(Apply(s, step), Write(key, value)) ==>
          MayPut(s, Write(key, value)))
  }

  /** A run of steps that spare the key as long as it is there, or keep its value as well. */
  ghost predicate RunSpares(s: System, steps: seq<Step>, key: Key)
    requires Ok(s)
    decreases |steps|
  {
    steps == [] || key !in s.store ||
    (Spares(s, steps[0], key) && (ApplyKeepsOk(s, steps[0]); RunSpares(Apply(s, steps[0]), steps[1..], key)))
  }

  ghost predicate RunKeeps(s: System, steps: seq<Step>, key: Key)
    requires Ok(s)
    decreases |steps|
  {
    steps == [] || key !in s.store ||
    (Keeps(s, steps[0], key) && (ApplyKeepsOk(s, steps[0]); RunKeeps(Apply(s, steps[0]), steps[1..], key)))
  }


  /** No step makes a deletor live that was not. */
  lemma StepKeepsDead(s: System, step: Step, id: D.Id)
    requires Ok(s) && id in s.pool.deletors
    ensures var s' := Apply(s, step);
            && id in s'.pool.deletors && s'.pool.deletors[id].path == s.pool.deletors[id].path
            && (Live(s', id) ==> Live(s, id))
  {
    hide C.Apply;
    if Possible(s, step) {
      match step
      case Local(local, _, _, _) =>
        var pool := PoolStep(s.cluster, step);
        if pool.Some? { StepMovesDeletor(s.pool, pool.value, id); }
      case DeleteAnswered(i, ok) => StepMovesDeletor(s.pool, D.Answer(i, ok), id);
      case _ =>
    }
  }

  /** A deletor that is new is of the keepalive removed. */
  lemma StepMakesDeletor(s: System, step: Step, id: D.Id)
    requires Ok(s) && id in Apply(s, step).pool.deletors && id !in s.pool.deletors
    ensures step.Local? && Deletes(s.cluster, step.step)
    ensures Apply(s, step).pool.deletors[id].path == s.cluster.keepalives[step.step.id].path
  {
    hide C.Apply;
    if step.Local? && PoolStep(s.cluster, step).Some? {
      NewDeletor(s.pool, PoolStep(s.cluster, step).value, id);
    } else if step.DeleteAnswered? {
      NewDeletor(s.pool, D.Answer(step.id, step.ok), id);
    }
  }

  lemma NewDeletor(p: D.Pool, step: D.Step, id: D.Id)
    requires D.Inv(p) && id !in p.deletors && id in D.Apply(p, step).deletors
    ensures step.Remove? && step.id == id && D.Apply(p, step).deletors[id].path == step.path
  {}

  lemma LateDeletesAfter(s: System, step: Step, path: Key)
    requires Ok(s) && path in Apply(s, step).lateDeletes
    ensures Threatens(s, path)
  {
    hide C.Apply, D.Apply;
    if path !in s.lateDeletes {
      assert step.DeleteAnswered? && s.pool.deletors[step.id].path == path;
      assert D.Linear(s.pool, step.id);
      assert Live(s, step.id);
    }
  }

  /** A delete of a path that no deletor and no late request can carry out any more needs the removal of a keepalive of
      that path. */
  lemma ThreatsComeFromRemovals(s: System, step: Step, path: Key)
    requires Ok(s) && !Threatens(s, path) && Threatens(Apply(s, step), path)
    ensures step.Local? && Deletes(s.cluster, step.step) && s.cluster.keepalives[step.step.id].path == path
  {
    hide Apply;
    var s' := Apply(s, step);
    if path in s'.lateDeletes {
      LateDeletesAfter(s, step, path);
    } else {
      var id :| id in s'.pool.deletors && s'.pool.deletors[id].path == path && Live(s', id);
      if id in s.pool.deletors {
        StepKeepsDead(s, step, id);
      } else {
        StepMakesDeletor(s, step, id);
      }
    }
  }

  /** What a step does to one key of the store. */
  lemma StoreAfter(s: System, step: Step, key: Key)
    requires Ok(s) && key in s.store
    requires forall path :: Threatens(s, path) ==> !Hits(path, key)
    requires s.store[key].lease !in s.revokes
    requires step.LeaseExpires? ==> s.store[key].lease != step.lease
    requires step.StrayDelete? ==> !Hits(step.path, key)
    ensures var s' := Apply(s, step);
            && key in s'.store
            && (s'.store[key] == s.store[key]
                || (Possible(s, step) && Writes(s, step) == Some(Write(key, s'.store[key]))))
  {
    hide C.Apply, D.Apply;
    if Possible(s, step) {
      match step
      case DeleteLands(id) =>
        assert D.Linear(s.pool, id);
        assert Live(s, id);
        assert Threatens(s, s.pool.deletors[id].path);
      case LateDeleteLands(at) => assert Threatens(s, s.lateDeletes[at]);
      case _ =>
    }
  }

  lemma RevokesAfter(s: System, step: Step, lease: int)
    requires Ok(s) && lease in Apply(s, step).revokes
    ensures lease in s.revokes || (Revokes(s.cluster, step) && s.cluster.lease == lease)
  {
    hide C.Apply, D.Apply;
  }

  lemma NoNewThreats(s: System, step: Step, key: Key)
    requires Ok(s) && forall path :: Threatens(s, path) ==> !Hits(path, key)
    requires step.Local? && Deletes(s.cluster, step.step) ==> !Hits(s.cluster.keepalives[step.step.id].path, key)
    ensures forall path :: Threatens(Apply(s, step), path) ==> !Hits(path, key)
  {
    hide Apply, Threatens;
    forall path | Threatens(Apply(s, step), path) ensures !Hits(path, key) {
      if !Threatens(s, path) {
        ThreatsComeFromRemovals(s, step, path);
      }
    }
  }

  lemma StepSpares(s: System, step: Step, key: Key)
    requires Ok(s) && key in s.store && Harmless(s, key) && Spares(s, step, key)
    ensures key in Apply(s, step).store && Harmless(Apply(s, step), key)
  {
    hide Apply, Threatens, Hits;
    StoreAfter(s, step, key);
    NoNewThreats(s, step, key);
    var lease := Apply(s, step).store[key].lease;
    if lease in Apply(s, step).revokes {
      RevokesAfter(s, step, lease);
      PutsRevokeNothing(s, step);
    }
  }

  lemma PutsRevokeNothing(s: System, step: Step)
    ensures Writes(s, step).Some? ==> !Revokes(s.cluster, step)
  {}

  lemma {:induction false} RunKeepsKey(s: System, steps: seq<Step>, key: Key)
    requires Ok(s) && key in s.store && Harmless(s, key) && RunSpares(s, steps, key)
    ensures key in Run(s, steps).store
    decreases |steps|
  {
    hide Apply, Harmless, Spares;
    if steps != [] {
      ApplyKeepsOk(s, steps[0]);
      StepSpares(s, steps[0], key);
      RunKeepsKey(Apply(s, steps[0]), steps[1..], key);
    }
  }

  /** All that may yet be put under the key is what is there. */
  ghost predicate Agreed(s: System, key: Key)
    requires key in s.store
  {
    forall value :: MayPut(s, Write(key, value)) ==> value == s.store[key]
  }

  lemma LandingsMayPut(s: System, step: Step, write: Write)
    requires Possible(s, step) && Writes(s, step) == Some(write)
    ensures step.StrayPut? || MayPut(s, write)
  {}

  lemma StepKeeps(s: System, step: Step, key: Key)
    requires Ok(s) && key in s.store && Harmless(s, key) && Agreed(s, key) && Keeps(s, step, key)
    ensures var s' := Apply(s, step);
            key in s'.store && s'.store[key] == s.store[key] && Harmless(s', key) && Agreed(s', key)
  {
    hide Apply, Threatens, Hits, MayPut, Possible, Writes;
    var s' := Apply(s, step);
    StoreAfter(s, step, key);
    NoNewThreats(s, step, key);
    if s'.store[key] != s.store[key] {
      LandingsMayPut(s, step, Write(key, s'.store[key]));
      StraysWrite(s, step);
    }
    if s'.store[key].lease in s'.revokes {
      RevokesAfter(s, step, s'.store[key].lease);
    }
  }

  lemma StraysWrite(s: System, step: Step)
    ensures step.StrayPut? ==> Writes(s, step) == Some(step.write)
  {}

  lemma {:induction false} RunKeepsValue(s: System, steps: seq<Step>, key: Key)
    requires Ok(s) && key in s.store && Harmless(s, key) && Agreed(s, key) && RunKeeps(s, steps, key)
    ensures var s' := Run(s, steps);
            Ok(s') && key in s'.store && s'.store[key] == s.store[key] && Harmless(s', key) && Agreed(s', key)
    decreases |steps|
  {
    hide Apply, Harmless, Agreed, Keeps;
    if steps != [] {
      ApplyKeepsOk(s, steps[0]);
      StepKeeps(s, steps[0], key);
      RunKeepsValue(Apply(s, steps[0]), steps[1..], key);
    }
  }

  // ---------------------------------------------------------------- what a threat can do

  /** The run takes the key away, and no step of it is one that a run that spares or keeps the key must not have. */
  ghost predicate Removes(s: System, steps: seq<Step>, key: Key)
    requires Ok(s)
  {
    RunSpares(s, steps, key) && RunKeeps(s, steps, key) && key !in Run(s, steps).store
  }

  /** Steps of server and answers, and those of the cluster that make no put, are innocent. */
  ghost predicate Innocent(s: System, step: Step)
    requires Ok(s)
  {
    && (match step
        case Local(local, _, _, _) => local.Reopen? || local.AnswerLease?
        case DeleteLands(_) => true
        case DeleteAnswered(_, _) => true
        case LateDeleteLands(_) => true
        case RevokeLands(_) => true
        case _ => false)
    && forall write :: MayPut(Apply(s, step), write) ==> MayPut(s, write)
  }

  lemma RunThen(s: System, step: Step, rest: seq<Step>, key: Key)
    requires Ok(s) && key in s.store && Innocent(s, step)
    ensures var s' := Apply(s, step);
            && Ok(s') && Run(s, [step] + rest) == Run(s', rest)
            && (Removes(s', rest, key) ==> Removes(s, [step] + rest, key))
  {
    hide Apply, MayPut, Hits;
    ApplyKeepsOk(s, step);
    assert ([step] + rest)[1..] == rest;
  }

  lemma GoneAtOnce(s: System, step: Step, key: Key) returns (steps: seq<Step>)
    requires Ok(s) && key in s.store && Innocent(s, step) && key !in Apply(s, step).store
    ensures Removes(s, steps, key)
  {
    hide Apply, Innocent;
    RunThen(s, step, [], key);
    steps := [step] + [];
  }

  /** A delete in flight that is carried out takes the key away. */
  lemma InFlightDeletes(s: System, id: D.Id, key: Key) returns (steps: seq<Step>)
    requires Ok(s) && key in s.store && id in s.pool.deletors && Hits(s.pool.deletors[id].path, key)
    requires s.pool.deletors[id].inFlight && id !in s.landed
    ensures Removes(s, steps, key)
  {
    steps := GoneAtOnce(s, DeleteLands(id), key);
  }

  function Failing(id: C.Id): Launch { CreateFailed }

  /** A lease is granted; no keepalive can make a request, and every deletor can. */
  function Grant(lease: int): Step { Local(C.AnswerLease(lease, true, Failing, Failing), 0, Started, path => Started) }

  const REOPEN := Local(C.Reopen, 0, Started, path => Started)

  /** Every keepalive has the request it had. */
  ghost predicate SameRequests(c: C.Cluster, c': C.Cluster) {
    forall id :: id in c'.keepalives ==>
      id in c.keepalives && c'.keepalives[id].request == c.keepalives[id].request
      && c'.keepalives[id].path == c.keepalives[id].path
  }

  lemma FailedProcessKeepsRequest(k: Keepalive, lease: int, closing: bool)
    ensures var k' := Process(k, lease, closing, CreateFailed).keepalive; k'.request == k.request && k'.path == k.path
  {}

  lemma {:induction false} FailedRepublishKeepsRequests(c: C.Cluster, ids: seq<C.Id>)
    requires forall id :: id in ids ==> id in c.keepalives
    ensures SameRequests(c, C.RepublishAll(c, ids, Failing))
    decreases |ids|
  {
    hide Process, C.Republish;
    if ids != [] {
      C.RepublishTouchesOne(c, ids[0], CreateFailed);
      FailedProcessKeepsRequest(c.keepalives[ids[0]].(valueChanged := true), c.lease, c.closing);
      FailedRepublishKeepsRequests(C.Republish(c, ids[0], CreateFailed), ids[1..]);
    }
  }

  lemma GrantKeepsRequests(c: C.Cluster, lease: int)
    requires C.Listed(c) && !c.closing && lease != 0
    ensures var c' := C.Apply(c, Grant(lease).step);
            C.Listed(c') && !c'.closing && SameRequests(c, c')
  {
    hide C.RepublishAll;
    var c1 := c.(lease := lease, running := true);
    var c2 := C.RepublishAll(c1.(retry := []), c.actors, Failing);
    FailedRepublishKeepsRequests(c1.(retry := []), c.actors);
    FailedRepublishKeepsRequests(c2, c2.retry);
  }

  lemma NoNewPuts(s: System, s': System)
    requires forall write :: write in s'.latePuts ==> write in s.latePuts
    requires forall lease :: lease in s.ended ==> lease in s'.ended
    requires forall id :: InFlight(s'.cluster, s'.puts, id).Some? ==>
               InFlight(s'.cluster, s'.puts, id) == InFlight(s.cluster, s.puts, id)
    ensures forall write :: MayPut(s', write) ==> MayPut(s, write)
  {
    forall write | MayPut(s', write) ensures MayPut(s, write) {
      if write !in s'.latePuts {
        var id :| InFlight(s'.cluster, s'.puts, id) == Some(write);
        assert InFlight(s.cluster, s.puts, id) == Some(write);
      }
    }
  }

  lemma Reopens(s: System)
    requires Ok(s)
    ensures Innocent(s, REOPEN)
    ensures var s' := Apply(s, REOPEN);
            && Ok(s') && !s'.cluster.closing && s'.pool == s.pool.(closing := false) && s'.landed == s.landed
            && s'.store == s.store
  {
    ApplyKeepsOk(s, REOPEN);
    assert s.latePuts + [] == s.latePuts;
    NoNewPuts(s, Apply(s, REOPEN));
  }

  lemma RetryStarts(p: D.Pool, id: D.Id, launches: D.Launches)
    requires D.Inv(p) && !p.closing && id in p.deletors && launches(p.deletors[id].path) == Started
    requires var d := p.deletors[id]; d.frees == 0 && !d.inFlight && d.retryTimes < D.MAX_RETRIES
    ensures var p' := D.RetryAll(p, launches);
            id in p'.deletors && p'.deletors[id].inFlight && p'.deletors[id].path == p.deletors[id].path
  {
    assert D.Linear(p, id);
  }

  lemma GrantIsInnocent(s: System, lease: int)
    requires Ok(s) && !s.cluster.closing && lease != 0
    ensures Innocent(s, Grant(lease)) && Apply(s, Grant(lease)).store == s.store
    ensures Apply(s, Grant(lease)).landed == s.landed
    ensures Apply(s, Grant(lease)).pool == D.RetryAll(s.pool, Grant(lease).retries)
  {
    var s' := Apply(s, Grant(lease));
    GrantKeepsRequests(s.cluster, lease);
    hide C.Apply, D.RetryAll, D.Inv, C.Listed;
    assert Possible(s, Grant(lease)) && PoolStep(s.cluster, Grant(lease)) == Some(D.Retry(Grant(lease).retries));
    assert s'.latePuts == s.latePuts + [] == s.latePuts;
    NoNewPuts(s, s');
  }

  /** A lease that has not ended. */
  lemma FreshLease(ended: set<int>) returns (lease: int)
    ensures lease > 0 && forall l :: l in ended ==> l < lease
    decreases |ended|
  {
    if exists l: int :: l in ended {
      var l: int :| l in ended;
      var above := FreshLease(ended - {l});
      lease := if l < above then above else l + 1;
      assert forall x :: x in ended ==> x == l || x in ended - {l};
    } else {
      lease := 1;
    }
  }

  /** Any grant of a lease makes the waiting deletors try again. */
  lemma WaitingDeletes(s: System, id: D.Id, key: Key) returns (steps: seq<Step>)
    requires Ok(s) && key in s.store && id in s.pool.deletors && Hits(s.pool.deletors[id].path, key) && id !in s.landed
    requires var d := s.pool.deletors[id]; d.frees == 0 && !d.inFlight && d.retryTimes < D.MAX_RETRIES
    ensures Removes(s, steps, key)
  {
    hide Apply, Innocent, Removes, Hits;
    Reopens(s);
    var s1 := Apply(s, REOPEN);
    var lease := FreshLease(s.ended);
    GrantIsInnocent(s1, lease);
    RunThen(s1, Grant(lease), [], key);
    RetryStarts(s1.pool, id, Grant(lease).retries);
    var rest := InFlightDeletes(Apply(s1, Grant(lease)), id, key);
    RunThen(s1, Grant(lease), rest, key);
    RunThen(s, REOPEN, [Grant(lease)] + rest, key);
    steps := [REOPEN] + ([Grant(lease)] + rest);
  }

  /** A delete carried out whose answer is lost is tried again. */
  lemma LiveDeletes(s: System, id: D.Id, key: Key) returns (steps: seq<Step>)
    requires Ok(s) && key in s.store && id in s.pool.deletors && Hits(s.pool.deletors[id].path, key) && Live(s, id)
    ensures Removes(s, steps, key)
  {
    var d := s.pool.deletors[id];
    assert D.Linear(s.pool, id) && D.Bounded(d);
    if !d.inFlight {
      steps := WaitingDeletes(s, id, key);
    } else if id !in s.landed {
      steps := InFlightDeletes(s, id, key);
    } else {
      var failed := DeleteAnswered(id, false);
      ApplyKeepsOk(s, failed);
      var rest := WaitingDeletes(Apply(s, failed), id, key);
      RunThen(s, failed, rest, key);
      steps := [failed] + rest;
    }
  }

  /** Whatever threatens the key can take it away. */
  lemma HarmDeletes(s: System, key: Key) returns (steps: seq<Step>)
    requires Ok(s) && key in s.store && !Harmless(s, key)
    ensures Removes(s, steps, key)
  {
    if s.store[key].lease in s.revokes {
      steps := GoneAtOnce(s, RevokeLands(s.store[key].lease), key);
    } else {
      var path :| Threatens(s, path) && Hits(path, key);
      if path in s.lateDeletes {
        var at :| 0 <= at < |s.lateDeletes| && s.lateDeletes[at] == path;
        steps := GoneAtOnce(s, LateDeleteLands(at), key);
      } else {
        var id :| id in s.pool.deletors && s.pool.deletors[id].path == path && Live(s, id);
        steps := LiveDeletes(s, id, key);
      }
    }
  }

  ghost predicate StaysInSparingRuns(s: System, key: Key)
    requires Ok(s)
  {
    forall steps :: RunSpares(s, steps, key) ==> key in Run(s, steps).store
  }

  /** A key in the store survives every run that spares it if and only if nothing this client has set going threatens
      it: no deletor with a delete in flight or an attempt left and no late delete covers it, and no revoke of its lease
      is on its way. */
  lemma SurvivesIff(s: System, key: Key)
    requires Ok(s) && key in s.store
    ensures StaysInSparingRuns(s, key) <==> Harmless(s, key)
  {
    if Harmless(s, key) {
      forall steps | RunSpares(s, steps, key) ensures key in Run(s, steps).store {
        RunKeepsKey(s, steps, key);
      }
    } else {
      var steps := HarmDeletes(s, key);
      assert !(RunSpares(s, steps, key) ==> key in Run(s, steps).store);
    }
  }

  /** A put that may yet land and is carried out changes the value. */
  lemma OtherPutLands(s: System, key: Key, value: Published) returns (steps: seq<Step>)
    requires Ok(s) && key in s.store && MayPut(s, Write(key, value)) && value != s.store[key]
    ensures RunKeeps(s, steps, key) && Run(s, steps).store[key := value] == Run(s, steps).store
  {
    var write, step := Write(key, value), LateDeleteLands(0);
    if write in s.latePuts {
      var at :| 0 <= at < |s.latePuts| && s.latePuts[at] == write;
      step := LatePutLands(at);
    } else {
      var id :| InFlight(s.cluster, s.puts, id) == Some(write);
      step := PutLands(id);
    }
    var s' := Apply(s, step);
    ApplyKeepsOk(s, step);
    assert s'.store == s.store[key := value];
    LandingKeeps(s, step, key);
    steps := [step];
    assert steps[1..] == [];
  }

  lemma LandingKeeps(s: System, step: Step, key: Key)
    requires Ok(s) && key in s.store && Possible(s, step) && (step.PutLands? || step.LatePutLands?)
    ensures Keeps(s, step, key)
  {
    NoNewPuts(s, Apply(s, step));
  }

  ghost predicate HoldsInKeepingRuns(s: System, key: Key)
    requires Ok(s) && key in s.store
  {
    forall steps :: RunKeeps(s, steps, key) ==>
      key in Run(s, steps).store && Run(s, steps).store[key] == s.store[key]
  }

  /** A key in the store keeps its value over every run that starts no other put of it, if and only if nothing threatens
      it and every put of it that may yet land, in flight or late, has that value. */
  lemma HoldsIff(s: System, key: Key)
    requires Ok(s) && key in s.store
    ensures HoldsInKeepingRuns(s, key) <==> Harmless(s, key) && Agreed(s, key)
  {
    if !Harmless(s, key) {
      var steps := HarmDeletes(s, key);
      assert RunKeeps(s, steps, key) && key !in Run(s, steps).store;
    } else if !Agreed(s, key) {
      var value :| MayPut(s, Write(key, value)) && value != s.store[key];
      var steps := OtherPutLands(s, key, value);
      assert Run(s, steps).store[key := value][key] == value;
    } else {
      forall steps | RunKeeps(s, steps, key)
        ensures key in Run(s, steps).store && Run(s, steps).store[key] == s.store[key]
      {
        RunKeepsValue(s, steps, key);
      }
    }
  }

  // ---------------------------------------------------------------- what joining takes back

  /** When `add_keepalive` adds a keepalive, the deletors of exactly its path that are left are in flight; those of
      other paths, and the late deletes, are as they were. */
  lemma JoinLeavesInFlight(s: System, step: Step, id: D.Id)
    requires Ok(s) && step.Local? && step.step.Join? && step.step.id in s.cluster.keepalives
    requires !s.cluster.closing && step.step.id !in s.cluster.actors && id in s.pool.deletors
    ensures var s', key := Apply(s, step), s.cluster.keepalives[step.step.id].path;
            && Ok(s') && id in s'.pool.deletors && s'.lateDeletes == s.lateDeletes
            && (s.pool.deletors[id].path == key && Live(s', id) ==> s'.pool.deletors[id].inFlight)
            && (s.pool.deletors[id].path != key || s.pool.deletors[id].inFlight ==>
                  s'.pool.deletors[id] == s.pool.deletors[id])
  {
    ApplyKeepsOk(s, step);
    assert D.Linear(s.pool, id);
  }
}
