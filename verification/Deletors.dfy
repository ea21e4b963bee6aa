/** The delete owners of `etcd_cluster.cpp`: when a keepalive that has data is removed, an `etcd_keepalive_deletor`
    carries the duty to delete its path, through retries, until the request succeeds or it gives up. */
module Deletors {
  import opened Common

  type Path = Key

  type Id = nat

  /** More attempts than this free the deletor; the comment in the source says five. */
  const MAX_RETRIES: nat := 8

  /** `starts` counts the delete requests started and `frees` the times it was deleted. */
  datatype Deletor = Deletor(path: Path, retryTimes: nat, hasOwner: bool, inFlight: bool, starts: nat, frees: nat)

  datatype Pool = Pool(closing: bool, pending: map<Path, Id>, deletors: map<Id, Deletor>)

  function Freed(d: Deletor): Deletor { d.(hasOwner := false, inFlight := false, frees := d.frees + 1) }

  function Free(p: Pool, id: Id): Pool
    requires id in p.deletors
  {
    p.(deletors := p.deletors[id := Freed(p.deletors[id])])
  }

  /** One attempt to start the delete request; a deletor left neither in flight nor freed goes back to the map. */
  function Attempt(d: Deletor, closing: bool, launch: Launch): Deletor {
    var d := d.(hasOwner := true, retryTimes := d.retryTimes + 1);
    if d.retryTimes > MAX_RETRIES then Freed(d)
    else if closing || launch != Started then d
    else d.(inFlight := true, starts := d.starts + 1)
  }

  function Waits(d: Deletor): bool { !d.inFlight && d.frees == 0 }

  /** The deletor waiting for a path, if any, is freed. */
  function DropPending(p: Pool, path: Path): Pool
    requires path in p.pending ==> p.pending[path] in p.deletors
  {
    if path in p.pending then Free(p, p.pending[path]).(pending := p.pending - {path}) else p
  }

  /** `remove_keepalive_path` */
  function RemovePath(p: Pool, id: Id, delay: bool, launch: Launch): Pool
    requires id in p.deletors
    requires var path := p.deletors[id].path; path in p.pending ==> p.pending[path] in p.deletors
  {
    Place(DropPending(p, p.deletors[id].path), id, delay, launch)
  }

  /** The deletor goes to the map at once, or makes an attempt first. */
  function Place(p: Pool, id: Id, delay: bool, launch: Launch): Pool
    requires id in p.deletors
  {
    var d := p.deletors[id];
    var d' := if delay then d else Attempt(d, p.closing, launch);
    Pool(p.closing,
         if delay || Waits(d') then p.pending[d.path := id] else p.pending,
         p.deletors[id := d'])
  }

  /** A keepalive with data has been removed. */
  function Begin(p: Pool, id: Id, path: Path, launch: Launch): Pool
    requires path in p.pending ==> p.pending[path] in p.deletors
  {
    RemovePath(p.(deletors := p.deletors[id := Deletor(path, 0, false, false, 0, 0)]), id, false, launch)
  }

  function Answered(p: Pool, id: Id, ok: bool): Pool
    requires id in p.deletors
    requires var path := p.deletors[id].path; path in p.pending ==> p.pending[path] in p.deletors
  {
    var d := p.deletors[id].(inFlight := false);
    var p := p.(deletors := p.deletors[id := d]);
    if ok || !d.hasOwner then Free(p, id) else RemovePath(p, id, true, Started)
  }

  type Launches = Path -> Launch

  /** The retry of all waiting deletors, which have distinct paths. */
  function RetryAll(p: Pool, launches: Launches): Pool
    requires Paired(p)
  {
    var after := map id | id in p.deletors ::
      if IsPending(p, id) then Attempt(p.deletors[id], p.closing, launches(p.deletors[id].path)) else p.deletors[id];
    Pool(p.closing, map path | path in p.pending && Waits(after[p.pending[path]]) :: p.pending[path], after)
  }

  function Cleanup(p: Pool): Pool
    requires Paired(p)
  {
    Pool(p.closing, map[],
         map id | id in p.deletors :: if IsPending(p, id) then Freed(p.deletors[id]) else p.deletors[id])
  }

  predicate IsPending(p: Pool, id: Id)
    requires id in p.deletors
  {
    p.deletors[id].path in p.pending && p.pending[p.deletors[id].path] == id
  }

  /** The map stores each deletor under its own path. */
  ghost predicate Paired(p: Pool) {
    forall path :: path in p.pending ==> p.pending[path] in p.deletors && p.deletors[p.pending[path]].path == path
  }

  // ---------------------------------------------------------------- linear and bounded

  /** In exactly one of three places, freed at most once, at most eight requests. */
  ghost predicate Linear(p: Pool, id: Id)
    requires id in p.deletors
  {
    var d := p.deletors[id];
    && d.frees <= 1
    && (if IsPending(p, id) then !d.inFlight && d.frees == 0
        else d.inFlight <==> d.frees == 0)
    && d.starts <= MAX_RETRIES
  }

  ghost predicate Bounded(d: Deletor) {
    && d.starts <= d.retryTimes
    && d.starts <= MAX_RETRIES
    && (d.frees == 0 ==> d.retryTimes <= MAX_RETRIES)
    && (d.inFlight ==> d.hasOwner)
  }

  ghost predicate Inv(p: Pool) {
    && Paired(p)
    && (forall id :: id in p.deletors ==> Linear(p, id) && Bounded(p.deletors[id]))
  }

  datatype Step =
    | Remove(id: Id, path: Path, launch: Launch)
    | Add(path: Path)
    | Answer(id: Id, ok: bool)
    | Retry(launches: Launches)
    | Close
    | Reopen

  ghost function Apply(p: Pool, step: Step): Pool
    requires Paired(p)
  {
    match step
    case Remove(id, path, launch) => if id in p.deletors then p else Begin(p, id, path, launch)
    case Add(path) => DropPending(p, path)
    case Answer(id, ok) => if id in p.deletors && p.deletors[id].inFlight then Answered(p, id, ok) else p
    case Retry(launches) => RetryAll(p, launches)
    case Close => Cleanup(p).(closing := true)
    case Reopen => p.(closing := false)
  }

  lemma DropPendingKeepsInv(p: Pool, path: Path)
    requires Inv(p)
    ensures Inv(DropPending(p, path)) && path !in DropPending(p, path).pending
  {
    var p' := DropPending(p, path);
    forall id | id in p'.deletors ensures Linear(p', id) && Bounded(p'.deletors[id]) {
      assert Linear(p, id) && Bounded(p.deletors[id]);
    }
  }

  /** Putting one deletor that is in no map under its free path, in flight or freed. */
  lemma PlaceKeepsInv(p: Pool, id: Id, d: Deletor, wait: bool)
    requires Paired(p) && d.path !in p.pending && Bounded(d)
    requires forall i :: i in p.deletors && i != id ==> Linear(p, i) && Bounded(p.deletors[i])
    requires id in p.deletors ==> p.deletors[id].path == d.path
    requires d.frees <= 1 && if wait then !d.inFlight && d.frees == 0 else d.inFlight <==> d.frees == 0
    ensures Inv(Pool(p.closing, if wait then p.pending[d.path := id] else p.pending, p.deletors[id := d]))
  {
    var p' := Pool(p.closing, if wait then p.pending[d.path := id] else p.pending, p.deletors[id := d]);
    forall i | i in p'.deletors ensures Linear(p', i) && Bounded(p'.deletors[i]) {
      if i != id {
        assert Linear(p, i) && Bounded(p.deletors[i]);
      }
    }
  }

  lemma BeginKeepsInv(p: Pool, id: Id, path: Path, launch: Launch)
    requires Inv(p) && id !in p.deletors
    ensures Inv(Begin(p, id, path, launch))
  {
    var d := Deletor(path, 0, false, false, 0, 0);
    var p1 := DropPending(p, path);
    DropPendingKeepsInv(p, path);
    assert DropPending(p.(deletors := p.deletors[id := d]), path) == p1.(deletors := p1.deletors[id := d]);
    var d' := Attempt(d, p.closing, launch);
    PlaceKeepsInv(p1, id, d', Waits(d'));
    assert p1.deletors[id := d][id := d'] == p1.deletors[id := d'];
  }

  lemma AnsweredKeepsInv(p: Pool, id: Id, ok: bool)
    requires Inv(p) && id in p.deletors && p.deletors[id].inFlight
    ensures Inv(Answered(p, id, ok))
  {
    assert Linear(p, id) && Bounded(p.deletors[id]);
    if ok {
      var p' := Answered(p, id, ok);
      forall i | i in p'.deletors ensures Linear(p', i) && Bounded(p'.deletors[i]) {
        assert Linear(p, i) && Bounded(p.deletors[i]);
      }
    } else {
      FailureKeepsInv(p, id);
    }
  }

  lemma FailureKeepsInv(p: Pool, id: Id)
    requires Inv(p) && id in p.deletors && p.deletors[id].inFlight && p.deletors[id].frees == 0
    requires Bounded(p.deletors[id]) && !IsPending(p, id)
    ensures Inv(Answered(p, id, false))
  {
    hide Inv, Attempt;
    var d := p.deletors[id].(inFlight := false);
    InvPaired(p);
    var p1 := DropPending(p, d.path);
    DropPendingKeepsInv(p, d.path);
    assert DropPending(p.(deletors := p.deletors[id := d]), d.path) == p1.(deletors := p1.deletors[id := d]);
    assert Place(p1.(deletors := p1.deletors[id := d]), id, true, Started)
        == Pool(p1.closing, p1.pending[d.path := id], p1.deletors[id := d]);
    InvAll(p1);
    PlaceKeepsInv(p1, id, d, true);
  }

  lemma InvPaired(p: Pool)
    requires Inv(p)
    ensures Paired(p)
  {}

  lemma InvAll(p: Pool)
    requires Inv(p)
    ensures Paired(p) && forall i :: i in p.deletors ==> Linear(p, i) && Bounded(p.deletors[i])
  {}

  lemma RetryAllKeepsInv(p: Pool, launches: Launches)
    requires Inv(p)
    ensures Inv(RetryAll(p, launches))
  {
    var p' := RetryAll(p, launches);
    forall id | id in p'.deletors ensures Linear(p', id) && Bounded(p'.deletors[id]) {
      assert Linear(p, id) && Bounded(p.deletors[id]);
    }
  }

  lemma CleanupKeepsInv(p: Pool)
    requires Inv(p)
    ensures Inv(Cleanup(p))
  {
    var p' := Cleanup(p);
    forall id | id in p'.deletors ensures Linear(p', id) && Bounded(p'.deletors[id]) {
      assert Linear(p, id) && Bounded(p.deletors[id]);
    }
  }

  lemma StepKeepsInv(p: Pool, step: Step)
    requires Inv(p)
    ensures Inv(Apply(p, step))
  {
    match step
    case Remove(id, path, launch) => if id !in p.deletors { BeginKeepsInv(p, id, path, launch); }
    case Add(path) => DropPendingKeepsInv(p, path);
    case Answer(id, ok) => if id in p.deletors && p.deletors[id].inFlight { AnsweredKeepsInv(p, id, ok); }
    case Retry(launches) => RetryAllKeepsInv(p, launches);
    case Close =>
      CleanupKeepsInv(p);
      ClosingIsIrrelevant(Cleanup(p), true);
    case Reopen => ClosingIsIrrelevant(p, false);
  }

  lemma ClosingIsIrrelevant(p: Pool, closing: bool)
    requires Inv(p)
    ensures Inv(p.(closing := closing))
  {
    var p' := p.(closing := closing);
    forall id | id in p'.deletors ensures Linear(p', id) && Bounded(p'.deletors[id]) {
      assert Linear(p, id) && Bounded(p.deletors[id]);
    }
  }

  const INITIAL := Pool(false, map[], map[])

  /** States reached from `p` by `n` steps. */
  ghost function Run(p: Pool, steps: seq<Step>): Pool
    requires Inv(p)
    decreases |steps|
  {
    if steps == [] then p
    else
      StepKeepsInv(p, steps[0]);
      Run(Apply(p, steps[0]), steps[1..])
  }

  lemma {:induction false} RunKeepsInv(p: Pool, steps: seq<Step>)
    requires Inv(p)
    ensures Inv(Run(p, steps))
    decreases |steps|
  {
    if steps != [] {
      StepKeepsInv(p, steps[0]);
      RunKeepsInv(Apply(p, steps[0]), steps[1..]);
    }
  }

  /** In every run every deletor is in exactly one of the map, an in-flight request or freed; it is freed at most
      once, is stored under its own path and starts at most eight requests. */
  lemma DeletorsAreLinear(steps: seq<Step>, id: Id)
    requires id in Run(INITIAL, steps).deletors
    ensures Paired(Run(INITIAL, steps)) && Linear(Run(INITIAL, steps), id)
  {
    RunKeepsInv(INITIAL, steps);
  }

  /** The ninth attempt frees a deletor, whatever it is for. */
  lemma NinthAttemptFrees(steps: seq<Step>, id: Id, launches: Launches)
    requires var p := Run(INITIAL, steps);
             id in p.deletors && IsPending(p, id) && p.deletors[id].retryTimes == MAX_RETRIES
    ensures Paired(Run(INITIAL, steps))
    ensures var p := RetryAll(Run(INITIAL, steps), launches);
            p.deletors[id].frees == 1 && !IsPending(p, id)
            && p.deletors[id].starts == Run(INITIAL, steps).deletors[id].starts
  {
    RunKeepsInv(INITIAL, steps);
    assert Linear(Run(INITIAL, steps), id);
  }

  /** A delete that succeeded frees its deletor, whatever was waiting for the path stays, and nothing is started. */
  lemma SuccessFrees(p: Pool, id: Id)
    requires Inv(p) && id in p.deletors && p.deletors[id].inFlight
    ensures var p' := Apply(p, Answer(id, true));
            && p'.pending == p.pending && p'.deletors == p.deletors[id := p'.deletors[id]]
            && p'.deletors[id].frees == 1 && !p'.deletors[id].inFlight
            && p'.deletors[id].starts == p.deletors[id].starts
            && p'.deletors[id].retryTimes == p.deletors[id].retryTimes
  {
    assert Linear(p, id);
  }

  /** A delete that failed waits for a retry under its path. */
  lemma FailureWaits(p: Pool, id: Id)
    requires Inv(p) && id in p.deletors && p.deletors[id].inFlight
    ensures var p' := Apply(p, Answer(id, false));
            && Paired(p') && id in p'.deletors && IsPending(p', id) && p'.deletors[id].frees == 0
            && p'.deletors[id].retryTimes == p.deletors[id].retryTimes
  {
    assert Linear(p, id) && Bounded(p.deletors[id]);
  }

  /** A deletor that is freed stays as it is. */
  lemma {:induction false} FreedStays(p: Pool, steps: seq<Step>, id: Id)
    requires Inv(p) && id in p.deletors && p.deletors[id].frees == 1
    ensures id in Run(p, steps).deletors && Run(p, steps).deletors[id] == p.deletors[id]
    decreases |steps|
  {
    InvPaired(p);
    hide Inv, Apply;
    if steps != [] {
      StepKeepsInv(p, steps[0]);
      InvPaired(Apply(p, steps[0]));
      FreedIsLeftAlone(p, steps[0], id);
      FreedStays(Apply(p, steps[0]), steps[1..], id);
    }
  }

  lemma FreedIsLeftAlone(p: Pool, step: Step, id: Id)
    requires Inv(p) && id in p.deletors && p.deletors[id].frees == 1
    ensures id in Apply(p, step).deletors && Apply(p, step).deletors[id] == p.deletors[id]
  {
    assert Linear(p, id);
  }

  /** Closing frees everything that waits and touches nothing else. */
  lemma CloseFreesWaiting(p: Pool, id: Id)
    requires Inv(p) && id in p.deletors
    ensures var p' := Apply(p, Close);
            && p'.pending == map[] && id in p'.deletors
            && (IsPending(p, id) ==> p'.deletors[id].frees == 1)
            && (!IsPending(p, id) ==> p'.deletors[id] == p.deletors[id])
  {
    assert Linear(p, id);
  }

  /** A closing cluster starts no delete: what waited waits on or is freed by its ninth attempt. */
  lemma ClosingStartsNothing(p: Pool, launches: Launches, id: Id)
    requires Inv(p) && p.closing && id in p.deletors
    ensures var p' := Apply(p, Retry(launches));
            id in p'.deletors && p'.deletors[id].starts == p.deletors[id].starts
            && p'.deletors[id].inFlight == p.deletors[id].inFlight
  {
    assert Linear(p, id);
  }
}
