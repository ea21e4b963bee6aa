/** The objects behind module Deletors: `etcd_keepalive_deletor` and the map of pending deletes in `etcd_cluster`. Every
    method is proved to perform the step of the same name in module Deletors. */
module DeletorOwner {
  import opened Common
  import D = Deletors

  type Path = D.Path
  type Id = D.Id

  class EtcdKeepaliveDeletor {
    ghost const id: Id
    const path: Path
    var retryTimes: nat
    var hasOwner: bool
    var inFlight: bool
    ghost var starts: nat
    ghost var frees: nat

    constructor (ghost id: Id, path: Path)
      ensures this.id == id && View() == D.Deletor(path, 0, false, false, 0, 0)
    {
      this.id, this.path := id, path;
      retryTimes, hasOwner, inFlight, starts, frees := 0, false, false, 0, 0;
    }

    ghost function View(): D.Deletor
      reads this
    {
      D.Deletor(path, retryTimes, hasOwner, inFlight, starts, frees)
    }

    method Delete()
      modifies this
      ensures View() == D.Freed(old(View()))
    {
      hasOwner := false;
      inFlight := false;
      frees := frees + 1;
    }

    /** One attempt to start the delete request; says whether the deletor has to wait for a retry. */
    method Attempt(closing: bool, launch: Launch) returns (waits: bool)
      modifies this
      ensures View() == D.Attempt(old(View()), closing, launch)
      ensures old(!inFlight && frees == 0) ==> waits == D.Waits(View())
    {
      hasOwner := true;
      retryTimes := retryTimes + 1;
      if retryTimes > D.MAX_RETRIES {
        Delete();
        return false;
      }
      if closing || launch == CreateFailed {
        return true;
      }
      if launch == StartFailed {
        return true;
      }
      inFlight := true;
      starts := starts + 1;
      return false;
    }
  }

  class EtcdCluster {
    var closing: bool
    var keepaliveDeletors: map<Path, EtcdKeepaliveDeletor>
    ghost var all: map<Id, EtcdKeepaliveDeletor>     // every deletor created for this cluster

    ghost predicate Has(d: EtcdKeepaliveDeletor)
      reads this`all
    {
      d.id in all && all[d.id] == d
    }

    ghost predicate Stores(m: map<Path, EtcdKeepaliveDeletor>)
      reads this
    {
      forall path :: path in m ==> Has(m[path]) && m[path].path == path
    }

    ghost predicate Valid()
      reads this
    {
      (forall id :: id in all ==> all[id].id == id) && Stores(keepaliveDeletors)
    }

    ghost function Deletors(): map<Id, D.Deletor>
      reads this, all.Values
    {
      map id | id in all :: all[id].View()
    }

    ghost function View(): D.Pool
      reads this, all.Values
    {
      D.Pool(closing, Ids(keepaliveDeletors), Deletors())
    }

    constructor ()
      ensures Valid() && View() == D.INITIAL
    {
      closing, keepaliveDeletors, all := false, map[], map[];
    }

    lemma ValidIsPaired()
      requires Valid()
      ensures D.Paired(View()) && View().closing == closing && View().pending == Ids(keepaliveDeletors)
      ensures View().deletors == Deletors()
    {}

    lemma Entry(d: EtcdKeepaliveDeletor)
      requires Valid() && Has(d)
      ensures d.id in View().deletors && View().deletors[d.id] == d.View()
    {}

    /** Changing one deletor changes only its entry in the view. */
    twostate lemma OnlyOneChanged(d: EtcdKeepaliveDeletor)
      requires old(Valid()) && old(Has(d)) && unchanged(this)
      requires forall k :: k in all.Values && k != d ==> unchanged(k)
      ensures Valid() && View() == old(View()).(deletors := old(View()).deletors[d.id := d.View()])
    {
      forall id | id in all && id != d.id ensures all[id].View() == old(all[id].View()) {
        assert all[id] in all.Values;
      }
      assert Deletors() == old(Deletors())[d.id := d.View()];
    }

    method DeleteKeepaliveDeletor(d: EtcdKeepaliveDeletor)
      requires Valid() && Has(d)
      modifies d
      ensures Valid() && d.id in old(View()).deletors && View() == D.Free(old(View()), d.id)
    {
      hide D.Freed;
      Entry(d);
      d.Delete();
      OnlyOneChanged(d);
    }

    method Erase(path: Path)
      requires Valid() && path in keepaliveDeletors
      modifies this`keepaliveDeletors
      ensures Valid() && keepaliveDeletors == old(keepaliveDeletors) - {path}
      ensures View() == old(View()).(pending := old(View()).pending - {path})
    {
      keepaliveDeletors := keepaliveDeletors - {path};
      assert Ids(keepaliveDeletors) == Ids(old(keepaliveDeletors)) - {path};
    }

    method Insert(d: EtcdKeepaliveDeletor)
      requires Valid() && Has(d)
      modifies this`keepaliveDeletors
      ensures Valid() && keepaliveDeletors == old(keepaliveDeletors)[d.path := d]
      ensures View() == old(View()).(pending := old(View()).pending[d.path := d.id])
    {
      keepaliveDeletors := keepaliveDeletors[d.path := d];
      assert Ids(keepaliveDeletors) == Ids(old(keepaliveDeletors))[d.path := d.id];
    }

    /** The deletor waiting for a path, if any, is freed. */
    method DropPending(path: Path)
      requires Valid()
      modifies this`keepaliveDeletors, if path in keepaliveDeletors then {keepaliveDeletors[path]} else {}
      ensures Valid() && keepaliveDeletors == old(keepaliveDeletors) - {path}
      ensures D.Paired(old(View())) && View() == D.DropPending(old(View()), path)
    {
      hide View, D.Freed;
      ValidIsPaired();
      if path in keepaliveDeletors {
        var d := keepaliveDeletors[path];
        Erase(path);
        DeleteKeepaliveDeletor(d);
      } else {
        assert keepaliveDeletors == keepaliveDeletors - {path};
      }
    }

    method Start(d: EtcdKeepaliveDeletor, launch: Launch) returns (waits: bool)
      requires Valid() && Has(d) && !d.inFlight && d.frees == 0
      modifies d
      ensures Valid() && d.View() == D.Attempt(old(d.View()), closing, launch) && waits == D.Waits(d.View())
      ensures View() == old(View()).(deletors := old(View()).deletors[d.id := d.View()])
    {
      hide D.Attempt;
      waits := d.Attempt(closing, launch);
      OnlyOneChanged(d);
    }

    method RemoveKeepalivePath(d: EtcdKeepaliveDeletor, delayDelete: bool, launch: Launch)
      requires Valid() && Has(d) && (d.path in keepaliveDeletors ==> keepaliveDeletors[d.path] != d)
      requires !d.inFlight && d.frees == 0
      modifies this`keepaliveDeletors, d, if d.path in keepaliveDeletors then {keepaliveDeletors[d.path]} else {}
      ensures Valid() && D.Paired(old(View())) && d.id in old(View()).deletors
      ensures View() == D.RemovePath(old(View()), d.id, delayDelete, launch)
      ensures d.path !in old(keepaliveDeletors) && !delayDelete ==>
                && d.View() == D.Attempt(old(d.View()), closing, launch)
                && keepaliveDeletors ==
                     if D.Waits(d.View()) then old(keepaliveDeletors)[d.path := d] else old(keepaliveDeletors)
    {
      hide View, D.DropPending, D.Place, D.Attempt;
      ValidIsPaired();
      Entry(d);
      DropPending(d.path);
      Place(d, delayDelete, launch);
    }

    method Place(d: EtcdKeepaliveDeletor, delayDelete: bool, launch: Launch)
      requires Valid() && Has(d) && !d.inFlight && d.frees == 0
      modifies this`keepaliveDeletors, d
      ensures Valid() && d.id in old(View()).deletors
      ensures View() == D.Place(old(View()), d.id, delayDelete, launch)
      ensures !delayDelete ==>
                && d.View() == D.Attempt(old(d.View()), closing, launch)
                && keepaliveDeletors ==
                     if D.Waits(d.View()) then old(keepaliveDeletors)[d.path := d] else old(keepaliveDeletors)
    {
      hide View, D.Attempt;
      ValidIsPaired();
      Entry(d);
      if delayDelete {
        Insert(d);
        return;
      }
      var waits := Start(d, launch);
      if waits {
        Insert(d);
      }
    }

    /** A keepalive with data has been removed: `remove_keepalive` makes the deletor of its path. */
    method Begin(ghost id: Id, path: Path, launch: Launch)
      requires Valid() && id !in all
      modifies this, if path in keepaliveDeletors then {keepaliveDeletors[path]} else {}
      ensures Valid() && D.Paired(old(View())) && View() == D.Begin(old(View()), id, path, launch)
    {
      hide View, D.RemovePath;
      ValidIsPaired();
      var d := New(id, path);
      RemoveKeepalivePath(d, false, launch);
    }

    method New(ghost id: Id, path: Path) returns (d: EtcdKeepaliveDeletor)
      requires Valid() && id !in all
      modifies this`all
      ensures Valid() && Has(d) && fresh(d) && d.id == id && d.path == path && all == old(all)[id := d]
      ensures !d.inFlight && d.frees == 0
      ensures View() == old(View()).(deletors := old(View()).deletors[id := D.Deletor(path, 0, false, false, 0, 0)])
    {
      d := new EtcdKeepaliveDeletor(id, path);
      all := all[id := d];
      assert Deletors() == old(Deletors())[id := d.View()];
    }

    method ResetRpc(d: EtcdKeepaliveDeletor)
      requires Valid() && Has(d)
      modifies d
      ensures Valid() && !d.inFlight && d.frees == old(d.frees) && d.hasOwner == old(d.hasOwner)
      ensures var p := old(View());
              d.id in p.deletors && View() == p.(deletors := p.deletors[d.id := p.deletors[d.id].(inFlight := false)])
    {
      Entry(d);
      d.inFlight := false;
      OnlyOneChanged(d);
    }

    /** The answer to a delete request. */
    method OnRemoveKeepalivePath(d: EtcdKeepaliveDeletor, ok: bool)
      requires Valid() && Has(d) && d.inFlight && d.frees == 0
      requires d.path in keepaliveDeletors ==> keepaliveDeletors[d.path] != d
      modifies this, all.Values
      ensures Valid() && D.Paired(old(View())) && d.id in old(View()).deletors
      ensures View() == D.Answered(old(View()), d.id, ok)
    {
      hide View, D.RemovePath, D.Free;
      ValidIsPaired();
      Entry(d);
      ResetRpc(d);
      if !ok && d.hasOwner {
        RemoveKeepalivePath(d, true, Started);
      } else {
        DeleteKeepaliveDeletor(d);
      }
    }

    /** `retry_pending_actions`, the deletor part: the map is swapped out and every deletor in it tried again. */
    method RetryPendingActions(launches: D.Launches)
      requires Valid() && forall path :: path in keepaliveDeletors ==> D.Waits(keepaliveDeletors[path].View())
      modifies this`keepaliveDeletors, all.Values
      ensures Valid() && D.Paired(old(View())) && View() == D.RetryAll(old(View()), launches)
    {
      hide View, Valid, Left, AllWait, RetryPart, D.RetryAll, D.Waits, D.Paired, EtcdKeepaliveDeletor.View;
      MapWaits();
      ghost var p := View();
      var rest := Swap();
      RetryPartAll(p, launches);
      while rest != map[]
        invariant Valid() && Left(p, rest) && View() == RetryPart(p, rest.Keys, launches)
        decreases |rest|
      {
        var path :| path in rest;
        OneLess(p, rest, path);
        RetryNext(p, rest.Keys, rest[path], launches);
        rest := rest - {path};
      }
    }

    lemma MapWaits()
      requires Valid() && forall path :: path in keepaliveDeletors ==> D.Waits(keepaliveDeletors[path].View())
      ensures D.Paired(View()) && AllWait(View())
    {}

    /** The part of the swapped-out map still to come. */
    ghost predicate Left(p: D.Pool, rest: map<Path, EtcdKeepaliveDeletor>)
      reads this`all
    {
      && rest.Keys <= p.pending.Keys
      && forall path :: path in rest ==> Has(rest[path]) && rest[path].path == path && rest[path].id == p.pending[path]
    }

    lemma OneLess(p: D.Pool, rest: map<Path, EtcdKeepaliveDeletor>, path: Path)
      requires Left(p, rest) && path in rest
      ensures var d := rest[path]; Has(d) && d.path == path && path in p.pending && d.id == p.pending[path]
      ensures rest.Keys <= p.pending.Keys
      ensures Left(p, rest - {path}) && (rest - {path}).Keys == rest.Keys - {path} && |rest - {path}| < |rest|
    {
      assert (rest - {path}).Keys == rest.Keys - {path};
      assert |rest - {path}| == |rest| - 1;
    }

    method RetryNext(ghost p: D.Pool, ghost rest: set<Path>, d: EtcdKeepaliveDeletor, launches: D.Launches)
      requires Valid() && Has(d) && D.Paired(p) && AllWait(p) && rest <= p.pending.Keys
      requires d.path in rest && p.pending[d.path] == d.id && View() == RetryPart(p, rest, launches)
      modifies this`keepaliveDeletors, all.Values
      ensures Valid() && View() == RetryPart(p, rest - {d.path}, launches)
    {
      hide View, Valid, RetryPart, D.RemovePath;
      RetryPartNext(p, rest, d.path, launches);
      Entry(d);
      ValidIsPaired();
      RemoveKeepalivePath(d, false, launches(d.path));
    }

    /** Takes the map of pending deletes away. */
    method Swap() returns (pendingDeletes: map<Path, EtcdKeepaliveDeletor>)
      requires Valid()
      modifies this`keepaliveDeletors
      ensures Valid() && D.Paired(old(View())) && View() == old(View()).(pending := map[])
      ensures Left(old(View()), pendingDeletes) && pendingDeletes.Keys == old(View()).pending.Keys
    {
      pendingDeletes := keepaliveDeletors;
      keepaliveDeletors := map[];
    }

    method CleanupKeepaliveDeletors()
      requires Valid()
      modifies this`keepaliveDeletors, all.Values
      ensures Valid() && D.Paired(old(View())) && View() == D.Cleanup(old(View()))
    {
      hide View, Valid, Left, CleanupPart, D.Cleanup, D.Free;
      ghost var p := View();
      var rest := Swap();
      CleanupPartAll(p);
      while rest != map[]
        invariant Valid() && Left(p, rest) && View() == CleanupPart(p, rest.Keys)
        decreases |rest|
      {
        var path :| path in rest;
        OneLess(p, rest, path);
        CleanupPartNext(p, rest.Keys, path);
        DeleteKeepaliveDeletor(rest[path]);
        rest := rest - {path};
      }
    }
  }

  ghost function Ids(m: map<Path, EtcdKeepaliveDeletor>): map<Path, Id> { map path | path in m :: m[path].id }

  // ---------------------------------------------------------------- the loops, part of the way

  /** The retry with the deletors of `rest` still to come. */
  ghost function RetryPart(p: D.Pool, rest: set<Path>, launches: D.Launches): D.Pool
    requires D.Paired(p)
  {
    var after := map id | id in p.deletors ::
      if D.IsPending(p, id) && p.deletors[id].path !in rest
      then D.Attempt(p.deletors[id], p.closing, launches(p.deletors[id].path)) else p.deletors[id];
    D.Pool(p.closing,
           map path | path in p.pending && path !in rest && D.Waits(after[p.pending[path]]) :: p.pending[path], after)
  }

  ghost predicate AllWait(p: D.Pool)
    requires D.Paired(p)
  {
    forall path :: path in p.pending ==> D.Waits(p.deletors[p.pending[path]])
  }

  lemma RetryPartAll(p: D.Pool, launches: D.Launches)
    requires D.Paired(p)
    ensures RetryPart(p, p.pending.Keys, launches) == p.(pending := map[])
    ensures RetryPart(p, {}, launches) == D.RetryAll(p, launches)
  {
    assert RetryPart(p, p.pending.Keys, launches).deletors == p.deletors;
    assert RetryPart(p, {}, launches).deletors == D.RetryAll(p, launches).deletors;
  }

  lemma RetryPartNext(p: D.Pool, rest: set<Path>, path: Path, launches: D.Launches)
    requires D.Paired(p) && AllWait(p) && path in rest && rest <= p.pending.Keys
    ensures var part, id := RetryPart(p, rest, launches), p.pending[path];
            && id in part.deletors && part.deletors[id].path == path && D.Waits(part.deletors[id])
            && path !in part.pending
            && D.RemovePath(part, id, false, launches(path)) == RetryPart(p, rest - {path}, launches)
  {
    hide D.Attempt;
    var part, id, next := RetryPart(p, rest, launches), p.pending[path], RetryPart(p, rest - {path}, launches);
    var removed := D.RemovePath(part, id, false, launches(path));
    assert removed.deletors == next.deletors;
    assert removed.pending == next.pending;
  }

  /** The clean-up with the deletors of `rest` still to come. */
  ghost function CleanupPart(p: D.Pool, rest: set<Path>): D.Pool
    requires D.Paired(p)
  {
    D.Pool(p.closing, map[],
           map id | id in p.deletors ::
             if D.IsPending(p, id) && p.deletors[id].path !in rest then D.Freed(p.deletors[id]) else p.deletors[id])
  }

  lemma CleanupPartAll(p: D.Pool)
    requires D.Paired(p)
    ensures CleanupPart(p, p.pending.Keys) == p.(pending := map[]) && CleanupPart(p, {}) == D.Cleanup(p)
  {
    assert CleanupPart(p, p.pending.Keys).deletors == p.deletors;
    assert CleanupPart(p, {}).deletors == D.Cleanup(p).deletors;
  }

  lemma CleanupPartNext(p: D.Pool, rest: set<Path>, path: Path)
    requires D.Paired(p) && path in rest && rest <= p.pending.Keys
    ensures p.pending[path] in CleanupPart(p, rest).deletors
    ensures D.Free(CleanupPart(p, rest), p.pending[path]) == CleanupPart(p, rest - {path})
  {
    assert D.Free(CleanupPart(p, rest), p.pending[path]).deletors == CleanupPart(p, rest - {path}).deletors;
  }
}
