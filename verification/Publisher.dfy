/** The objects behind module Cluster: `etcd_keepalive` and the part of `etcd_cluster` that owns the members, the
    retry list and the lease. Every method is proved to perform the step of the same name in module Cluster. */
module Publisher {
  import opened Common
  import opened Keepalives
  import C = Cluster

  type Id = C.Id

  class EtcdKeepalive {
    const id: Id
    const owner: EtcdCluster
    const path: Key
    var value: string
    var request: Request
    var valueChanged: bool
    var hasData: bool
    var checker: Option<string -> bool>
    var checkRun: bool
    var checkPassed: bool
    ghost var acked: Option<Published>
    ghost var marks: seq<Mark>

    ghost function View(): Keepalive
      reads this
    {
      Keepalives.Keepalive(path, value, request, valueChanged, hasData, checker, checkRun, checkPassed, acked, marks)
    }

    constructor (id: Id, owner: EtcdCluster, path: Key)
      ensures View() == Created(path) && this.id == id && this.owner == owner
    {
      this.id, this.owner, this.path := id, owner, path;
      value, request, valueChanged, hasData := "", NoRequest, true, false;
      checker, checkRun, checkPassed := None, false, false;
      acked, marks := None, [];
    }

    ghost predicate Owned()
      reads this, owner, owner.all.Values
    {
      owner.Valid() && id in owner.all && owner.all[id] == this
    }

    method Close(resetHasData: bool)
      modifies this
      ensures View() == Closed(old(View()), resetHasData)
    {
      request := NoRequest;
      valueChanged := true;
      if resetHasData {
        hasData := false;
      }
      checkRun := false;
      checkPassed := false;
      checker := None;
      marks := [];
    }

    method SetChecker(fn: Option<string -> bool>)
      modifies this
      ensures View() == WithChecker(old(View()), fn)
    {
      checker := fn;
      marks := marks + [if fn.Some? then CheckerInstalled else CheckerRemoved];
    }

    method ResetValueChanged()
      modifies this
      ensures View() == old(View()).(valueChanged := true)
    {
      valueChanged := true;
    }

    /** `process` without the entry into the retry list; `lease` and `closing` decide whether a request can be made. */
    method MakeRequest(lease: int, closing: bool, launch: Launch) returns (needRetry: bool)
      modifies this
      ensures Processed(View(), needRetry) == Process(old(View()), lease, closing, launch)
    {
      needRetry := false;
      if request != NoRequest {
        return;
      }
      if checker.None? {
        checkRun := true;
        checkPassed := true;
      }
      marks := marks + [Activated];
      if !checkRun {
        if launch == CreateFailed || closing {
          needRetry := true;
          return;
        }
        request := Get;
      } else if checkPassed && valueChanged {
        if launch == CreateFailed || closing || lease == 0 {
          needRetry := true;
          return;
        }
        request := Put(value, lease);
        valueChanged := false;
      }
      if request != NoRequest {
        if launch == StartFailed {
          needRetry := true;
          request := NoRequest;
        } else if request.Put? {
          marks := marks + [PutStarted];
        }
      }
    }

    method Active(launch: Launch)
      requires Owned()
      modifies this, owner
      ensures Owned() && owner.all == old(owner.all) && owner.actors == old(owner.actors)
      ensures owner.View() == C.Activate(old(owner.View()), id, launch)
      ensures this in old(owner.retryActors) ==> owner.retryActors == old(owner.retryActors)
    {
      var needRetry := MakeRequest(owner.lease, owner.closing, launch);
      OnlyThisChanged();
      if needRetry {
        owner.AddRetryKeepalive(this);
      }
    }

    method SetValue(str: string, launch: Launch)
      requires Owned()
      modifies this, owner
      ensures Owned() && owner.all == old(owner.all)
      ensures owner.View() == C.SetValue(old(owner.View()), id, str, launch)
    {
      if value != str {
        value := str;
        valueChanged := true;
        OnlyThisChanged();
        if owner.running && owner.lease != 0 {
          Active(launch);
        }
      }
    }

    /** Changing this keepalive alone updates its entry in the cluster's view. */
    twostate lemma OnlyThisChanged()
      requires old(Owned()) && unchanged(owner)
      requires forall k :: k in owner.all.Values && k != this ==> unchanged(k)
      ensures Owned() && owner.View() == C.Update(old(owner.View()), id, View())
    {
      forall i | i in owner.all && i != id ensures owner.all[i].View() == old(owner.all[i].View()) {
        assert owner.all[i] in owner.all.Values;
      }
      assert owner.View().keepalives == old(owner.View()).keepalives[id := View()];
    }

    lemma Entry()
      requires Owned()
      ensures id in owner.View().keepalives && owner.View().keepalives[id] == View()
    {}

    method OnGetData(reply: GetReply, launch: Launch)
      requires Owned() && request.Get?
      modifies this, owner
      ensures Owned() && owner.all == old(owner.all)
      ensures owner.View() == C.GetDone(old(owner.View()), id, reply, launch)
    {
      hide C.AddRetry, C.Activate, EtcdCluster.View, EtcdCluster.Valid;
      Entry();
      request := NoRequest;
      if !reply.GetOk? {
        OnlyThisChanged();
        owner.AddRetryKeepalive(this);
        return;
      }
      checkRun := true;
      if checker.None? {
        checkPassed := true;
      } else {
        checkPassed := checker.value(reply.content);
      }
      marks := marks + [if checkPassed then Accepted else Rejected];
      OnlyThisChanged();
      Active(launch);
    }

    method OnSetData(ok: bool, launch: Launch)
      requires Owned() && request.Put?
      modifies this, owner
      ensures Owned() && owner.all == old(owner.all)
      ensures owner.View() == C.PutDone(old(owner.View()), id, ok, launch)
    {
      hide C.AddRetry, C.Activate, EtcdCluster.View, EtcdCluster.Valid;
      Entry();
      ghost var sent := Published(request.value, request.lease);
      request := NoRequest;
      if !ok {
        valueChanged := true;
        OnlyThisChanged();
        owner.AddRetryKeepalive(this);
        return;
      }
      hasData := true;
      acked := Some(sent);
      OnlyThisChanged();
      Active(launch);
    }
  }

  function Ids(s: seq<EtcdKeepalive>): (ids: seq<Id>)
    ensures |ids| == |s| && forall i :: 0 <= i < |s| ==> ids[i] == s[i].id
  {
    seq(|s|, i requires 0 <= i < |s| => s[i].id)
  }

  class EtcdCluster {
    var lease: int
    var running: bool
    var closing: bool
    var enableLease: bool
    var actors: seq<EtcdKeepalive>
    var retryActors: seq<EtcdKeepalive>
    ghost var all: map<Id, EtcdKeepalive>   // every keepalive created for this cluster

    ghost predicate Valid()
      reads this, all.Values
    {
      && (forall id :: id in all ==> all[id].id == id && all[id].owner == this)
      && (forall k :: k in actors ==> k.id in all && all[k.id] == k)
      && (forall k :: k in retryActors ==> k.id in all && all[k.id] == k)
    }

    ghost function View(): C.Cluster
      reads this, all.Values
    {
      C.Cluster(lease, running, closing, enableLease, Ids(actors), Ids(retryActors),
                map id | id in all :: all[id].View())
    }

    constructor ()
      ensures Valid() && View() == C.INITIAL
    {
      lease, running, closing, enableLease := 0, false, false, false;
      actors, retryActors, all := [], [], map[];
    }

    method AddRetryKeepalive(k: EtcdKeepalive)
      requires Valid() && k.id in all && all[k.id] == k
      modifies this
      ensures Valid() && all == old(all)
      ensures View() == C.AddRetry(old(View()), k.id)
      ensures lease == old(lease) && actors == old(actors) && running == old(running) && closing == old(closing)
      ensures k in old(retryActors) ==> retryActors == old(retryActors)
    {
      MemberIds(retryActors, k);
      if closing {
        return;
      }
      if k in retryActors {
        return;
      }
      enableLease := true;
      retryActors := retryActors + [k];
      assert Ids(retryActors) == Ids(old(retryActors)) + [k.id];
      assert View().keepalives == old(View()).keepalives;
    }

    lemma MemberIds(s: seq<EtcdKeepalive>, k: EtcdKeepalive)
      requires Valid() && k.id in all && all[k.id] == k
      requires forall m :: m in s ==> m.id in all && all[m.id] == m
      ensures k in s <==> k.id in Ids(s)
    {
      if k.id in Ids(s) {
        var i :| 0 <= i < |s| && Ids(s)[i] == k.id;
        assert s[i] == k;
      }
      if i :| 0 <= i < |s| && s[i] == k {
        assert Ids(s)[i] == k.id;
      }
    }

    method CreateKeepalive(id: Id, path: Key) returns (k: EtcdKeepalive)
      requires Valid() && id !in all
      modifies this
      ensures Valid() && all == old(all)[id := k] && fresh(k)
      ensures View() == C.Update(old(View()), id, Created(path))
    {
      k := new EtcdKeepalive(id, this, path);
      all := all[id := k];
      assert View().keepalives == old(View()).keepalives[id := k.View()];
    }

    method AddKeepalive(k: EtcdKeepalive, launch: Launch) returns (added: bool)
      requires Valid() && k.id in all && all[k.id] == k
      modifies this, k
      ensures Valid() && all == old(all)
      ensures View() == C.AddKeepalive(old(View()), k.id, launch)
      ensures added <==> old(!closing && k !in actors)
    {
      hide C.Activate;
      MemberIds(actors, k);
      added := false;
      if closing || k in actors {
        return;
      }
      added := true;
      enableLease := true;
      actors := actors + [k];
      assert Ids(actors) == Ids(old(actors)) + [k.id];
      assert View().keepalives == old(View()).keepalives;
      if running && lease != 0 {
        k.Active(launch);
      }
    }

    /** Swap with the last and pop, for the first occurrence. */
    method SwapAndPop(s: seq<EtcdKeepalive>, k: EtcdKeepalive) returns (r: seq<EtcdKeepalive>, found: bool)
      requires Valid() && k.id in all && all[k.id] == k
      requires forall m :: m in s ==> m.id in all && all[m.id] == m
      ensures Ids(r) == C.SwapAndPop(Ids(s), k.id) && (found <==> k in s)
      ensures (!found ==> r == s) && forall m :: m in r ==> m in s
    {
      MemberIds(s, k);
      r, found := s, false;
      for i := 0 to |s|
        invariant r == s && !found
        invariant k !in s[..i]
      {
        if s[i] == k {
          FirstIndex(s, k, i);
          if i != |s| - 1 {
            r := r[i := r[|s| - 1]];
          }
          r := r[..|s| - 1];
          found := true;
          assert Ids(r) == C.SwapAndPop(Ids(s), k.id);
          return;
        }
      }
    }

    lemma FirstIndex(s: seq<EtcdKeepalive>, k: EtcdKeepalive, i: nat)
      requires Valid() && k.id in all && all[k.id] == k
      requires forall m :: m in s ==> m.id in all && all[m.id] == m
      requires i < |s| && s[i] == k && k !in s[..i]
      ensures k.id in Ids(s) && C.IndexOf(Ids(s), k.id) == i
    {
      assert Ids(s)[i] == k.id;
      var j := C.IndexOf(Ids(s), k.id);
      forall m | 0 <= m < i ensures Ids(s)[m] != k.id {
        assert s[m] == s[..i][m];
      }
      forall m | 0 <= m < j ensures Ids(s)[m] != k.id {
        assert Ids(s)[m] == Ids(s)[..j][m];
      }
    }

    /** Takes a keepalive out of both lists. */
    method Pop(k: EtcdKeepalive) returns (found: bool)
      requires Valid() && k.id in all && all[k.id] == k
      modifies this`actors, this`retryActors
      ensures Valid()
      ensures Ids(actors) == C.SwapAndPop(Ids(old(actors)), k.id)
      ensures Ids(retryActors) == C.SwapAndPop(Ids(old(retryActors)), k.id)
      ensures found <==> old(k in actors || k in retryActors)
      ensures !found ==> actors == old(actors) && retryActors == old(retryActors)
    {
      hide C.SwapAndPop;
      var members, member := SwapAndPop(actors, k);
      var waiters, waiting := SwapAndPop(retryActors, k);
      actors, retryActors := members, waiters;
      found := member || waiting;
    }

    method RemoveKeepalive(k: EtcdKeepalive) returns (found: bool, needsDelete: bool)
      requires Valid() && k.id in all && all[k.id] == k
      modifies this, k
      ensures Valid() && all == old(all)
      ensures View() == C.RemoveKeepalive(old(View()), k.id)
      ensures found <==> old(k in actors || k in retryActors)
      ensures needsDelete <==> found && old(k.hasData)
    {
      hide C.SwapAndPop, Closed;
      MemberIds(actors, k);
      MemberIds(retryActors, k);
      needsDelete := false;
      found := Pop(k);
      assert View() == old(View()).(actors := Ids(actors), retry := Ids(retryActors)) by {
        assert View().keepalives == old(View()).keepalives;
      }
      if found {
        needsDelete := k.hasData;
        CloseOne(k, k.hasData);
      }
    }

    method CloseOne(k: EtcdKeepalive, resetHasData: bool)
      requires Valid() && k.id in all && all[k.id] == k
      modifies k
      ensures Valid() && View() == C.Update(old(View()), k.id, Closed(old(k.View()), resetHasData))
    {
      k.Close(resetHasData);
      k.OnlyThisChanged();
    }

    /** The loops over the members, or over the retry list: `reset_value_changed` and `active` on each. */
    method RepublishEach(ks: seq<EtcdKeepalive>, launches: C.Launches)
      requires Valid() && forall k :: k in ks ==> k.id in all && all[k.id] == k
      modifies this, all.Values
      ensures Valid() && all == old(all) && actors == old(actors)
      ensures forall id :: id in Ids(ks) ==> id in all
      ensures View() == C.RepublishAll(old(View()), Ids(ks), launches)
      ensures (forall k :: k in ks ==> k in old(retryActors)) ==> retryActors == old(retryActors)
    {
      hide C.RepublishAll, C.Republish;
      IdsKnown(ks);
      for i := 0 to |ks|
        invariant Valid() && all == old(all) && actors == old(actors)
        invariant (forall k :: k in ks ==> k in old(retryActors)) ==> retryActors == old(retryActors)
        invariant C.RepublishAll(View(), Ids(ks)[i..], launches) == C.RepublishAll(old(View()), Ids(ks), launches)
      {
        assert Ids(ks)[i..][1..] == Ids(ks)[i + 1..];
        C.RepublishFirst(View(), Ids(ks)[i..], launches);
        RepublishOne(ks[i], launches);
      }
      C.RepublishNone(View(), launches);
    }

    lemma IdsKnown(ks: seq<EtcdKeepalive>)
      requires Valid() && forall k :: k in ks ==> k.id in all && all[k.id] == k
      ensures forall id :: id in Ids(ks) ==> id in all
    {
      forall id | id in Ids(ks) ensures id in all {
        var i :| 0 <= i < |ks| && Ids(ks)[i] == id;
        assert ks[i] in ks;
      }
    }

    method RepublishOne(k: EtcdKeepalive, launches: C.Launches)
      requires Valid() && k.id in all && all[k.id] == k
      modifies this, k
      ensures Valid() && all == old(all) && actors == old(actors)
      ensures View() == C.Republish(old(View()), k.id, launches(k.id))
      ensures k in old(retryActors) ==> retryActors == old(retryActors)
    {
      hide C.Activate;
      k.ResetValueChanged();
      k.OnlyThisChanged();
      k.Active(launches(k.id));
    }

    method ClearRetryList()
      requires Valid()
      modifies this`retryActors
      ensures Valid() && View() == old(View()).(retry := [])
    {
      retryActors := [];
      assert View().keepalives == old(View()).keepalives;
    }

    /** `retry_pending_actions`, the keepalive part. */
    method RetryPendingActions(launches: C.Launches)
      requires Valid()
      modifies this, all.Values
      ensures Valid() && all == old(all)
      ensures C.Listed(old(View())) && View() == C.Sweep(old(View()), launches)
    {
      hide C.RepublishAll;
      IdsKnown(actors);
      IdsKnown(retryActors);
      if lease != 0 {
        RepublishEach(retryActors, launches);
        ClearRetryList();
      }
    }

    method SetLease(v: int, forceActiveKeepalives: bool, launches: C.Launches, sweep: C.Launches)
      requires Valid() && (v != 0 ==> running)
      modifies this, all.Values
      ensures Valid() && all == old(all)
      ensures C.Listed(old(View())) && View() == C.SetLease(old(View()), v, forceActiveKeepalives, launches, sweep)
    {
      hide C.RepublishAll, C.Sweep;
      IdsKnown(actors);
      IdsKnown(retryActors);
      var oldV := lease;
      lease := v;
      assert View().keepalives == old(View()).keepalives;
      if oldV == v && !forceActiveKeepalives && v != 0 {
        RetryPendingActions(sweep);
        return;
      }
      if v != 0 {
        ClearRetryList();
        RepublishEach(actors, launches);
        RetryPendingActions(sweep);
      }
    }

    method Tick(ready: bool, sweep: C.Launches)
      requires Valid()
      modifies this, all.Values
      ensures Valid() && all == old(all)
      ensures C.Listed(old(View())) && View() == C.Tick(old(View()), ready, sweep)
    {
      hide C.Sweep;
      IdsKnown(actors);
      IdsKnown(retryActors);
      if closing || !ready {
        return;
      }
      if enableLease {
        if lease == 0 {
          return;
        }
      } else if !running {
        running := true;
      }
      assert View().keepalives == old(View()).keepalives;
      RetryPendingActions(sweep);
    }

    /** `close`, the keepalive part. */
    method Close()
      requires Valid()
      modifies this, all.Values
      ensures Valid() && all == old(all)
      ensures View() == C.CloseCluster(old(View()))
    {
      hide Closed;
      SetClosing();
      CloseMembers();
      Clear();
    }

    method SetClosing()
      requires Valid()
      modifies this`closing
      ensures Valid() && View() == old(View()).(closing := true)
    {
      closing := true;
      assert View().keepalives == old(View()).keepalives;
    }

    method CloseMembers()
      requires Valid()
      modifies all.Values
      ensures Valid()
      ensures View() == old(View()).(keepalives := C.CloseAll(old(View()).keepalives, Ids(actors)))
    {
      hide Closed, View;
      ghost var c := View();
      CloseNone(c);
      for i := 0 to |actors|
        invariant Valid()
        invariant View() == c.(keepalives := C.CloseAll(c.keepalives, Ids(actors)[..i]))
      {
        assert actors[i] in actors;
        assert Ids(actors)[..i + 1] == Ids(actors)[..i] + [actors[i].id];
        CloseMember(actors[i]);
        CloseNext(c.keepalives, Ids(actors)[..i], actors[i].id);
      }
      assert Ids(actors)[..|actors|] == Ids(actors);
    }

    method CloseMember(k: EtcdKeepalive)
      requires Valid() && k.id in all && all[k.id] == k
      modifies k
      ensures Valid() && k.id in old(View()).keepalives
      ensures View() == C.Update(old(View()), k.id, Closed(old(View()).keepalives[k.id], false))
    {
      hide Closed;
      CloseOne(k, false);
    }

    method Clear()
      requires Valid()
      modifies this`actors, this`retryActors, this`lease
      ensures Valid() && View() == old(View()).(actors := [], retry := [], lease := 0)
    {
      actors := [];
      retryActors := [];
      lease := 0;
      assert View().keepalives == old(View()).keepalives;
    }
  }

  lemma CloseNone(c: C.Cluster)
    ensures c == c.(keepalives := C.CloseAll(c.keepalives, []))
  {
    assert C.CloseAll(c.keepalives, []) == c.keepalives;
  }

  /** Closing a keepalive again changes nothing. */
  lemma CloseNext(keepalives: map<Id, Keepalive>, ids: seq<Id>, id: Id)
    requires id in keepalives
    ensures var some := C.CloseAll(keepalives, ids);
            id in some && some[id := Closed(some[id], false)] == C.CloseAll(keepalives, ids + [id])
  {
    var some, more := C.CloseAll(keepalives, ids), C.CloseAll(keepalives, ids + [id]);
    forall i | i in keepalives ensures some[id := Closed(some[id], false)][i] == more[i] {}
    assert some[id := Closed(some[id], false)] == more;
  }
}
