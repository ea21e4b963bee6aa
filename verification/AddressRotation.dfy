/** Choosing the listen address a proxy is dialled at: `next_listen_address` and the rotation loop of
    `atproxy_manager::tick`. */
module AddressRotation {

  function Rotate<A>(l: seq<A>, k: nat): seq<A>
    requires k <= |l|
  {
    l[k..] + l[..k]
  }

  /** What `next_listen_address` makes of the list. */
  function Next<A>(l: seq<A>): seq<A> {
    if l == [] then l else Rotate(l, 1)
  }

  /** Index of the first reachable address, or the length of the list. */
  function FirstReachable<A>(l: seq<A>, reachable: A -> bool): (k: nat)
    ensures k <= |l| && (k < |l| ==> reachable(l[k]))
    ensures forall i :: 0 <= i < k ==> !reachable(l[i])
  {
    if l == [] || reachable(l[0]) then 0 else 1 + FirstReachable(l[1..], reachable)
  }

  /** The list after the rotation loop. */
  function Selected<A>(l: seq<A>, reachable: A -> bool): (r: seq<A>)
    ensures (exists a :: a in l && reachable(a)) ==> r != [] && reachable(r[0])
    ensures (forall a :: a in l ==> !reachable(a)) ==> r == l
  {
    var k := FirstReachable(l, reachable);
    if k < |l| then Rotate(l, k) else l
  }

  method NextListenAddress<A>(listens: seq<A>) returns (r: seq<A>)
    ensures r == Next(listens)
  {
    r := listens;
    var size := |listens|;
    if size <= 1 {
      return;
    }
    if size == 2 {
      r := [listens[1], listens[0]];
    } else {
      r := r + [r[0]];
      r := r[1..];
    }
  }

  lemma RotateNext<A>(l: seq<A>, k: nat)
    requires k < |l|
    ensures Next(Rotate(l, k)) == Rotate(l, k + 1)
  {}

  /** As many times as there are addresses: move on if the address in front is unreachable. */
  method SelectAddress<A>(listens: seq<A>, reachable: A -> bool) returns (r: seq<A>)
    ensures r == Selected(listens, reachable)
  {
    r := listens;
    var checkSize := |listens|;
    ghost var first := FirstReachable(listens, reachable);
    for i := 0 to checkSize
      invariant r == Rotate(listens, if i < first then i else first)
    {
      if !reachable(r[0]) {
        RotateNext(listens, i);
        r := NextListenAddress(r);
      }
    }
  }

  // ---------------------------------------------------------------- fairness

  /** The reachable addresses in list order. */
  function Reachables<A>(l: seq<A>, reachable: A -> bool): seq<A> {
    if l == [] then []
    else if reachable(l[0]) then [l[0]] + Reachables(l[1..], reachable)
    else Reachables(l[1..], reachable)
  }

  lemma {:induction false} ReachablesConcat<A>(a: seq<A>, b: seq<A>, reachable: A -> bool)
    ensures Reachables(a + b, reachable) == Reachables(a, reachable) + Reachables(b, reachable)
  {
    if a == [] {
      assert a + b == b;
    } else {
      assert (a + b)[1..] == a[1..] + b;
      ReachablesConcat(a[1..], b, reachable);
    }
  }

  lemma {:induction false} NoReachables<A>(l: seq<A>, reachable: A -> bool)
    ensures Reachables(l, reachable) == [] <==> forall a :: a in l ==> !reachable(a)
  {
    if l != [] {
      NoReachables(l[1..], reachable);
    }
  }

  /** The list one dial leaves behind. */
  function AfterDial<A>(l: seq<A>, reachable: A -> bool): seq<A> {
    Next(Selected(l, reachable))
  }

  /** The first reachable address and what is around it. */
  lemma AroundFirst<A>(l: seq<A>, reachable: A -> bool)
    requires Reachables(l, reachable) != []
    ensures var k := FirstReachable(l, reachable);
            && k < |l| && Reachables(l[..k], reachable) == [] && Reachables([l[k]], reachable) == [l[k]]
  {
    NoReachables(l, reachable);
    NoReachables(l[..FirstReachable(l, reachable)], reachable);
  }

  lemma RotatedPieces<A>(l: seq<A>, k: nat)
    requires k < |l|
    ensures l == l[..k] + [l[k]] + l[k + 1..]
    ensures Rotate(l, k) == [l[k]] + l[k + 1..] + l[..k] && Next(Rotate(l, k)) == l[k + 1..] + l[..k] + [l[k]]
  {
    RotateNext(l, k);
    assert l[..k + 1] == l[..k] + [l[k]];
  }

  /** One dial uses the first reachable address and turns the reachable ones by one. */
  lemma DialTurnsReachables<A>(l: seq<A>, reachable: A -> bool)
    requires Reachables(l, reachable) != []
    ensures var rs := Reachables(l, reachable);
            && Selected(l, reachable) != [] && Selected(l, reachable)[0] == rs[0]
            && Reachables(AfterDial(l, reachable), reachable) == rs[1..] + [rs[0]]
  {
    AroundFirst(l, reachable);
    var k := FirstReachable(l, reachable);
    assert Selected(l, reachable) == Rotate(l, k) && AfterDial(l, reachable) == Next(Rotate(l, k));
    hide *;
    RotatedPieces(l, k);
    var front, address, back := l[..k], [l[k]], l[k + 1..];
    ReachablesConcat(front + address, back, reachable);
    ReachablesConcat(front, address, reachable);
    assert Reachables(l, reachable) == address + Reachables(back, reachable);
    ReachablesConcat(back + front, address, reachable);
    ReachablesConcat(back, front, reachable);
  }

  /** The addresses used by `n` consecutive dials with unchanged list and reachability. */
  function Dialled<A>(l: seq<A>, reachable: A -> bool, n: nat): (used: seq<A>)
    requires l != []
    ensures |used| == n
    decreases n
  {
    if n == 0 then []
    else
      var s := Selected(l, reachable);
      assert |s| == |l|;
      [s[0]] + Dialled(Next(s), reachable, n - 1)
  }

  /** The place reached after `i` moves round a circle of `m` places. */
  function Slot(i: nat, m: nat): (k: nat)
    requires m > 0
    ensures k < m && (i < m ==> k == i)
  {
    if i < m then i else Slot(i - m, m)
  }

  lemma {:induction false} SlotStep(i: nat, m: nat)
    requires m > 0
    ensures Slot(i + 1, m) == if Slot(i, m) + 1 == m then 0 else Slot(i, m) + 1
    decreases i
  {
    if i >= m {
      SlotStep(i - m, m);
    }
  }

  lemma DialledFrom<A>(l: seq<A>, reachable: A -> bool, n: nat)
    requires 0 < n && l != []
    ensures Selected(l, reachable) != []
    ensures Dialled(l, reachable, n) == [Selected(l, reachable)[0]] + Dialled(AfterDial(l, reachable), reachable, n - 1)
  {}

  lemma TurnedAt<A>(rs: seq<A>, i: nat)
    requires rs != []
    ensures (rs[1..] + [rs[0]])[Slot(i, |rs|)] == rs[Slot(i + 1, |rs|)]
  {
    SlotStep(i, |rs|);
  }

  /** Consecutive dials go through the reachable addresses in list order, round and round. */
  lemma {:induction false} DialsCycle<A>(l: seq<A>, reachable: A -> bool, n: nat, i: nat)
    requires i < n && Reachables(l, reachable) != []
    ensures l != []
    ensures Dialled(l, reachable, n)[i] == Reachables(l, reachable)[Slot(i, |Reachables(l, reachable)|)]
    decreases i
  {
    hide *;
    var rs, next := Reachables(l, reachable), AfterDial(l, reachable);
    DialTurnsReachables(l, reachable);
    DialledFrom(l, reachable, n);
    if i == 0 {
      assert Slot(0, |rs|) == 0;
    } else {
      var turned := Reachables(next, reachable);
      DialsCycle(next, reachable, n - 1, i - 1);
      TurnedAt(rs, i - 1);
      calc {
        Dialled(l, reachable, n)[i];
        Dialled(next, reachable, n - 1)[i - 1];
        turned[Slot(i - 1, |turned|)];
        (rs[1..] + [rs[0]])[Slot(i - 1, |rs|)];
        rs[Slot(i, |rs|)];
      }
    }
  }

  lemma SlotZero(m: nat)
    requires m > 0
    ensures Slot(0, m) == 0
  {}

  lemma UnreachableDial<A>(l: seq<A>, reachable: A -> bool)
    requires l != [] && Reachables(l, reachable) == []
    ensures Selected(l, reachable) == l && AfterDial(l, reachable) == Rotate(l, 1) == l[1..] + [l[0]]
    ensures Reachables(Rotate(l, 1), reachable) == []
  {
    NoReachables(l, reachable);
    ReachablesConcat([l[0]], l[1..], reachable);
    ReachablesConcat(l[1..], [l[0]], reachable);
    assert l == [l[0]] + l[1..];
  }

  /** With nothing reachable the dials go through the whole list instead. */
  lemma {:induction false} DialsCycleUnreachable<A>(l: seq<A>, reachable: A -> bool, n: nat, i: nat)
    requires i < n && l != [] && Reachables(l, reachable) == []
    ensures Dialled(l, reachable, n)[i] == l[Slot(i, |l|)]
    decreases i
  {
    hide *;
    UnreachableDial(l, reachable);
    DialledFrom(l, reachable, n);
    if i > 0 {
      DialsCycleUnreachable(Rotate(l, 1), reachable, n - 1, i - 1);
      TurnedAt(l, i - 1);
    } else {
      SlotZero(|l|);
    }
  }
}
