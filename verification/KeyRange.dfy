/** `etcd_packer::pack_key_range`: turning the range end "+1" into the end of the range of keys with a prefix. */
module KeyRange {
  import opened Common

  const PLUS_ONE: Key := [0x2B, 0x31]

  /** The "key" and "range_end" members written to the request; an empty string is left out. */
  datatype Range = Range(key: Option<Key>, rangeEnd: Option<Key>)

  ghost predicate Less(a: Key, b: Key) {
    b != [] && (a == [] || a[0] < b[0] || (a[0] == b[0] && Less(a[1..], b[1..])))
  }

  /** The keys a range request selects: one key without a range end, [key, range end) with one. A request without
      a key selects nothing. */
  ghost predicate Selects(r: Range, k: Key) {
    match r
    case Range(None, _) => false
    case Range(Some(key), None) => k == key
    case Range(Some(key), Some(end)) => !Less(k, key) && Less(k, end)
  }

  predicate HasRoom(key: Key) {
    exists i :: 0 <= i < |key| && key[i] < 0xff
  }

  lemma HasRoomParts(key: Key, n: nat)
    requires n <= |key|
    ensures HasRoom(key) <==> HasRoom(key[..n]) || HasRoom(key[n..])
  {
    if i :| 0 <= i < |key| && key[i] < 0xff {
      assert if i < n then key[..n][i] < 0xff else key[n..][i - n] < 0xff;
    }
    if i :| 0 <= i < |key[..n]| && key[..n][i] < 0xff {
      assert key[i] < 0xff;
    }
    if i :| 0 <= i < |key[n..]| && key[n..][i] < 0xff {
      assert key[n + i] < 0xff;
    }
  }

  /** Trailing 0xff bytes dropped, then the last byte incremented. */
  function Successor(key: Key): (end: Key)
    requires HasRoom(key)
    ensures end != []
    decreases |key|
  {
    var n := |key| - 1;
    if key[n] == 0xff then
      HasRoomParts(key, n);
      Successor(key[..n])
    else key[..n] + [key[n] + 1]
  }

  /** The request `PackKeyRange` builds for "+1". */
  function PrefixRange(key: Key): Range {
    if HasRoom(key) then Range(Some(key), Some(Successor(key)))
    else Range(if key == [] then None else Some(key), None)
  }

  method PackKeyRange(key: Key, rangeEnd: Key) returns (r: Range)
    ensures rangeEnd != PLUS_ONE ==>
              r == Range(if key == [] then None else Some(key), if rangeEnd == [] then None else Some(rangeEnd))
    ensures rangeEnd == PLUS_ONE ==> r == PrefixRange(key)
  {
    var end := rangeEnd;
    if end == PLUS_ONE {
      end := key;
      var needPlus := true;
      while end != [] && needPlus
        invariant needPlus ==> end <= key && (HasRoom(end) <==> HasRoom(key))
        invariant needPlus && HasRoom(key) ==> Successor(end) == Successor(key)
        invariant !needPlus ==> HasRoom(key) && end == Successor(key)
        decreases needPlus, |end|
      {
        var n := |end| - 1;
        if end[n] == 0xff {
          HasRoomParts(end, n);
          end := end[..n];
        } else {
          assert HasRoom(end);
          end := end[..n] + [end[n] + 1];
          needPlus := false;
        }
      }
      // The literal "\0" assigned here for a key of 0xff bytes only is the empty string.
      if end == [] && needPlus && key != [] {
        end := [];
      }
    }
    r := Range(if key == [] then None else Some(key), if end == [] then None else Some(end));
  }

  lemma {:induction false} SuccessorFromFront(key: Key)
    requires HasRoom(key)
    ensures HasRoom(key[1..]) ==> Successor(key) == [key[0]] + Successor(key[1..])
    ensures !HasRoom(key[1..]) ==> key[0] < 0xff && Successor(key) == [key[0] + 1]
    decreases |key|
  {
    var n := |key| - 1;
    if key[n] == 0xff {
      var init := key[..n];
      HasRoomParts(key, n);
      SuccessorFromFront(init);
      HasRoomParts(key[1..], n - 1);
      assert init[1..] == key[1..][..n - 1];
    } else if n > 0 {
      LastHasRoom(key[1..]);
      assert [key[0]] + key[1..][..n - 1] == key[..n];
    }
  }

  lemma LastHasRoom(key: Key)
    requires key != [] && key[|key| - 1] < 0xff
    ensures HasRoom(key) && Successor(key) == key[..|key| - 1] + [key[|key| - 1] + 1]
  {}

  /** [key, Successor(key)) holds exactly the keys that start with `key`. */
  lemma {:induction false} SuccessorBoundsPrefix(key: Key, k: Key)
    requires HasRoom(key)
    ensures !Less(k, key) && Less(k, Successor(key)) <==> key <= k
    decreases |key|
  {
    SuccessorFromFront(key);
    if k != [] {
      assert Successor(key)[1..] == if HasRoom(key[1..]) then Successor(key[1..]) else [];
      assert key <= k <==> key[0] == k[0] && key[1..] <= k[1..] by {
        if key[0] == k[0] && key[1..] <= k[1..] {
          assert key == [key[0]] + key[1..] && k == [k[0]] + k[1..];
        }
      }
      if HasRoom(key[1..]) {
        SuccessorBoundsPrefix(key[1..], k[1..]);
      } else {
        FullIsGreatest(key[1..], k[1..]);
      }
    }
  }

  /** Among the keys not below a run of 0xff bytes there are only its extensions. */
  lemma {:induction false} FullIsGreatest(full: Key, k: Key)
    requires !HasRoom(full)
    ensures !Less(k, full) <==> full <= k
    decreases |full|
  {
    if full != [] && k != [] {
      assert full[0] == 0xff;
      HasRoomParts(full, 1);
      FullIsGreatest(full[1..], k[1..]);
      assert full == [full[0]] + full[1..] && k == [k[0]] + k[1..];
    }
  }

  /** A "+1" request selects exactly the keys with the given prefix if and only if the key has a byte below 0xff: the
      empty key selects nothing, a key of 0xff bytes only selects itself alone. */
  lemma PrefixRangeIsExactIff(key: Key)
    ensures (forall k :: Selects(PrefixRange(key), k) <==> key <= k) <==> HasRoom(key)
  {
    if HasRoom(key) {
      forall k ensures Selects(PrefixRange(key), k) <==> key <= k {
        SuccessorBoundsPrefix(key, k);
      }
    } else {
      var longer := key + [0];
      assert key <= longer && !Selects(PrefixRange(key), longer);
    }
  }
}
