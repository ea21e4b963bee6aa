/** A way to write frames that the watch client can cut out and parse: the assumption the watch protocol makes about
    server and parser can be met. Texts are a code of two digits between one pair of brackets. */
module FrameCodec {
  import opened Common
  import opened Framing
  import opened Watcher
  import opened WatchProtocol

  const ZERO: byte := 0x30

  const ONE: byte := 0x31

  predicate IsDigits(s: seq<byte>) {
    forall i :: 0 <= i < |s| ==> s[i] == ZERO || s[i] == ONE
  }

  function OfNat(n: nat): (s: seq<byte>)
    ensures IsDigits(s)
  {
    if n == 0 then [ZERO] else [ONE] + OfNat(n - 1)
  }

  function OfInt(i: int): (s: seq<byte>)
    ensures IsDigits(s)
  {
    if i < 0 then [ZERO] + OfNat(-i) else [ONE] + OfNat(i)
  }

  function OfString(s: string): (r: seq<byte>)
    ensures IsDigits(r)
  {
    if s == "" then [ZERO] else [ONE] + OfNat(s[0] as int) + OfString(s[1..])
  }

  function OfKeyValue(kv: KeyValue): (r: seq<byte>)
    ensures IsDigits(r)
  {
    OfString(kv.key) + OfString(kv.value)
  }

  function OfEvent(e: Event): (r: seq<byte>)
    ensures IsDigits(r)
  {
    [if e.kind == Put then ONE else ZERO] + OfKeyValue(e.kv) + OfKeyValue(e.prevKv)
  }

  function OfEvents(es: seq<Event>): (r: seq<byte>)
    ensures IsDigits(r)
  {
    if es == [] then [ZERO] else [ONE] + OfEvent(es[0]) + OfEvents(es[1..])
  }

  function Body(f: Frame): (r: seq<byte>)
    ensures IsDigits(r)
  {
    OfInt(f.revision) + OfEvents(f.events)
  }

  function Encode(f: Frame): seq<byte> { [0x7B] + Body(f) + [0x7D] }

  ghost function Decode(text: seq<byte>): Option<Frame> {
    if exists f :: Encode(f) == text then
      var f :| Encode(f) == text;
      Some(f)
    else None
  }

  // ---------------------------------------------------------------- no code is the beginning of another

  lemma Cons(b: byte, s: seq<byte>, c: byte, t: seq<byte>, x: seq<byte>, y: seq<byte>)
    requires [b] + s + x == [c] + t + y
    ensures b == c && s + x == t + y
  {
    assert ([b] + s + x)[0] == b && ([c] + t + y)[0] == c;
    assert ([b] + s + x)[1..] == s + x && ([c] + t + y)[1..] == t + y;
  }

  lemma {:induction false} NatIsPrefixFree(a: nat, b: nat, x: seq<byte>, y: seq<byte>)
    requires OfNat(a) + x == OfNat(b) + y
    ensures a == b && x == y
  {
    var s, t := if a == 0 then [] else OfNat(a - 1), if b == 0 then [] else OfNat(b - 1);
    var d, e := if a == 0 then ZERO else ONE, if b == 0 then ZERO else ONE;
    assert [d] + s + x == OfNat(a) + x && [e] + t + y == OfNat(b) + y;
    Cons(d, s, e, t, x, y);
    if a == 0 {
      assert [] + x == x && [] + y == y;
    } else {
      NatIsPrefixFree(a - 1, b - 1, x, y);
    }
  }

  lemma IntIsPrefixFree(a: int, b: int, x: seq<byte>, y: seq<byte>)
    requires OfInt(a) + x == OfInt(b) + y
    ensures a == b && x == y
  {
    var s, t := OfNat(if a < 0 then -a else a), OfNat(if b < 0 then -b else b);
    Cons(OfInt(a)[0], s, OfInt(b)[0], t, x, y);
    NatIsPrefixFree(if a < 0 then -a else a, if b < 0 then -b else b, x, y);
  }

  lemma {:induction false} StringIsPrefixFree(a: string, b: string, x: seq<byte>, y: seq<byte>)
    requires OfString(a) + x == OfString(b) + y
    ensures a == b && x == y
    decreases |a|
  {
    assert (OfString(a) + x)[0] == OfString(a)[0] && (OfString(b) + y)[0] == OfString(b)[0];
    if a == "" {
      assert (OfString(a) + x)[1..] == x && (OfString(b) + y)[1..] == y;
    } else {
      var s, t := OfNat(a[0] as int), OfNat(b[0] as int);
      var u, v := OfString(a[1..]) + x, OfString(b[1..]) + y;
      assert OfString(a) + x == [ONE] + s + u && OfString(b) + y == [ONE] + t + v;
      Cons(ONE, s, ONE, t, u, v);
      NatIsPrefixFree(a[0] as int, b[0] as int, u, v);
      StringIsPrefixFree(a[1..], b[1..], x, y);
      assert a == [a[0]] + a[1..] && b == [b[0]] + b[1..];
    }
  }

  lemma KeyValueIsPrefixFree(a: KeyValue, b: KeyValue, x: seq<byte>, y: seq<byte>)
    requires OfKeyValue(a) + x == OfKeyValue(b) + y
    ensures a == b && x == y
  {
    var u, v := OfString(a.value) + x, OfString(b.value) + y;
    assert OfString(a.key) + u == OfKeyValue(a) + x && OfString(b.key) + v == OfKeyValue(b) + y;
    StringIsPrefixFree(a.key, b.key, u, v);
    StringIsPrefixFree(a.value, b.value, x, y);
  }

  lemma EventIsPrefixFree(a: Event, b: Event, x: seq<byte>, y: seq<byte>)
    requires OfEvent(a) + x == OfEvent(b) + y
    ensures a == b && x == y
  {
    var d, e := if a.kind == Put then ONE else ZERO, if b.kind == Put then ONE else ZERO;
    var u, v := OfKeyValue(a.prevKv) + x, OfKeyValue(b.prevKv) + y;
    assert [d] + OfKeyValue(a.kv) + u == OfEvent(a) + x && [e] + OfKeyValue(b.kv) + v == OfEvent(b) + y;
    Cons(d, OfKeyValue(a.kv), e, OfKeyValue(b.kv), u, v);
    KeyValueIsPrefixFree(a.kv, b.kv, u, v);
    KeyValueIsPrefixFree(a.prevKv, b.prevKv, x, y);
  }

  lemma {:induction false} EventsArePrefixFree(a: seq<Event>, b: seq<Event>, x: seq<byte>, y: seq<byte>)
    requires OfEvents(a) + x == OfEvents(b) + y
    ensures a == b && x == y
    decreases |a|
  {
    hide OfEvent;
    assert (OfEvents(a) + x)[0] == OfEvents(a)[0] && (OfEvents(b) + y)[0] == OfEvents(b)[0];
    if a == [] {
      assert (OfEvents(a) + x)[1..] == x && (OfEvents(b) + y)[1..] == y;
    } else {
      var u, v := OfEvents(a[1..]) + x, OfEvents(b[1..]) + y;
      assert OfEvents(a) + x == [ONE] + OfEvent(a[0]) + u && OfEvents(b) + y == [ONE] + OfEvent(b[0]) + v;
      Cons(ONE, OfEvent(a[0]), ONE, OfEvent(b[0]), u, v);
      EventIsPrefixFree(a[0], b[0], u, v);
      EventsArePrefixFree(a[1..], b[1..], x, y);
      assert a == [a[0]] + a[1..] && b == [b[0]] + b[1..];
    }
  }

  lemma EncodeIsInjective(a: Frame, b: Frame)
    requires Encode(a) == Encode(b)
    ensures a == b
  {
    Cons(0x7B, Body(a), 0x7B, Body(b), [0x7D], [0x7D]);
    var u, v := OfEvents(a.events) + [0x7D], OfEvents(b.events) + [0x7D];
    assert OfInt(a.revision) + u == Body(a) + [0x7D] && OfInt(b.revision) + v == Body(b) + [0x7D];
    IntIsPrefixFree(a.revision, b.revision, u, v);
    EventsArePrefixFree(a.events, b.events, [0x7D], [0x7D]);
  }

  // ---------------------------------------------------------------- one pair of brackets

  lemma {:induction false} DigitsKeepDepth(s: seq<byte>)
    requires IsDigits(s)
    ensures Depth([0x7B] + s) == 1
  {
    var t := [0x7B] + s;
    if s == [] {
      assert Depth(t[..0]) == 0;
    } else {
      assert t[..|t| - 1] == [0x7B] + s[..|s| - 1];
      DigitsKeepDepth(s[..|s| - 1]);
    }
  }

  lemma EncodeIsFrame(f: Frame)
    ensures IsFrame(Encode(f))
  {
    var s, t := Body(f), [0x7B] + Body(f);
    assert Encode(f)[..|Encode(f)| - 1] == t;
    forall k | 0 < k <= |t| ensures Depth(t[..k]) > 0 {
      assert t[..k] == [0x7B] + s[..k - 1];
      DigitsKeepDepth(s[..k - 1]);
    }
    DigitsKeepDepth(s);
  }

  /** There is a sound codec. */
  lemma SoundCodecExists()
    ensures Codec(Encode, text => Decode(text)).Sound()
  {
    var codec := Codec(Encode, text => Decode(text));
    forall f ensures IsFrame(codec.encode(f)) && codec.decode(codec.encode(f)) == Some(f) {
      EncodeIsFrame(f);
      forall g | Encode(g) == Encode(f) ensures g == f {
        EncodeIsInjective(g, f);
      }
    }
  }
}
