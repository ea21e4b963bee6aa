/** The watch client against an etcd server, over a connection that may break anywhere. The server is an
    append-only log; its answers may come in any chunks, be cut in mid-frame, fail or time out, and requests may fail
    to be made. Whatever happens, the event handler sees a snapshot and then every later event exactly once. */
module WatchProtocol {
  import opened Common
  import opened Framing
  import opened Watcher

  /** How the server writes a frame and how the client parses it; JSON itself is not modelled. */
  datatype Codec = Codec(encode: Frame -> seq<byte>, decode: Decoder)
  {
    ghost predicate Sound() {
      forall f :: IsFrame(encode(f)) && decode(encode(f)) == Some(f)
    }
  }

  /** `log[i]` holds the events of revision `i + 1` on the watched range. */
  type Log = seq<seq<Event>>

  /** Events with a revision in (lo, hi]. */
  function EventsIn(log: Log, lo: nat, hi: nat): seq<Event>
    requires lo <= hi <= |log|
  {
    Flatten(log[lo..hi])
  }

  function LiveAfter(events: seq<Event>): map<string, string> {
    if events == [] then map[]
    else
      var live, e := LiveAfter(events[..|events| - 1]), events[|events| - 1];
      match e.kind
      case Put => live[e.kv.key := e.kv.value]
      case Delete => live - {e.kv.key}
  }

  /** Contents of the watched range at revision `r`. */
  function LiveAt(log: Log, r: nat): map<string, string>
    requires r <= |log|
  {
    LiveAfter(EventsIn(log, 0, r))
  }

  /** `kvs` lists the map, each key once, in any order. */
  ghost predicate Lists(kvs: seq<KeyValue>, live: map<string, string>) {
    && (forall i :: 0 <= i < |kvs| ==> kvs[i].key in live && live[kvs[i].key] == kvs[i].value)
    && (forall i, j :: 0 <= i < j < |kvs| ==> kvs[i].key != kvs[j].key)
    && (forall k :: k in live ==> exists i :: 0 <= i < |kvs| && kvs[i].key == k)
  }

  datatype System = System(
    log: Log,
    now: int,
    client: Client,
    wire: seq<byte>,        // sent by the server on the current watch, not received yet
    serverRevision: int,    // revision up to which the current watch has been served
    pending: seq<Frame>,    // frames whose last byte is still on the wire
    epoch: nat)             // deliveries made before the last `close`

  datatype Step =
    | Commit(events: seq<Event>)
    | Elapse(to: int)
    | Activate(launch: Launch)
    | AnswerRange(revision: nat, kvs: seq<KeyValue>, launch: Launch)
    | SpoilRange(reply: RangeReply, launch: Launch)
    | Send(revision: nat, separator: seq<byte>)
    | Arrive(count: nat)
    | EndWatch(end: WatchEnd, launch: Launch)
    | Close

  function Initial(log: Log, retryInterval: int, now: int): System {
    System(log, now, Client(retryInterval, NoRequest, false, 0, 0, [], 0, []), [], 0, [], 0)
  }

  /** A client operation that launches a watch opens a fresh connection. */
  function Connect(s: System, c: Client): System {
    if c.request.WatchRequest? && !s.client.request.WatchRequest? then
      s.(client := c, wire := [], pending := [], serverRevision := c.request.startRevision - 1)
    else
      s.(client := c)
  }

  /** One step; a step that is not possible leaves the system alone. `Send` is the server's side of the contract:
      a frame with header revision r carries exactly the events after the previous frame up to r. */
  ghost function Apply(codec: Codec, s: System, step: Step): System {
    match step
    case Commit(events) => s.(log := s.log + [events])
    case Elapse(to) => if s.now <= to then s.(now := to) else s
    case Activate(launch) => Connect(s, Process(s.client, s.now, launch))
    case AnswerRange(r, kvs, launch) =>
      if s.client.request.RangeRequest? && 1 <= r <= |s.log| && Lists(kvs, LiveAt(s.log, r)) then
        Connect(s, RangeCompleted(s.client, s.now, RangeOk(r, kvs), launch))
      else s
    case SpoilRange(reply, launch) =>
      if s.client.request.RangeRequest? && (reply.RangeOk? ==> reply.revision == 0) then
        Connect(s, RangeCompleted(s.client, s.now, reply, launch))
      else s
    case Send(r, separator) =>
      if s.client.request.WatchRequest? && 0 <= s.serverRevision <= r <= |s.log| && 1 <= r && IsSeparator(separator)
      then
        var frame := Frame(r, EventsIn(s.log, s.serverRevision, r));
        s.(wire := s.wire + separator + codec.encode(frame), serverRevision := r, pending := s.pending + [frame])
      else s
    case Arrive(count) =>
      if s.client.request.WatchRequest? && count <= |s.wire| then
        var completed := |Feed(s.client.Framer(), s.wire[..count]).frames|;
        s.(client := Receive(codec.decode, s.client, s.wire[..count]),
           wire := s.wire[count..],
           pending := if completed <= |s.pending| then s.pending[completed..] else [])
      else s
    case EndWatch(end, launch) =>
      if s.client.request.WatchRequest? then Connect(s, WatchCompleted(s.client, s.now, end, launch)) else s
    case Close => s.(client := Closed(s.client), epoch := |s.client.delivered|)
  }

  ghost function Run(codec: Codec, s: System, steps: seq<Step>): System
    decreases |steps|
  {
    if steps == [] then s else Run(codec, Apply(codec, s, steps[0]), steps[1..])
  }

  // ---------------------------------------------------------------- what the handler must see

  function EventsOf(deliveries: seq<Delivery>): seq<Event> {
    if deliveries == [] then [] else deliveries[0].events + EventsOf(deliveries[1..])
  }

  ghost predicate IsSnapshot(log: Log, d: Delivery) {
    && 1 <= d.revision <= |log|
    && exists kvs :: d.events == AsPuts(kvs) && Lists(kvs, LiveAt(log, d.revision))
  }

  /** A snapshot of the range at some revision R, then the events of (R, last], in order, no gap and no repeat. */
  ghost predicate ExactlyOnce(log: Log, deliveries: seq<Delivery>, last: int) {
    && deliveries != []
    && IsSnapshot(log, deliveries[0])
    && deliveries[0].revision <= last <= |log|
    && EventsOf(deliveries[1..]) == EventsIn(log, deliveries[0].revision, last)
  }

  /** Frames that continue each other from revision `from` to revision `to`. */
  ghost predicate Chain(log: Log, from: int, frames: seq<Frame>, to: int)
    decreases |frames|
  {
    0 <= from <= |log| &&
    if frames == [] then from == to
    else
      && from <= frames[0].revision <= |log|
      && 1 <= frames[0].revision
      && frames[0].events == EventsIn(log, from, frames[0].revision)
      && Chain(log, frames[0].revision, frames[1..], to)
  }

  function Encodings(codec: Codec, frames: seq<Frame>): (texts: seq<seq<byte>>)
    ensures |texts| == |frames|
    ensures forall i :: 0 <= i < |frames| ==> texts[i] == codec.encode(frames[i])
  {
    seq(|frames|, i requires 0 <= i < |frames| => codec.encode(frames[i]))
  }

  ghost predicate Inv(codec: Codec, s: System) {
    var c := s.client;
    && 0 <= c.lastRevision <= |s.log|
    && s.epoch <= |c.delivered|
    && (c.lastRevision == 0 ==> c.delivered[s.epoch..] == [] && !c.retryMode)
    && (c.lastRevision != 0 ==> ExactlyOnce(s.log, c.delivered[s.epoch..], c.lastRevision))
    && (c.request.RangeRequest? ==> c.request.probe == c.retryMode)
    && (c.request == RangeRequest(false) ==> c.lastRevision == 0)
    && (c.request.WatchRequest? ==>
          && c.lastRevision != 0
          && !c.retryMode
          && Feed(c.Framer(), s.wire) == Output(IDLE, Encodings(codec, s.pending))
          && Chain(s.log, c.lastRevision, s.pending, s.serverRevision))
  }

  // ---------------------------------------------------------------- lemmas on logs, deliveries and chains

  lemma {:induction false} FlattenConcat<T>(a: seq<seq<T>>, b: seq<seq<T>>)
    ensures Flatten(a + b) == Flatten(a) + Flatten(b)
  {
    if a == [] {
      assert a + b == b;
    } else {
      assert (a + b)[1..] == a[1..] + b;
      FlattenConcat(a[1..], b);
    }
  }

  lemma EventsInSplit(log: Log, lo: nat, mid: nat, hi: nat)
    requires lo <= mid <= hi <= |log|
    ensures EventsIn(log, lo, hi) == EventsIn(log, lo, mid) + EventsIn(log, mid, hi)
  {
    assert log[lo..hi] == log[lo..mid] + log[mid..hi];
    FlattenConcat(log[lo..mid], log[mid..hi]);
  }

  lemma EventsInAppend(log: Log, more: seq<Event>, lo: nat, hi: nat)
    requires lo <= hi <= |log|
    ensures EventsIn(log + [more], lo, hi) == EventsIn(log, lo, hi)
  {
    assert (log + [more])[lo..hi] == log[lo..hi];
  }

  lemma {:induction false} EventsOfConcat(a: seq<Delivery>, b: seq<Delivery>)
    ensures EventsOf(a + b) == EventsOf(a) + EventsOf(b)
  {
    if a == [] {
      assert a + b == b;
    } else {
      assert (a + b)[1..] == a[1..] + b;
      EventsOfConcat(a[1..], b);
    }
  }

  lemma ExactlyOnceAppend(log: Log, more: seq<Event>, deliveries: seq<Delivery>, last: int)
    requires ExactlyOnce(log, deliveries, last)
    ensures ExactlyOnce(log + [more], deliveries, last)
  {
    EventsInAppend(log, more, 0, deliveries[0].revision);
    EventsInAppend(log, more, deliveries[0].revision, last);
  }

  lemma {:induction false} ChainAppend(log: Log, more: seq<Event>, from: int, frames: seq<Frame>, to: int)
    requires Chain(log, from, frames, to)
    ensures Chain(log + [more], from, frames, to)
    decreases |frames|
  {
    if frames != [] {
      EventsInAppend(log, more, from, frames[0].revision);
      ChainAppend(log, more, frames[0].revision, frames[1..], to);
    }
  }

  lemma {:induction false} ChainExtend(log: Log, from: int, frames: seq<Frame>, to: int, next: Frame)
    requires Chain(log, from, frames, to)
    requires 0 <= to <= next.revision <= |log| && 1 <= next.revision && next.events == EventsIn(log, to, next.revision)
    ensures Chain(log, from, frames + [next], next.revision)
    decreases |frames|
  {
    if frames == [] {
      assert (frames + [next])[1..] == [];
    } else {
      assert (frames + [next])[1..] == frames[1..] + [next];
      ChainExtend(log, frames[0].revision, frames[1..], to, next);
    }
  }

  /** Handing over one frame keeps delivery exact if and only if the frame carries the events since the last one. In
      particular a frame whose header runs ahead of its events makes the next watch skip them. */
  lemma FrameKeepsDeliveryExactIff(log: Log, deliveries: seq<Delivery>, last: int, frame: Frame)
    requires ExactlyOnce(log, deliveries, last) && last <= frame.revision <= |log|
    ensures ExactlyOnce(log, deliveries + [Delivery(frame.revision, frame.events)], frame.revision)
            <==> frame.events == EventsIn(log, last, frame.revision)
  {
    var d := Delivery(frame.revision, frame.events);
    var more := deliveries + [d];
    assert more[1..] == deliveries[1..] + [d];
    EventsOfConcat(deliveries[1..], [d]);
    EventsInSplit(log, deliveries[0].revision, last, frame.revision);
    var seen, tail := EventsOf(deliveries[1..]), EventsIn(log, last, frame.revision);
    assert EventsOf(more[1..]) == seen + d.events by {
      assert [d][1..] == [] && EventsOf([d]) == d.events + [];
    }
    assert (seen + d.events)[|seen|..] == d.events && (seen + tail)[|seen|..] == tail;
  }

  ghost predicate Reached(log: Log, epoch: nat, c: Client) {
    && c.lastRevision != 0 && epoch <= |c.delivered|
    && ExactlyOnce(log, c.delivered[epoch..], c.lastRevision)
  }

  lemma HandleOneKeepsReached(codec: Codec, log: Log, c: Client, epoch: nat, frame: Frame)
    requires codec.Sound() && Reached(log, epoch, c)
    requires c.lastRevision <= frame.revision <= |log| && frame.events == EventsIn(log, c.lastRevision, frame.revision)
    ensures var c' := HandleFrame(codec.decode, c, codec.encode(frame));
            && Reached(log, epoch, c')
            && c' == c.(lastRevision := frame.revision, delivered := c'.delivered)
  {
    var d := Delivery(frame.revision, frame.events);
    assert codec.decode(codec.encode(frame)) == Some(frame);
    assert (c.delivered + [d])[epoch..] == c.delivered[epoch..] + [d];
    FrameKeepsDeliveryExactIff(log, c.delivered[epoch..], c.lastRevision, frame);
  }

  /** Handling the first `m` frames of a chain advances the client along it. */
  lemma {:induction false} HandleChain(
      codec: Codec, log: Log, c: Client, epoch: nat, frames: seq<Frame>, to: int, m: nat)
    requires codec.Sound() && m <= |frames| && Reached(log, epoch, c)
    requires Chain(log, c.lastRevision, frames, to)
    ensures var c' := HandleFrames(codec.decode, c, Encodings(codec, frames[..m]));
            && Reached(log, epoch, c')
            && Chain(log, c'.lastRevision, frames[m..], to)
            && c' == c.(lastRevision := c'.lastRevision, delivered := c'.delivered)
    decreases m
  {
    if m == 0 {
      assert frames[m..] == frames;
    } else {
      var next := HandleFrame(codec.decode, c, codec.encode(frames[0]));
      HandleOneKeepsReached(codec, log, c, epoch, frames[0]);
      hide *;
      HandleChain(codec, log, next, epoch, frames[1..], to, m - 1);
      EncodingsFirst(codec, c, frames, m);
      assert frames[1..][m - 1..] == frames[m..];
    }
  }

  lemma EncodingsFirst(codec: Codec, c: Client, frames: seq<Frame>, m: nat)
    requires 0 < m <= |frames|
    ensures HandleFrames(codec.decode, c, Encodings(codec, frames[..m]))
            == HandleFrames(codec.decode, HandleFrame(codec.decode, c, codec.encode(frames[0])),
                            Encodings(codec, frames[1..][..m - 1]))
  {
    assert frames[1..][..m - 1] == frames[..m][1..];
    assert Encodings(codec, frames[..m])[1..] == Encodings(codec, frames[1..][..m - 1]);
  }

  // ---------------------------------------------------------------- every step keeps the invariant

  lemma CommitKeepsInv(codec: Codec, s: System, events: seq<Event>)
    requires Inv(codec, s)
    ensures Inv(codec, Apply(codec, s, Commit(events)))
  {
    var c := s.client;
    if c.lastRevision != 0 {
      ExactlyOnceAppend(s.log, events, c.delivered[s.epoch..], c.lastRevision);
    }
    if c.request.WatchRequest? {
      ChainAppend(s.log, events, c.lastRevision, s.pending, s.serverRevision);
    }
  }

  lemma SnapshotIsExact(log: Log, r: nat, kvs: seq<KeyValue>)
    requires 1 <= r <= |log| && Lists(kvs, LiveAt(log, r))
    ensures ExactlyOnce(log, [Delivery(r, AsPuts(kvs))], r)
  {
    var d := [Delivery(r, AsPuts(kvs))];
    assert d[1..] == [];
    assert log[r..r] == [];
  }

  lemma AnswerKeepsInv(codec: Codec, s: System, r: nat, kvs: seq<KeyValue>, launch: Launch)
    requires Inv(codec, s)
    ensures Inv(codec, Apply(codec, s, AnswerRange(r, kvs, launch)))
  {
    if s.client.request.RangeRequest? && 1 <= r <= |s.log| && Lists(kvs, LiveAt(s.log, r)) && !s.client.retryMode {
      SnapshotIsExact(s.log, r, kvs);
      var d := Delivery(r, AsPuts(kvs));
      assert (s.client.delivered + [d])[s.epoch..] == [d];
    }
  }

  lemma SendKeepsInv(codec: Codec, s: System, r: nat, separator: seq<byte>)
    requires codec.Sound() && Inv(codec, s)
    ensures Inv(codec, Apply(codec, s, Send(r, separator)))
  {
    var s' := Apply(codec, s, Send(r, separator));
    if s' != s {
      var frame := Frame(r, EventsIn(s.log, s.serverRevision, r));
      var text := codec.encode(frame);
      assert s.wire + separator + text == s.wire + (separator + text);
      FeedConcat(s.client.Framer(), s.wire, separator + text);
      FeedSeparatedFrame(separator, text);
      assert Encodings(codec, s.pending + [frame]) == Encodings(codec, s.pending) + [text];
      ChainExtend(s.log, s.client.lastRevision, s.pending, s.serverRevision, frame);
    }
  }

  lemma ArriveKeepsInv(codec: Codec, s: System, count: nat)
    requires codec.Sound() && Inv(codec, s)
    ensures Inv(codec, Apply(codec, s, Arrive(count)))
  {
    if s.client.request.WatchRequest? && count <= |s.wire| {
      var c, f := s.client, s.client.Framer();
      assert s.wire == s.wire[..count] + s.wire[count..];
      FeedConcat(f, s.wire[..count], s.wire[count..]);
      var o := Feed(f, s.wire[..count]);
      var m := |o.frames|;
      assert o.frames == Encodings(codec, s.pending)[..m] == Encodings(codec, s.pending[..m]);
      assert Feed(o.framer, s.wire[count..]).frames == Encodings(codec, s.pending)[m..];
      assert Encodings(codec, s.pending)[m..] == Encodings(codec, s.pending[m..]);
      ReceiveIsFeedThenHandle(codec.decode, c, s.wire[..count]);
      HandleChain(codec, s.log, c.WithFramer(o.framer), s.epoch, s.pending, s.serverRevision, m);
    }
  }

  /** A completed or absent request, followed by whatever `process` decides to launch. */
  lemma ProcessKeepsInv(codec: Codec, s: System, c: Client, launch: Launch)
    requires Inv(codec, s.(client := c)) && c.request == NoRequest
    ensures Inv(codec, Connect(s.(client := c), Process(c, s.now, launch)))
  {
    var c' := Process(c, s.now, launch);
    if c'.request.WatchRequest? {
      assert Feed(c'.Framer(), []) == Output(IDLE, []);
      assert Encodings(codec, []) == [];
    }
  }

  lemma SpoilKeepsInv(codec: Codec, s: System, reply: RangeReply, launch: Launch)
    requires Inv(codec, s)
    ensures Inv(codec, Apply(codec, s, SpoilRange(reply, launch)))
  {
    if s.client.request.RangeRequest? && (reply.RangeOk? ==> reply.revision == 0) {
      var done := s.client.(request := NoRequest);
      if reply.RangeFailed? {
      } else if done.retryMode {
        ProcessKeepsInv(codec, s, done.(retryMode := false, nextRequestTime := s.now), launch);
      } else {
        ProcessKeepsInv(codec, s, done.(nextRequestTime := s.now + done.retryInterval), launch);
      }
    }
  }

  lemma EndWatchKeepsInv(codec: Codec, s: System, end: WatchEnd, launch: Launch)
    requires Inv(codec, s)
    ensures Inv(codec, Apply(codec, s, EndWatch(end, launch)))
  {
    if s.client.request.WatchRequest? {
      var c' := WatchCompleted(s.client, s.now, end, launch);
      assert c'.retryMode && !c'.request.WatchRequest?;
      assert c'.delivered == s.client.delivered && c'.lastRevision == s.client.lastRevision;
    }
  }

  lemma StepKeepsInv(codec: Codec, s: System, step: Step)
    requires codec.Sound() && Inv(codec, s)
    ensures Inv(codec, Apply(codec, s, step))
  {
    match step
    case Commit(events) => CommitKeepsInv(codec, s, events);
    case AnswerRange(r, kvs, launch) => AnswerKeepsInv(codec, s, r, kvs, launch);
    case Send(r, separator) => SendKeepsInv(codec, s, r, separator);
    case Arrive(count) => ArriveKeepsInv(codec, s, count);
    case Elapse(_) =>
    case Close =>
    case Activate(launch) =>
      if s.client.request == NoRequest {
        ProcessKeepsInv(codec, s, s.client, launch);
      }
    case SpoilRange(reply, launch) => SpoilKeepsInv(codec, s, reply, launch);
    case EndWatch(end, launch) => EndWatchKeepsInv(codec, s, end, launch);
  }

  lemma {:induction false} RunKeepsInv(codec: Codec, s: System, steps: seq<Step>)
    requires codec.Sound() && Inv(codec, s)
    ensures Inv(codec, Run(codec, s, steps))
    decreases |steps|
  {
    if steps != [] {
      StepKeepsInv(codec, s, steps[0]);
      RunKeepsInv(codec, Apply(codec, s, steps[0]), steps[1..]);
    }
  }

  /** Over every run since the last `close`: nothing is delivered before the snapshot, and once there is one the
      handler has received exactly it and the events after it up to the client's revision. */
  lemma ExactlyOnceDelivery(codec: Codec, log: Log, retryInterval: int, now: int, steps: seq<Step>)
    requires codec.Sound()
    ensures var s := Run(codec, Initial(log, retryInterval, now), steps);
            && s.epoch <= |s.client.delivered|
            && if s.client.lastRevision == 0 then s.client.delivered[s.epoch..] == []
               else ExactlyOnce(s.log, s.client.delivered[s.epoch..], s.client.lastRevision)
  {
    RunKeepsInv(codec, Initial(log, retryInterval, now), steps);
  }
}
