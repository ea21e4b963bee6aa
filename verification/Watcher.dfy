/** The etcd watch client of `etcd_watcher.cpp`. `Client` is its state as a value, with one specification
    function per callback; `EtcdWatcher` is the object whose methods perform those callbacks step by step. */
module Watcher {
  import opened Common
  import opened Framing

  datatype EventKind = Put | Delete

  datatype KeyValue = KeyValue(key: string, value: string)

  const NO_KEY_VALUE := KeyValue("", "")

  datatype Event = Event(kind: EventKind, kv: KeyValue, prevKv: KeyValue)

  /** A decoded watch response; revision 0 stands for a response whose header carries no revision. */
  datatype Frame = Frame(revision: int, events: seq<Event>)

  /** One call of `evt_handle_`. */
  datatype Delivery = Delivery(revision: int, events: seq<Event>)

  datatype Request = NoRequest | RangeRequest(probe: bool) | WatchRequest(startRevision: int)

  datatype RangeReply = RangeFailed | RangeUnparsable | RangeOk(revision: int, kvs: seq<KeyValue>)

  datatype WatchEnd = WatchError | WatchTimedOut | WatchFinished

  datatype Client = Client(
    retryInterval: int,
    request: Request,
    retryMode: bool,
    lastRevision: int,
    nextRequestTime: int,
    stream: seq<byte>,
    brackets: int,
    delivered: seq<Delivery>)
  {
    function Framer(): Framer { Framing.Framer(stream, brackets) }

    function WithFramer(f: Framer): Client { this.(stream := f.stream, brackets := f.brackets) }
  }

  type Decoder = seq<byte> -> Option<Frame>

  /** Range results are all handed on as PUT events. */
  function AsPuts(kvs: seq<KeyValue>): (events: seq<Event>)
    ensures |events| == |kvs|
    ensures forall i :: 0 <= i < |kvs| ==> events[i] == Event(Put, kvs[i], NO_KEY_VALUE)
  {
    seq(|kvs|, i requires 0 <= i < |kvs| => Event(Put, kvs[i], NO_KEY_VALUE))
  }

  // ---------------------------------------------------------------- specification of the callbacks

  function Process(c: Client, now: int, launch: Launch): Client {
    if c.request != NoRequest || c.nextRequestTime > now then c
    else if c.lastRevision == 0 || c.retryMode then
      match launch
      case CreateFailed => c.(nextRequestTime := now + c.retryInterval)
      case StartFailed => c
      case Started => c.(request := RangeRequest(c.retryMode))
    else
      match launch
      case CreateFailed => c.(nextRequestTime := now + c.retryInterval)
      case StartFailed => c.WithFramer(IDLE)
      case Started => c.(request := WatchRequest(c.lastRevision + 1)).WithFramer(IDLE)
  }

  function RangeCompleted(c: Client, now: int, reply: RangeReply, launch: Launch): Client {
    var c := c.(request := NoRequest);
    if reply.RangeFailed? then c.(nextRequestTime := now + c.retryInterval)
    else if c.retryMode then Process(c.(retryMode := false, nextRequestTime := now), now, launch)
    else if reply.RangeUnparsable? || reply.revision == 0 then
      Process(c.(nextRequestTime := now + c.retryInterval), now, launch)
    else
      Process(
        c.(lastRevision := reply.revision,
           delivered := c.delivered + [Delivery(reply.revision, AsPuts(reply.kvs))],
           nextRequestTime := now),
        now, launch)
  }

  function WatchCompleted(c: Client, now: int, end: WatchEnd, launch: Launch): Client {
    var c := c.(request := NoRequest, retryMode := true);
    match end
    case WatchError => Process(c.(nextRequestTime := now + c.retryInterval), now, launch)
    case WatchTimedOut => Process(c.(nextRequestTime := now), now, launch)
    case WatchFinished => Process(c, now, launch)
  }

  /** A cut-out frame: text that does not parse is ignored, otherwise the revision is saved and the handler called. */
  function HandleFrame(decode: Decoder, c: Client, text: seq<byte>): Client {
    match decode(text)
    case None => c
    case Some(frame) =>
      c.(lastRevision := if frame.revision != 0 then frame.revision else c.lastRevision,
         delivered := c.delivered + [Delivery(frame.revision, frame.events)])
  }

  function HandleFrames(decode: Decoder, c: Client, texts: seq<seq<byte>>): Client
    decreases |texts|
  {
    if texts == [] then c else HandleFrames(decode, HandleFrame(decode, c, texts[0]), texts[1..])
  }

  function ReceiveByte(decode: Decoder, c: Client, b: byte): Client {
    var o := FeedByte(c.Framer(), b);
    HandleFrames(decode, c.WithFramer(o.framer), o.frames)
  }

  function Receive(decode: Decoder, c: Client, bytes: seq<byte>): Client
    decreases |bytes|
  {
    if bytes == [] then c else Receive(decode, ReceiveByte(decode, c, bytes[0]), bytes[1..])
  }

  function Closed(c: Client): Client {
    c.(request := NoRequest, retryMode := false, lastRevision := 0)
  }

  // ---------------------------------------------------------------- receiving is framing, then handling

  lemma {:induction false} HandleFramesKeepsFramer(decode: Decoder, c: Client, texts: seq<seq<byte>>, f: Framer)
    ensures HandleFrames(decode, c, texts).Framer() == c.Framer()
    ensures HandleFrames(decode, c.WithFramer(f), texts) == HandleFrames(decode, c, texts).WithFramer(f)
    decreases |texts|
  {
    if texts != [] {
      HandleFramesKeepsFramer(decode, HandleFrame(decode, c, texts[0]), texts[1..], f);
    }
  }

  lemma {:induction false} HandleFramesConcat(decode: Decoder, c: Client, a: seq<seq<byte>>, b: seq<seq<byte>>)
    ensures HandleFrames(decode, c, a + b) == HandleFrames(decode, HandleFrames(decode, c, a), b)
    decreases |a|
  {
    if a == [] {
      assert a + b == b;
    } else {
      assert (a + b)[1..] == a[1..] + b;
      HandleFramesConcat(decode, HandleFrame(decode, c, a[0]), a[1..], b);
    }
  }

  /** Receiving bytes is running the framer over them and handling the frames it emits, in order. */
  lemma {:induction false} ReceiveIsFeedThenHandle(decode: Decoder, c: Client, bytes: seq<byte>)
    ensures var o := Feed(c.Framer(), bytes);
            Receive(decode, c, bytes) == HandleFrames(decode, c.WithFramer(o.framer), o.frames)
    decreases |bytes|
  {
    if bytes != [] {
      var first := FeedByte(c.Framer(), bytes[0]);
      var mid := c.WithFramer(first.framer);
      var rest := Feed(first.framer, bytes[1..]);
      HandleFramesKeepsFramer(decode, mid, first.frames, rest.framer);
      ReceiveIsFeedThenHandle(decode, HandleFrames(decode, mid, first.frames), bytes[1..]);
      HandleFramesConcat(decode, c.WithFramer(rest.framer), first.frames, rest.frames);
      assert c.WithFramer(rest.framer) == mid.WithFramer(rest.framer);
    }
  }

  /** The chunks the bytes arrive in make no difference to the client. */
  lemma {:induction false} ReceiveConcat(decode: Decoder, c: Client, a: seq<byte>, b: seq<byte>)
    ensures Receive(decode, c, a + b) == Receive(decode, Receive(decode, c, a), b)
    decreases |a|
  {
    if a == [] {
      assert a + b == b;
    } else {
      assert (a + b)[1..] == a[1..] + b;
      ReceiveConcat(decode, ReceiveByte(decode, c, a[0]), a[1..], b);
    }
  }

  lemma ReceiveSplit(decode: Decoder, c: Client, bytes: seq<byte>, lo: nat, hi: nat)
    requires lo <= hi <= |bytes|
    ensures var o := Feed(c.Framer(), bytes[lo..hi]);
            Receive(decode, c, bytes[lo..])
            == Receive(decode, HandleFrames(decode, c.WithFramer(o.framer), o.frames), bytes[hi..])
  {
    assert bytes[lo..] == bytes[lo..hi] + bytes[hi..];
    ReceiveConcat(decode, c, bytes[lo..hi], bytes[hi..]);
    ReceiveIsFeedThenHandle(decode, c, bytes[lo..hi]);
  }

  lemma HandleOneFrame(decode: Decoder, c: Client, text: seq<byte>)
    ensures HandleFrames(decode, c, [text]) == HandleFrame(decode, c, text)
  {
    var texts: seq<seq<byte>> := [text];
    assert texts[1..] == [];
  }

  // ---------------------------------------------------------------- the scanning loops

  lemma FeedOneMore(f: Framer, bytes: seq<byte>, lo: nat, i: nat)
    requires lo <= i < |bytes|
    ensures var left := Feed(f, bytes[lo..i]);
            var o := FeedByte(left.framer, bytes[i]);
            Feed(f, bytes[lo..i + 1]) == Output(o.framer, left.frames + o.frames)
  {
    assert bytes[lo..i + 1] == bytes[lo..i] + [bytes[i]];
    FeedConcat(f, bytes[lo..i], [bytes[i]]);
    var o := FeedByte(Feed(f, bytes[lo..i]).framer, bytes[i]);
    assert Feed(o.framer, []) == Output(o.framer, []);
    assert o.frames + [] == o.frames;
  }

  /** With no frame pending, the loop that drops bytes up to an opening bracket or a NUL. */
  method SkipToFrame(stream: seq<byte>, brackets: int, inbuf: seq<byte>, pos: nat) returns (next: nat)
    requires pos <= |inbuf|
    ensures pos <= next <= |inbuf|
    ensures Feed(Framing.Framer(stream, brackets), inbuf[pos..next]) == Output(Framing.Framer(stream, brackets), [])
    ensures next == |inbuf| || brackets > 0 || inbuf[next] == NUL || IsOpen(inbuf[next])
  {
    next := pos;
    ghost var f := Framing.Framer(stream, brackets);
    assert Feed(f, inbuf[pos..pos]) == Output(f, []);
    if brackets <= 0 {
      while next < |inbuf| && inbuf[next] != NUL && !IsOpen(inbuf[next])
        invariant pos <= next <= |inbuf|
        invariant Feed(f, inbuf[pos..next]) == Output(f, [])
      {
        assert FeedByte(f, inbuf[next]) == Output(f, []);
        hide Feed, FeedByte;
        FeedOneMore(f, inbuf, pos, next);
        next := next + 1;
      }
    }
  }

  /** The loop that counts brackets until the frame closes or the chunk ends. */
  method ScanFrame(stream: seq<byte>, brackets0: int, inbuf: seq<byte>, pos: nat)
    returns (end: nat, brackets: int, complete: bool)
    requires pos <= |inbuf|
    requires pos == |inbuf| || brackets0 > 0 || inbuf[pos] == NUL || IsOpen(inbuf[pos])
    ensures pos <= end <= |inbuf|
    ensures if complete then pos < end else end == |inbuf|
    ensures Feed(Framing.Framer(stream, brackets0), inbuf[pos..end])
            == if complete then Output(IDLE, [stream + inbuf[pos..end]])
               else Output(Framing.Framer(stream + inbuf[pos..end], brackets), [])
  {
    end, brackets, complete := pos, brackets0, false;
    assert stream + inbuf[pos..pos] == stream;
    assert Feed(Framing.Framer(stream, brackets0), inbuf[pos..pos]) == Output(Framing.Framer(stream, brackets0), []);
    hide Feed;
    while end < |inbuf|
      invariant pos <= end <= |inbuf|
      invariant end == pos ==> brackets == brackets0
      invariant pos < end ==> brackets > 0
      invariant Feed(Framing.Framer(stream, brackets0), inbuf[pos..end])
                == Output(Framing.Framer(stream + inbuf[pos..end], brackets), [])
    {
      FeedOneMore(Framing.Framer(stream, brackets0), inbuf, pos, end);
      assert stream + inbuf[pos..end + 1] == stream + inbuf[pos..end] + [inbuf[end]];
      if IsOpen(inbuf[end]) {
        brackets := brackets + 1;
      }
      if IsClose(inbuf[end]) {
        brackets := brackets - 1;
      }
      end := end + 1;
      if brackets <= 0 {
        complete := true;
        return;
      }
    }
  }

  // ---------------------------------------------------------------- the object

  class EtcdWatcher {
    const retryInterval: int
    const decode: Decoder
    var request: Request
    var retryMode: bool
    var lastRevision: int
    var nextRequestTime: int
    var dataStream: seq<byte>
    var dataBrackets: int
    var delivered: seq<Delivery>

    ghost function View(): Client
      reads this
    {
      Client(retryInterval, request, retryMode, lastRevision, nextRequestTime, dataStream, dataBrackets, delivered)
    }

    constructor (retryInterval: int, decode: Decoder)
      ensures View() == Client(retryInterval, NoRequest, false, 0, 0, [], 0, []) && this.decode == decode
    {
      this.retryInterval, this.decode := retryInterval, decode;
      request, retryMode, lastRevision, nextRequestTime := NoRequest, false, 0, 0;
      dataStream, dataBrackets, delivered := [], 0, [];
    }

    method Close()
      modifies this
      ensures View() == Closed(old(View()))
    {
      request := NoRequest;
      retryMode := false;
      lastRevision := 0;
    }

    /** `active` and `process`. */
    method Active(now: int, launch: Launch)
      modifies this
      ensures View() == Process(old(View()), now, launch)
    {
      if request != NoRequest {
        return;
      }
      if nextRequestTime > now {
        return;
      }
      if lastRevision == 0 || retryMode {
        request := RangeRequest(retryMode);
        if launch == CreateFailed {
          request, nextRequestTime := NoRequest, now + retryInterval;
          return;
        }
        if launch == StartFailed {
          request := NoRequest;
        }
        return;
      }
      if launch == CreateFailed {
        nextRequestTime := now + retryInterval;
        return;
      }
      request := WatchRequest(lastRevision + 1);
      dataStream := [];
      dataBrackets := 0;
      if launch == StartFailed {
        request := NoRequest;
      }
    }

    method OnRangeCompleted(now: int, reply: RangeReply, launch: Launch)
      modifies this
      ensures View() == RangeCompleted(old(View()), now, reply, launch)
    {
      request := NoRequest;
      if reply.RangeFailed? {
        nextRequestTime := now + retryInterval;
        return;
      }
      if retryMode {
        retryMode := false;
        nextRequestTime := now;
        Active(now, launch);
        return;
      }
      if reply.RangeUnparsable? || reply.revision == 0 {
        nextRequestTime := now + retryInterval;
        Active(now, launch);
        return;
      }
      lastRevision := reply.revision;
      var events := [];
      for i := 0 to |reply.kvs|
        invariant events == AsPuts(reply.kvs)[..i]
      {
        events := events + [Event(Put, reply.kvs[i], NO_KEY_VALUE)];
      }
      assert events == AsPuts(reply.kvs);
      delivered := delivered + [Delivery(reply.revision, events)];
      nextRequestTime := now;
      Active(now, launch);
    }

    method OnWatchCompleted(now: int, end: WatchEnd, launch: Launch)
      modifies this
      ensures View() == WatchCompleted(old(View()), now, end, launch)
    {
      request := NoRequest;
      retryMode := true;
      if end == WatchError {
        nextRequestTime := now + retryInterval;
      } else if end == WatchTimedOut {
        nextRequestTime := now;
      }
      Active(now, launch);
    }

    /** The write callback; `pos` plays the part of the advancing `inbuf`. */
    method OnWatchWrite(inbuf: seq<byte>)
      modifies this
      ensures View() == Receive(decode, old(View()), inbuf)
    {
      hide Feed, FeedByte;
      var pos := 0;
      while pos < |inbuf|
        invariant 0 <= pos <= |inbuf|
        invariant Receive(decode, View(), inbuf[pos..]) == Receive(decode, old(View()), inbuf)
        decreases |inbuf| - pos
      {
        var from := SkipToFrame(dataStream, dataBrackets, inbuf, pos);
        var end, brackets, needProcess := ScanFrame(dataStream, dataBrackets, inbuf, from);
        ReceiveSplit(decode, View(), inbuf, pos, from);
        ReceiveSplit(decode, View(), inbuf, from, end);
        ghost var before := View();

        if !needProcess {
          dataStream := dataStream + inbuf[from..];
          dataBrackets := brackets;
          assert inbuf[from..end] == inbuf[from..];
          pos := |inbuf|;
          assert View() == HandleFrames(decode, before.WithFramer(Framing.Framer(dataStream, brackets)), []);
          break;
        }
        var text := dataStream + inbuf[from..end];
        pos := end;
        dataStream := [];
        dataBrackets := 0;
        var parsed := decode(text);
        if parsed.Some? {
          if parsed.value.revision != 0 {
            lastRevision := parsed.value.revision;
          }
          delivered := delivered + [Delivery(parsed.value.revision, parsed.value.events)];
        }
        HandleOneFrame(decode, before.WithFramer(IDLE), text);
      }
    }
  }
}
