/** The watch client gets there: from whatever state a run has left it in, steps of client and server alone bring it all
    events. */
module WatchProgress {
  import opened Common
  import opened Framing
  import opened Watcher
  import opened WatchProtocol

  // ---------------------------------------------------------------- one activation

  /** An idle client that is due and has a revision asks for a watch from exactly the next one, with a clean framer; one
      that has none, or is to probe first, asks for the range. */
  lemma DueClientAsks(c: Client, now: int)
    requires c.request == NoRequest && c.nextRequestTime <= now
    ensures var c' := Process(c, now, Started);
            && (c.lastRevision != 0 && !c.retryMode ==>
                  c'.request == WatchRequest(c.lastRevision + 1) && c'.stream == [] && c'.brackets == 0)
            && (c.lastRevision == 0 || c.retryMode ==> c'.request == RangeRequest(c.retryMode))
            && c'.lastRevision == c.lastRevision && c'.delivered == c.delivered && c'.retryMode == c.retryMode
  {}

  /** A client with a request, or not due yet, does nothing. */
  lemma BusyOrEarlyClientWaits(c: Client, now: int, launch: Launch)
    requires c.request != NoRequest || now < c.nextRequestTime
    ensures Process(c, now, launch) == c
  {}

  /** After a watch that failed the client keeps its revision and its deliveries, asks for nothing before the retry
      interval is over, and then probes before it watches again. */
  lemma FailedWatchBacksOff(c: Client, now: int, launch: Launch, later: int, next: Launch)
    requires c.request.WatchRequest? && c.lastRevision != 0 && c.retryInterval > 0
    ensures var c' := WatchCompleted(c, now, WatchError, launch);
            && c'.request == NoRequest && c'.lastRevision == c.lastRevision && c'.delivered == c.delivered
            && (later < now + c.retryInterval ==> Process(c', later, next) == c')
            && (later >= now + c.retryInterval ==> Process(c', later, Started).request == RangeRequest(true))
  {}

  /** After a range request that failed the client asks for nothing before the retry interval is over. */
  lemma FailedRangeBacksOff(c: Client, now: int, launch: Launch, later: int, next: Launch)
    requires c.request.RangeRequest?
    ensures var c' := RangeCompleted(c, now, RangeFailed, launch);
            && c'.request == NoRequest && c'.lastRevision == c.lastRevision && c'.delivered == c.delivered
            && (later < now + c.retryInterval ==> Process(c', later, next) == c')
  {}

  /** So does an answer that cannot be read, and a request that cannot be made. */
  lemma UnreadableRangeBacksOff(c: Client, now: int, launch: Launch, later: int, next: Launch)
    requires c.request.RangeRequest? && !c.retryMode && c.retryInterval > 0
    ensures var c' := RangeCompleted(c, now, RangeUnparsable, launch);
            && c'.request == NoRequest && c'.lastRevision == c.lastRevision && c'.delivered == c.delivered
            && (later < now + c.retryInterval ==> Process(c', later, next) == c')
  {}

  lemma UnmadeRequestBacksOff(c: Client, now: int, later: int, next: Launch)
    requires c.request == NoRequest && c.nextRequestTime <= now
    ensures var c' := Process(c, now, CreateFailed);
            && c'.request == NoRequest && c'.lastRevision == c.lastRevision && c'.delivered == c.delivered
            && (later < now + c.retryInterval ==> Process(c', later, next) == c')
            && (later >= now + c.retryInterval ==> Process(c', later, Started).request != NoRequest)
  {}

  /** A snapshot is followed by a watch from its next revision at once, and so is the answer to a probe; a watch that
      ran out of time, or ended, is followed by a probe at once. */
  lemma ClientGoesOnAtOnce(c: Client, now: int, revision: nat, kvs: seq<KeyValue>)
    requires revision != 0
    ensures !c.retryMode ==>
              RangeCompleted(c, now, RangeOk(revision, kvs), Started).request == WatchRequest(revision + 1)
    ensures c.retryMode && c.lastRevision != 0 ==>
              RangeCompleted(c, now, RangeOk(revision, kvs), Started).request == WatchRequest(c.lastRevision + 1)
    ensures WatchCompleted(c, now, WatchTimedOut, Started).request == RangeRequest(true)
    ensures c.nextRequestTime <= now ==> WatchCompleted(c, now, WatchFinished, Started).request == RangeRequest(true)
  {}

  // ---------------------------------------------------------------- catching up

  /** A step of client, server or connection; nothing is written to the range and the client is not closed. */
  predicate Quiet(step: Step) { !step.Commit? && !step.Close? }

  predicate AllQuiet(steps: seq<Step>) { forall i :: 0 <= i < |steps| ==> Quiet(steps[i]) }

  lemma {:induction false} ListingExists(live: map<string, string>) returns (kvs: seq<KeyValue>)
    ensures Lists(kvs, live)
    decreases |live.Keys|
  {
    if live.Keys == {} {
      kvs := [];
    } else {
      var key :| key in live.Keys;
      assert (live - {key}).Keys == live.Keys - {key};
      hide Lists;
      var tail := ListingExists(live - {key});
      ListOneMore(tail, live, key);
      kvs := [KeyValue(key, live[key])] + tail;
    }
  }

  lemma ListOneMore(tail: seq<KeyValue>, live: map<string, string>, key: string)
    requires key in live && Lists(tail, live - {key})
    ensures Lists([KeyValue(key, live[key])] + tail, live)
  {
    var kvs := [KeyValue(key, live[key])] + tail;
    forall k | k in live ensures exists i :: 0 <= i < |kvs| && kvs[i].key == k {
      if k == key {
        assert kvs[0].key == k;
      } else {
        assert k in live - {key};
        var i :| 0 <= i < |tail| && tail[i].key == k;
        assert kvs[i + 1].key == k;
      }
    }
  }

  lemma RunStep(codec: Codec, s: System, step: Step, rest: seq<Step>)
    ensures Run(codec, s, [step] + rest) == Run(codec, Apply(codec, s, step), rest)
  {
    assert ([step] + rest)[1..] == rest;
  }

  /** The client has everything. */
  ghost predicate UpToDate(s: System) { s.client.lastRevision == |s.log| }

  /** A fresh watch at the client's revision. */
  ghost predicate FreshWatch(s: System) {
    && s.client.request.WatchRequest? && s.wire == [] && s.pending == []
    && s.client.Framer() == IDLE && s.serverRevision == s.client.lastRevision
  }

  lemma ServerSends(codec: Codec, s: System)
    requires FreshWatch(s) && 0 <= s.client.lastRevision <= |s.log| && |s.log| >= 1
    ensures var frame := Frame(|s.log|, EventsIn(s.log, s.serverRevision, |s.log|));
            Apply(codec, s, Send(|s.log|, []))
            == s.(wire := codec.encode(frame), serverRevision := |s.log|, pending := [frame])
  {
    var frame := Frame(|s.log|, EventsIn(s.log, s.serverRevision, |s.log|));
    assert [] + [] + codec.encode(frame) == codec.encode(frame) && [] + [frame] == [frame];
  }

  lemma FrameArrives(codec: Codec, s: System, frame: Frame)
    requires codec.Sound() && s.client.request.WatchRequest? && s.client.Framer() == IDLE
    requires s.wire == codec.encode(frame) && frame.revision != 0
    ensures var s' := Apply(codec, s, Arrive(|s.wire|));
            s'.log == s.log && s'.client.lastRevision == frame.revision
  {
    WholeFrameArrives(codec, s.client, frame);
    assert s.wire[..|s.wire|] == s.wire;
    hide Receive, Feed;
  }

  /** The server sends all that is new in one frame, and it arrives. */
  lemma WatchCatchesUp(codec: Codec, s: System) returns (steps: seq<Step>)
    requires codec.Sound() && |s.log| >= 1 && 0 <= s.client.lastRevision <= |s.log| && FreshWatch(s)
    ensures AllQuiet(steps) && var s' := Run(codec, s, steps); s'.log == s.log && UpToDate(s')
  {
    var frame := Frame(|s.log|, EventsIn(s.log, s.serverRevision, |s.log|));
    var send, arrive := Send(|s.log|, []), Arrive(|codec.encode(frame)|);
    ServerSends(codec, s);
    FrameArrives(codec, Apply(codec, s, send), frame);
    hide Apply, EventsIn;
    RunStep(codec, s, send, [arrive]);
    RunStep(codec, Apply(codec, s, send), arrive, []);
    RunsOut(codec, Apply(codec, Apply(codec, s, send), arrive));
    assert [arrive] + [] == [arrive];
    steps := [send] + [arrive];
  }

  lemma RunsOut(codec: Codec, s: System)
    ensures Run(codec, s, []) == s
  {}

  lemma WholeFrameArrives(codec: Codec, c: Client, frame: Frame)
    requires codec.Sound() && c.Framer() == IDLE && frame.revision != 0
    ensures Receive(codec.decode, c, codec.encode(frame)).lastRevision == frame.revision
  {
    var text := codec.encode(frame);
    assert IsFrame(text) && codec.decode(text) == Some(frame);
    FeedSeparatedFrame([], text);
    assert [] + text == text;
    ReceiveIsFeedThenHandle(codec.decode, c, text);
    HandleOneFrame(codec.decode, c.WithFramer(IDLE), text);
  }

  lemma ActivateServes(codec: Codec, s: System)
    requires Inv(codec, s) && s.client.request == NoRequest && s.client.nextRequestTime <= s.now
    ensures var s' := Apply(codec, s, Activate(Started));
            && s'.log == s.log && 0 <= s'.client.lastRevision <= |s'.log|
            && (FreshWatch(s') || s'.client.request.RangeRequest?)
  {
    DueClientAsks(s.client, s.now);
  }

  /** An idle client that is due. */
  lemma IdleCatchesUp(codec: Codec, s: System) returns (steps: seq<Step>)
    requires codec.Sound() && Inv(codec, s) && |s.log| >= 1
    requires s.client.request == NoRequest && s.client.nextRequestTime <= s.now
    ensures AllQuiet(steps) && var s' := Run(codec, s, steps); s'.log == s.log && UpToDate(s')
  {
    hide Inv, Apply, LiveAt, Lists;
    var activate := Activate(Started);
    var s1 := Apply(codec, s, activate);
    StepKeepsInv(codec, s, activate);
    ActivateServes(codec, s);
    var rest: seq<Step>;
    if s1.client.request.WatchRequest? {
      rest := WatchCatchesUp(codec, s1);
    } else {
      var kvs := ListingExists(LiveAt(s.log, |s.log|));
      rest := AnswerCatchesUp(codec, s1, kvs);
    }
    RunStep(codec, s, activate, rest);
    steps := [activate] + rest;
  }

  lemma AnswerCatchesUp(codec: Codec, s: System, kvs: seq<KeyValue>) returns (steps: seq<Step>)
    requires codec.Sound() && Inv(codec, s) && |s.log| >= 1 && s.client.request.RangeRequest?
    requires Lists(kvs, LiveAt(s.log, |s.log|))
    ensures AllQuiet(steps) && var s' := Run(codec, s, steps); s'.log == s.log && UpToDate(s')
  {
    hide Inv, Apply, LiveAt, Lists;
    var answer := AnswerRange(|s.log|, kvs, Started);
    var s1 := Apply(codec, s, answer);
    AnswerServes(codec, s, kvs);
    var rest: seq<Step> := [];
    if s.client.retryMode {
      rest := WatchCatchesUp(codec, s1);
    } else {
      RunsOut(codec, s1);
    }
    RunStep(codec, s, answer, rest);
    steps := [answer] + rest;
  }

  /** A range answer brings the snapshot of now, or ends the probe and opens a watch. */
  lemma AnswerServes(codec: Codec, s: System, kvs: seq<KeyValue>)
    requires Inv(codec, s) && |s.log| >= 1 && s.client.request.RangeRequest? && Lists(kvs, LiveAt(s.log, |s.log|))
    ensures var s' := Apply(codec, s, AnswerRange(|s.log|, kvs, Started));
            && s'.log == s.log
            && (s.client.retryMode ==> FreshWatch(s') && 0 <= s'.client.lastRevision <= |s'.log|)
            && (!s.client.retryMode ==> UpToDate(s'))
  {}

  lemma RequestEnds(codec: Codec, s: System)
    ensures s.client.request.RangeRequest? ==>
              var s' := Apply(codec, s, SpoilRange(RangeFailed, CreateFailed));
              s'.client.request == NoRequest && s'.log == s.log
    ensures !s.client.request.RangeRequest? ==>
              var s' := Apply(codec, s, EndWatch(WatchFinished, CreateFailed));
              s'.client.request == NoRequest && s'.log == s.log
  {}

  lemma TimePasses(codec: Codec, s: System, to: int)
    requires s.now <= to
    ensures Apply(codec, s, Elapse(to)) == s.(now := to)
  {}

  /** A client in the middle of something: its request ends, no other can be made, and time passes. */
  lemma BecomesIdle(codec: Codec, s: System) returns (steps: seq<Step>)
    requires codec.Sound() && Inv(codec, s)
    ensures AllQuiet(steps)
    ensures var s' := Run(codec, s, steps);
            && Inv(codec, s') && s'.log == s.log
            && s'.client.request == NoRequest && s'.client.nextRequestTime <= s'.now
  {
    hide Inv, Apply;
    var ending := if s.client.request.RangeRequest? then SpoilRange(RangeFailed, CreateFailed)
                  else EndWatch(WatchFinished, CreateFailed);
    var s1 := Apply(codec, s, ending);
    StepKeepsInv(codec, s, ending);
    RequestEnds(codec, s);
    var later := if s1.client.nextRequestTime <= s1.now then s1.now else s1.client.nextRequestTime;
    TimePasses(codec, s1, later);
    StepKeepsInv(codec, s1, Elapse(later));
    RunStep(codec, s, ending, [Elapse(later)]);
    RunStep(codec, s1, Elapse(later), []);
    RunsOut(codec, Apply(codec, s1, Elapse(later)));
    assert [Elapse(later)] + [] == [Elapse(later)];
    steps := [ending] + [Elapse(later)];
  }

  lemma {:induction false} RunConcat(codec: Codec, s: System, a: seq<Step>, b: seq<Step>)
    ensures Run(codec, s, a + b) == Run(codec, Run(codec, s, a), b)
    decreases |a|
  {
    hide Apply;
    if a == [] {
      assert a + b == b;
    } else {
      assert (a + b)[1..] == a[1..] + b;
      RunConcat(codec, Apply(codec, s, a[0]), a[1..], b);
    }
  }

  /** From every state of every run, once the range has been written to, there are steps of client, server and
      connection after which the handler has received everything in the log: the snapshot and then every event, once
      each. */
  lemma CanCatchUp(codec: Codec, log: Log, retryInterval: int, now: int, before: seq<Step>)
    returns (steps: seq<Step>)
    requires codec.Sound() && |Run(codec, Initial(log, retryInterval, now), before).log| >= 1
    ensures AllQuiet(steps)
    ensures var s := Run(codec, Initial(log, retryInterval, now), before);
            var s' := Run(codec, s, steps);
            && s'.log == s.log && s'.epoch <= |s'.client.delivered| && s'.client.lastRevision == |s.log|
            && ExactlyOnce(s.log, s'.client.delivered[s'.epoch..], |s.log|)
  {
    var s := Run(codec, Initial(log, retryInterval, now), before);
    RunKeepsInv(codec, Initial(log, retryInterval, now), before);
    var first := BecomesIdle(codec, s);
    var s1 := Run(codec, s, first);
    var more := IdleCatchesUp(codec, s1);
    RunConcat(codec, s, first, more);
    RunKeepsInv(codec, s1, more);
    steps := first + more;
  }
}
