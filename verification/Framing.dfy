/** The bracket framer of `etcd_watcher::libcurl_callback_on_watch_write`: it cuts the HTTP byte stream of a
    watch into JSON frames by counting brackets, whatever the chunks the bytes arrive in. */
module Framing {
  import opened Common

  const NUL: byte := 0

  // '[' and '{' open, ']' and '}' close; the source counts them untyped and also inside JSON strings.
  predicate IsOpen(b: byte) { b == 0x5B || b == 0x7B }

  predicate IsClose(b: byte) { b == 0x5D || b == 0x7D }

  function Delta(b: byte): int {
    if IsOpen(b) then 1 else if IsClose(b) then -1 else 0
  }

  /** `rpc_data_stream_` and `rpc_data_brackets_`. */
  datatype Framer = Framer(stream: seq<byte>, brackets: int)

  const IDLE := Framer([], 0)

  datatype Output = Output(framer: Framer, frames: seq<seq<byte>>)

  /** One byte: outside a frame everything but an opening bracket or a NUL is dropped. */
  function FeedByte(f: Framer, b: byte): Output {
    if f.brackets <= 0 && b != NUL && !IsOpen(b) then Output(f, [])
    else
      var depth := f.brackets + Delta(b);
      if depth <= 0 then Output(IDLE, [f.stream + [b]])
      else Output(Framer(f.stream + [b], depth), [])
  }

  function Feed(f: Framer, bytes: seq<byte>): Output
    decreases |bytes|
  {
    if bytes == [] then Output(f, [])
    else
      var first := FeedByte(f, bytes[0]);
      var rest := Feed(first.framer, bytes[1..]);
      Output(rest.framer, first.frames + rest.frames)
  }

  function FeedAll(f: Framer, chunks: seq<seq<byte>>): Output
    decreases |chunks|
  {
    if chunks == [] then Output(f, [])
    else
      var first := Feed(f, chunks[0]);
      var rest := FeedAll(first.framer, chunks[1..]);
      Output(rest.framer, first.frames + rest.frames)
  }

  function Flatten<T>(chunks: seq<seq<T>>): seq<T> {
    if chunks == [] then [] else chunks[0] + Flatten(chunks[1..])
  }

  lemma {:induction false} FeedConcat(f: Framer, a: seq<byte>, b: seq<byte>)
    ensures var left := Feed(f, a);
            var right := Feed(left.framer, b);
            Feed(f, a + b) == Output(right.framer, left.frames + right.frames)
    decreases |a|
  {
    if a == [] {
      assert a + b == b;
    } else {
      assert (a + b)[1..] == a[1..] + b;
      FeedConcat(FeedByte(f, a[0]).framer, a[1..], b);
    }
  }

  /** Framing does not depend on how the bytes are split into chunks. */
  lemma {:induction false} ChunkingIsIrrelevant(f: Framer, chunks: seq<seq<byte>>)
    ensures FeedAll(f, chunks) == Feed(f, Flatten(chunks))
    decreases |chunks|
  {
    if chunks != [] {
      FeedConcat(f, chunks[0], Flatten(chunks[1..]));
      ChunkingIsIrrelevant(Feed(f, chunks[0]).framer, chunks[1..]);
    }
  }

  /** Bracket depth reached at the end of `bytes`. */
  function Depth(bytes: seq<byte>): int {
    if bytes == [] then 0 else Depth(bytes[..|bytes| - 1]) + Delta(bytes[|bytes| - 1])
  }

  /** A non-empty text that opens with a bracket and has not come back to depth zero yet. */
  ghost predicate IsPartial(s: seq<byte>) {
    s != [] && IsOpen(s[0]) && forall k :: 0 < k <= |s| ==> Depth(s[..k]) > 0
  }

  /** A text that opens with a bracket and first returns to depth zero at its last byte. */
  ghost predicate IsFrame(s: seq<byte>) {
    s != [] && IsPartial(s[..|s| - 1]) && Depth(s) == 0
  }

  ghost predicate IsSeparator(s: seq<byte>) {
    forall i :: 0 <= i < |s| ==> s[i] != NUL && !IsOpen(s[i])
  }

  ghost predicate Valid(f: Framer) {
    && f.brackets >= 0
    && (f.brackets == 0 <==> f.stream == [])
    && (f.stream != [] ==> IsPartial(f.stream) && f.brackets == Depth(f.stream))
  }

  lemma PartialExtends(s: seq<byte>, b: byte)
    requires IsPartial(s)
    ensures Depth(s + [b]) == Depth(s) + Delta(b)
    ensures Depth(s + [b]) > 0 ==> IsPartial(s + [b])
    ensures Depth(s + [b]) <= 0 ==> IsFrame(s + [b])
  {
    var t := s + [b];
    assert t[..|t| - 1] == s;
    assert s[..|s|] == s;
    assert Depth(s) > 0;
    forall k | 0 < k < |t| ensures t[..k] == s[..k] {}
    assert t[..|t|] == t;
  }

  lemma {:induction false} FeedByteValid(f: Framer, b: byte)
    requires Valid(f)
    ensures var o := FeedByte(f, b);
            Valid(o.framer) && forall g :: g in o.frames ==> IsFrame(g) || g == [NUL]
  {
    if f.stream != [] {
      PartialExtends(f.stream, b);
    } else if IsOpen(b) {
      var s: seq<byte> := [b];
      assert s[..1] == s && s[..0] == [];
      assert Depth(s) == 1;
    }
  }

  /** Depth never goes negative, is zero exactly when nothing is pending, and all that is ever emitted is a
      complete frame or a lone NUL byte. */
  lemma {:induction false} FeedValid(f: Framer, bytes: seq<byte>)
    requires Valid(f)
    ensures var o := Feed(f, bytes);
            Valid(o.framer) && forall g :: g in o.frames ==> IsFrame(g) || g == [NUL]
    decreases |bytes|
  {
    if bytes != [] {
      FeedByteValid(f, bytes[0]);
      FeedValid(FeedByte(f, bytes[0]).framer, bytes[1..]);
    }
  }

  lemma {:induction false} FeedPartial(s: seq<byte>)
    requires IsPartial(s)
    ensures Feed(IDLE, s) == Output(Framer(s, Depth(s)), [])
  {
    var init, last := s[..|s| - 1], s[|s| - 1];
    assert s == init + [last];
    FeedConcat(IDLE, init, [last]);
    assert Feed(Feed(IDLE, init).framer, [last]).framer == FeedByte(Feed(IDLE, init).framer, last).framer;
    assert s[..|s|] == s;
    if init != [] {
      assert forall k :: 0 < k <= |init| ==> init[..k] == s[..k];
      FeedPartial(init);
      assert init[..|init|] == init;
    } else {
      assert Depth(init) == 0;
    }
  }

  lemma {:induction false} FeedSeparator(s: seq<byte>)
    requires IsSeparator(s)
    ensures Feed(IDLE, s) == Output(IDLE, [])
  {
    if s != [] {
      FeedSeparator(s[1..]);
    }
  }

  lemma FeedSeparatedFrame(sep: seq<byte>, frame: seq<byte>)
    requires IsSeparator(sep) && IsFrame(frame)
    ensures Feed(IDLE, sep + frame) == Output(IDLE, [frame])
  {
    var init, last := frame[..|frame| - 1], frame[|frame| - 1];
    assert frame == init + [last];
    FeedSeparator(sep);
    FeedPartial(init);
    assert init[..|init|] == init;
    FeedConcat(IDLE, init, [last]);
    FeedConcat(IDLE, sep, frame);
    assert Feed(Framer(init, Depth(init)), [last]) == FeedByte(Framer(init, Depth(init)), last);
  }

  /** Every frame preceded by its separator; `tail` is what follows the last frame. */
  function Joined(frames: seq<seq<byte>>, seps: seq<seq<byte>>, tail: seq<byte>): seq<byte>
    requires |frames| == |seps|
  {
    if frames == [] then tail else seps[0] + frames[0] + Joined(frames[1..], seps[1..], tail)
  }

  lemma {:induction false} FeedJoined(frames: seq<seq<byte>>, seps: seq<seq<byte>>, tail: seq<byte>)
    requires |frames| == |seps| && IsSeparator(tail)
    requires forall i :: 0 <= i < |frames| ==> IsFrame(frames[i]) && IsSeparator(seps[i])
    ensures Feed(IDLE, Joined(frames, seps, tail)) == Output(IDLE, frames)
  {
    if frames == [] {
      FeedSeparator(tail);
    } else {
      FeedSeparatedFrame(seps[0], frames[0]);
      FeedConcat(IDLE, seps[0] + frames[0], Joined(frames[1..], seps[1..], tail));
      FeedJoined(frames[1..], seps[1..], tail);
      assert frames == [frames[0]] + frames[1..];
    }
  }

  /** The framer undoes concatenation, however the joined text is chunked. */
  lemma FramerUndoesConcatenation(frames: seq<seq<byte>>, seps: seq<seq<byte>>, tail: seq<byte>, chunks: seq<seq<byte>>)
    requires |frames| == |seps| && IsSeparator(tail)
    requires forall i :: 0 <= i < |frames| ==> IsFrame(frames[i]) && IsSeparator(seps[i])
    requires Flatten(chunks) == Joined(frames, seps, tail)
    ensures FeedAll(IDLE, chunks) == Output(IDLE, frames)
  {
    ChunkingIsIrrelevant(IDLE, chunks);
    FeedJoined(frames, seps, tail);
  }
}
