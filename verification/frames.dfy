/** The length-prefixed message stream between the agent and the browser worker. */
module Frames {

  import opened Common

  const MAX_FRAME_BYTES: nat := 16 * 1024 * 1024
  const BRIDGE_VERSION: int := 1

  /** The JSON text of a message and back. `parse` answers `None` where `JSON.parse` throws. */
  datatype Codec<!M> = Codec(text: M -> Bytes, parse: Bytes -> Option<M>, version: M -> int)

  ghost predicate Lawful<M(!new)>(c: Codec<M>) {
    forall m :: c.text(m) != [] && c.parse(c.text(m)) == Some(m)
  }

  predicate Sendable<M>(c: Codec<M>, m: M) {
    |c.text(m)| <= MAX_FRAME_BYTES && c.version(m) == BRIDGE_VERSION
  }

  predicate AllSendable<M>(c: Codec<M>, ms: seq<M>) {
    forall i | 0 <= i < |ms| :: Sendable(c, ms[i])
  }

  function Le32(n: nat): (b: Bytes)
    ensures |b| == 4
  {
    [Low(n), Low(n / 256), Low(n / 65536), Low(n / 16777216)]
  }

  function ReadLe32(b: Bytes): nat
    requires |b| >= 4
  {
    (b[0] as int) + 256 * (b[1] as int) + 65536 * (b[2] as int) + 16777216 * (b[3] as int)
  }

  lemma Le32RoundTrip(n: nat, rest: Bytes)
    requires n < 0x1_0000_0000
    ensures ReadLe32(Le32(n) + rest) == n
  {
    var b := Le32(n) + rest;
    assert b[0] == n % 256 && b[1] == n / 256 % 256 && b[2] == n / 65536 % 256 && b[3] == n / 16777216 % 256;
    assert n == n % 256 + 256 * (n / 256);
    assert n / 256 == n / 256 % 256 + 256 * (n / 65536);
    assert n / 65536 == n / 65536 % 256 + 256 * (n / 16777216);
  }

  /** `frameEncode`; `None` where it throws because the body is too long. */
  function FrameEncode<M>(c: Codec<M>, m: M): Option<Bytes> {
    var body := c.text(m);
    if |body| > MAX_FRAME_BYTES then None else Some(Le32(|body|) + body)
  }

  datatype Parse<M> = NeedMore | Bad | Got(message: M, rest: Bytes)

  /** `frameTryParse`; `Bad` where it throws. */
  function FrameTryParse<M>(c: Codec<M>, buf: Bytes): (r: Parse<M>)
    ensures r.Got? ==> |r.rest| < |buf|
  {
    if |buf| < 4 then NeedMore
    else
      var len := ReadLe32(buf);
      if len == 0 || len > MAX_FRAME_BYTES then Bad
      else if |buf| < 4 + len then NeedMore
      else
        match c.parse(buf[4..4 + len])
        case None => Bad
        case Some(m) => if c.version(m) != BRIDGE_VERSION then Bad else Got(m, buf[4 + len..])
  }

  /** Encoding and then parsing gives the message back, with whatever follows untouched;
      the encoder refuses exactly the bodies the parser would refuse for their length. */
  lemma EncodeThenParse<M(!new)>(c: Codec<M>, m: M, rest: Bytes)
    requires Lawful(c) && c.version(m) == BRIDGE_VERSION
    ensures FrameEncode(c, m).Some? <==> |c.text(m)| <= MAX_FRAME_BYTES
    ensures FrameEncode(c, m).Some? ==> FrameTryParse(c, FrameEncode(c, m).value + rest) == Got(m, rest)
  {
    if FrameEncode(c, m).Some? {
      var body := c.text(m);
      var buf := Le32(|body|) + body + rest;
      assert buf == Le32(|body|) + (body + rest);
      Le32RoundTrip(|body|, body + rest);
      assert buf[4..4 + |body|] == body && buf[4 + |body|..] == rest;
    }
  }

  /** A frame cut short is not a message and not an error. */
  lemma CutFrameWaits<M(!new)>(c: Codec<M>, m: M, cut: Bytes)
    requires Lawful(c) && Sendable(c, m)
    requires cut <= FrameEncode(c, m).value && cut != FrameEncode(c, m).value
    ensures FrameTryParse(c, cut) == NeedMore
  {
    var body := c.text(m);
    if |cut| >= 4 {
      assert cut == Le32(|body|) + cut[4..];
      Le32RoundTrip(|body|, cut[4..]);
    }
  }

  // ------------------------------------------------------------- the receive loop

  /** What the loop makes of a buffer: messages, the unread tail, and whether it got stuck
      on a bad frame. */
  datatype Drained<M> = Drained(messages: seq<M>, rest: Bytes, ok: bool)

  function Drain<M>(c: Codec<M>, buf: Bytes): (d: Drained<M>)
    ensures d.ok ==> FrameTryParse(c, d.rest).NeedMore?
    ensures !d.ok ==> FrameTryParse(c, d.rest).Bad?
    decreases |buf|
  {
    match FrameTryParse(c, buf)
    case NeedMore => Drained([], buf, true)
    case Bad => Drained([], buf, false)
    case Got(m, rest) =>
      var d := Drain(c, rest);
      Drained([m] + d.messages, d.rest, d.ok)
  }

  /** More input never changes a decision already made. */
  lemma ParseIsStable<M>(c: Codec<M>, buf: Bytes, more: Bytes)
    ensures FrameTryParse(c, buf).Bad? ==> FrameTryParse(c, buf + more).Bad?
    ensures FrameTryParse(c, buf).Got? ==>
            FrameTryParse(c, buf + more) == Got(FrameTryParse(c, buf).message, FrameTryParse(c, buf).rest + more)
  {
    if |buf| >= 4 {
      assert ReadLe32(buf + more) == ReadLe32(buf);
      var len := ReadLe32(buf);
      if |buf| >= 4 + len {
        assert (buf + more)[4..4 + len] == buf[4..4 + len];
        assert (buf + more)[4 + len..] == buf[4 + len..] + more;
      }
    }
  }

  /** Draining in two portions is draining once. */
  lemma {:induction false} DrainInPortions<M>(c: Codec<M>, buf: Bytes, more: Bytes)
    ensures var d := Drain(c, buf);
            if d.ok then
              var e := Drain(c, d.rest + more);
              Drain(c, buf + more) == Drained(d.messages + e.messages, e.rest, e.ok)
            else
              Drain(c, buf + more) == d.(rest := d.rest + more)
    decreases |buf|
  {
    ParseIsStable(c, buf, more);
    match FrameTryParse(c, buf)
    case NeedMore =>
      assert [] + Drain(c, buf + more).messages == Drain(c, buf + more).messages;
    case Bad =>
    case Got(m, rest) =>
      DrainInPortions(c, rest, more);
      var d := Drain(c, rest);
      assert [m] + (d.messages + Drain(c, d.rest + more).messages) == ([m] + d.messages) + Drain(c, d.rest + more).messages;
  }

  /** The worker's side of the stream. `alive` turns false when a bad frame makes the data
      handler throw. */
  class Receiver<M> {
    const codec: Codec<M>
    var rx: Bytes
    var delivered: seq<M>
    var alive: bool

    constructor (codec: Codec<M>)
      ensures this.codec == codec && rx == [] && delivered == [] && alive
    {
      this.codec := codec;
      rx, delivered, alive := [], [], true;
    }

    /** One data event: append the chunk, then take messages off the front in a loop. */
    method OnData(chunk: Bytes)
      requires alive
      modifies this
      ensures var d := Drain(codec, old(rx) + chunk);
              delivered == old(delivered) + d.messages && rx == d.rest && alive == d.ok
    {
      rx := rx + chunk;
      ghost var all, before := Drain(codec, rx), delivered;
      var more := true;
      assert before + all.messages == delivered + Drain(codec, rx).messages;
      while more
        invariant alive && before + all.messages == delivered + Drain(codec, rx).messages
        invariant all.rest == Drain(codec, rx).rest && all.ok == Drain(codec, rx).ok
        invariant !more ==> FrameTryParse(codec, rx).NeedMore?
        decreases more, |rx|
      {
        match FrameTryParse(codec, rx) {
          case NeedMore =>
            more := false;
          case Bad =>
            alive := false;
            return;
          case Got(m, rest) =>
            assert delivered + ([m] + Drain(codec, rest).messages) == (delivered + [m]) + Drain(codec, rest).messages;
            rx, delivered := rest, delivered + [m];
        }
      }
    }
  }

  function Join(chunks: seq<Bytes>): Bytes {
    if chunks == [] then [] else Join(chunks[..|chunks| - 1]) + chunks[|chunks| - 1]
  }

  /** The receiver's state after a sequence of data events. */
  function Feed<M>(c: Codec<M>, chunks: seq<Bytes>): Drained<M> {
    if chunks == [] then Drained([], [], true)
    else
      var s := Feed(c, chunks[..|chunks| - 1]);
      if !s.ok then s
      else
        var d := Drain(c, s.rest + chunks[|chunks| - 1]);
        Drained(s.messages + d.messages, d.rest, d.ok)
  }

  /** Where the chunk boundaries fall makes no difference to what is delivered. */
  lemma {:induction false} ChunkingIsIrrelevant<M>(c: Codec<M>, chunks: seq<Bytes>)
    ensures var d, f := Drain(c, Join(chunks)), Feed(c, chunks);
            f.messages == d.messages && f.ok == d.ok && (f.ok ==> f.rest == d.rest)
  {
    if chunks != [] {
      var front, last := chunks[..|chunks| - 1], chunks[|chunks| - 1];
      ChunkingIsIrrelevant(c, front);
      DrainInPortions(c, Join(front), last);
    }
  }

  function EncodeAll<M>(c: Codec<M>, ms: seq<M>): Bytes
    requires AllSendable(c, ms)
  {
    if ms == [] then [] else FrameEncode(c, ms[0]).value + EncodeAll(c, ms[1..])
  }

  /** How many of the messages lie completely within the first `n` bytes of the stream. */
  function Complete<M>(c: Codec<M>, ms: seq<M>, n: nat): (k: nat)
    requires AllSendable(c, ms)
    ensures k <= |ms|
  {
    if ms == [] then 0
    else
      var size := |FrameEncode(c, ms[0]).value|;
      if n < size then 0 else 1 + Complete(c, ms[1..], n - size)
  }

  /** `Complete` is the length of the longest prefix of messages whose frames fit. */
  lemma {:induction false} CompleteIsLongest<M>(c: Codec<M>, ms: seq<M>, n: nat, k: nat)
    requires AllSendable(c, ms)
    requires k <= |ms|
    ensures AllSendable(c, ms[..k])
    ensures |EncodeAll(c, ms[..k])| <= n <==> k <= Complete(c, ms, n)
  {
    if k > 0 {
      assert ms[..k][1..] == ms[1..][..k - 1] && ms[..k][0] == ms[0];
      var size := |FrameEncode(c, ms[0]).value|;
      if n >= size {
        CompleteIsLongest(c, ms[1..], n - size, k - 1);
      }
    }
  }

  /** Stream framing. Let any prefix of the concatenated frames arrive, split into chunks in
      any way: the receiver has delivered exactly the messages whose frames are complete, in
      order, and holds exactly the bytes of the frame that is still on its way. */
  lemma {:induction false} StreamFraming<M(!new)>(c: Codec<M>, ms: seq<M>, chunks: seq<Bytes>)
    requires Lawful(c) && AllSendable(c, ms)
    requires Join(chunks) <= EncodeAll(c, ms)
    ensures var k := Complete(c, ms, |Join(chunks)|);
            && AllSendable(c, ms[..k])
            && |EncodeAll(c, ms[..k])| <= |Join(chunks)|
            && Feed(c, chunks) == Drained(ms[..k], Join(chunks)[|EncodeAll(c, ms[..k])|..], true)
  {
    ChunkingIsIrrelevant(c, chunks);
    var b := Join(chunks);
    var k := Complete(c, ms, |b|);
    var tail := SplitPrefix(c, ms, b);
    DrainFrames(c, ms[..k], tail);
  }

  /** A prefix of the stream is its complete frames and a tail that is no frame yet. */
  lemma {:induction false} SplitPrefix<M(!new)>(c: Codec<M>, ms: seq<M>, b: Bytes) returns (tail: Bytes)
    requires Lawful(c) && AllSendable(c, ms) && b <= EncodeAll(c, ms)
    ensures AllSendable(c, ms[..Complete(c, ms, |b|)])
    ensures b == EncodeAll(c, ms[..Complete(c, ms, |b|)]) + tail
    ensures FrameTryParse(c, tail).NeedMore?
  {
    if Complete(c, ms, |b|) == 0 {
      tail := b;
      NothingComplete(c, ms, b);
    } else {
      var f := FrameEncode(c, ms[0]).value;
      CancelPrefix(f, EncodeAll(c, ms[1..]), b);
      tail := SplitPrefix(c, ms[1..], b[|f|..]);
      OneMoreComplete(c, ms, b, tail);
    }
  }

  lemma NothingComplete<M(!new)>(c: Codec<M>, ms: seq<M>, b: Bytes)
    requires Lawful(c) && AllSendable(c, ms) && b <= EncodeAll(c, ms) && Complete(c, ms, |b|) == 0
    ensures FrameTryParse(c, b).NeedMore? && b == EncodeAll(c, ms[..0]) + b
  {
    if ms != [] {
      ShortPrefix(FrameEncode(c, ms[0]).value, EncodeAll(c, ms[1..]), b);
      CutFrameWaits(c, ms[0], b);
    }
  }

  lemma OneMoreComplete<M>(c: Codec<M>, ms: seq<M>, b: Bytes, tail: Bytes)
    requires AllSendable(c, ms) && ms != [] && FrameEncode(c, ms[0]).value <= b
    requires var rest := b[|FrameEncode(c, ms[0]).value|..];
             rest == EncodeAll(c, ms[1..][..Complete(c, ms[1..], |rest|)]) + tail
    ensures b == EncodeAll(c, ms[..Complete(c, ms, |b|)]) + tail
  {
    var f := FrameEncode(c, ms[0]).value;
    var k := Complete(c, ms, |b|);
    EncodeAllSplit(c, ms, k);
    Glue(b, f, EncodeAll(c, ms[1..][..k - 1]), tail);
  }

  lemma Glue(b: Bytes, f: Bytes, g: Bytes, tail: Bytes)
    requires f <= b && b[|f|..] == g + tail
    ensures b == (f + g) + tail
  {
    assert b == f + b[|f|..];
  }

  lemma ShortPrefix(f: Bytes, x: Bytes, b: Bytes)
    requires b <= f + x && |b| < |f|
    ensures b <= f && b != f
  {
  }

  lemma CancelPrefix(f: Bytes, x: Bytes, b: Bytes)
    requires b <= f + x && |f| <= |b|
    ensures b == f + b[|f|..] && b[|f|..] <= x
  {
    assert (f + x)[|f|..] == x;
  }

  lemma EncodeAllSplit<M>(c: Codec<M>, ms: seq<M>, k: nat)
    requires AllSendable(c, ms) && 1 <= k <= |ms|
    ensures AllSendable(c, ms[..k]) && AllSendable(c, ms[1..][..k - 1])
    ensures EncodeAll(c, ms[..k]) == FrameEncode(c, ms[0]).value + EncodeAll(c, ms[1..][..k - 1])
  {
    assert ms[..k][1..] == ms[1..][..k - 1] && ms[..k][0] == ms[0];
  }

  lemma {:induction false} DrainFrames<M(!new)>(c: Codec<M>, ms: seq<M>, tail: Bytes)
    requires Lawful(c) && AllSendable(c, ms) && FrameTryParse(c, tail).NeedMore?
    ensures Drain(c, EncodeAll(c, ms) + tail) == Drained(ms, tail, true)
  {
    if ms == [] {
      assert EncodeAll(c, ms) + tail == tail;
    } else {
      var f, rest := FrameEncode(c, ms[0]).value, EncodeAll(c, ms[1..]) + tail;
      assert EncodeAll(c, ms) + tail == f + rest;
      EncodeThenParse(c, ms[0], rest);
      DrainFrames(c, ms[1..], tail);
      assert [ms[0]] + ms[1..] == ms;
    }
  }
}
