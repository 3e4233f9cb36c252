/** Length-prefixed frames over a byte stream that arrives in arbitrary pieces. */
module Frames {
  import opened Results
  import opened Bytes

  const MAX_FRAME: nat := 0x100_0000

  datatype WireError = FrameTooLarge | BadBody | Truncated

  /** A body codec: CBOR in the program, any pair of functions here. */
  datatype Codec<!M> = Codec(encode: M -> seq<byte>, decode: seq<byte> -> Option<M>)

  /** The codec gives this message back. */
  ghost predicate RoundTrips<M>(codec: Codec<M>, m: M) {
    codec.decode(codec.encode(m)) == Some(m)
  }

  // ---------- one frame ----------

  /** A 32-bit length, most significant byte first. */
  function PutU32(n: nat): (b: seq<byte>)
    ensures |b| == 4
  {
    [n / 0x100_0000 % 256, n / 0x1_0000 % 256, n / 0x100 % 256, n % 256]
  }

  function GetU32(b: seq<byte>): nat
    requires |b| >= 4
  {
    var top: nat, high: nat, low: nat, last: nat := b[0], b[1], b[2], b[3];
    top * 0x100_0000 + high * 0x1_0000 + low * 0x100 + last
  }

  /** Most significant byte first. */
  lemma BigEndian(top: byte, high: byte, low: byte, last: byte)
    ensures GetU32([top, high, low, last]) == ((top as int * 256 + high as int) * 256 + low as int) * 256 + last as int
    ensures PutU32(GetU32([top, high, low, last])) == [top, high, low, last]
  {
    var a: nat, b: nat, c: nat, d: nat := top, high, low, last;
    PutsBack(a, b, c, d);
  }

  lemma PutsBack(a: nat, b: nat, c: nat, d: nat)
    requires a < 256 && b < 256 && c < 256 && d < 256
    ensures PutU32(a * 0x100_0000 + b * 0x1_0000 + c * 0x100 + d) == [a, b, c, d]
  {
    var n := a * 0x100_0000 + b * 0x1_0000 + c * 0x100 + d;
    assert n / 0x100_0000 == a;
    assert n / 0x1_0000 == a * 256 + b;
    assert n / 0x100 == (a * 256 + b) * 256 + c;
  }

  lemma LengthReads(n: nat)
    requires n < U32
    ensures GetU32(PutU32(n)) == n
  {
    var a, b, c := n / 0x100, n / 0x1_0000, n / 0x100_0000;
    assert n == 256 * a + n % 256;
    assert a == 256 * b + a % 256 && n / 0x100 % 256 == a % 256;
    assert b == 256 * c + b % 256;
    assert c % 256 == c;
  }

  function Frame<M>(codec: Codec<M>, m: M): seq<byte> {
    PutU32(|codec.encode(m)|) + codec.encode(m)
  }

  predicate Fits<M>(codec: Codec<M>, m: M) {
    |codec.encode(m)| <= MAX_FRAME
  }

  /** Length of a byte string in a body: the program's encoder writes an array of small integers, one byte for
      those below 24 and two for the rest, behind a header that counts among the other fields. */
  function ArraySize(payload: seq<byte>): nat {
    if payload == [] then 0 else ArraySize(payload[..|payload| - 1]) + if payload[|payload| - 1] < 24 then 1 else 2
  }

  lemma {:induction false} ArrayBounds(payload: seq<byte>)
    ensures |payload| <= ArraySize(payload) <= 2 * |payload|
    ensures (forall i | 0 <= i < |payload| :: payload[i] < 24) ==> ArraySize(payload) == |payload|
    ensures (forall i | 0 <= i < |payload| :: payload[i] >= 24) ==> ArraySize(payload) == 2 * |payload|
  {
    if payload != [] {
      ArrayBounds(payload[..|payload| - 1]);
    }
  }

  /** Append a frame, unless the body is over the cap. */
  method EncodeFrame<M>(codec: Codec<M>, dst: seq<byte>, m: M) returns (r: Result<seq<byte>, WireError>)
    ensures r == if Fits(codec, m) then Ok(dst + Frame(codec, m)) else Err(FrameTooLarge)
  {
    var payload := codec.encode(m);
    if |payload| > MAX_FRAME {
      return Err(FrameTooLarge);
    }
    var out := dst + PutU32(|payload|);
    out := out + payload;
    assert out == dst + Frame(codec, m);
    return Ok(out);
  }

  /** What a buffer holds at its front. */
  datatype Front<M> = Incomplete | Complete(msg: M, size: nat) | Broken(error: WireError)

  function FrontOf<M>(codec: Codec<M>, b: seq<byte>): (r: Front<M>)
    ensures r.Complete? ==> r.size <= |b| && r.size >= 4
  {
    if |b| < 4 then Incomplete
    else if GetU32(b) > MAX_FRAME then Broken(FrameTooLarge)
    else if |b| < 4 + GetU32(b) then Incomplete
    else match codec.decode(b[4..4 + GetU32(b)])
      case None => Broken(BadBody)
      case Some(m) => Complete(m, 4 + GetU32(b))
  }

  /** More bytes behind a decided front change nothing. */
  lemma FrontDecided<M>(codec: Codec<M>, b: seq<byte>, more: seq<byte>)
    requires !FrontOf(codec, b).Incomplete?
    ensures FrontOf(codec, b + more) == FrontOf(codec, b)
  {
    if GetU32(b) <= MAX_FRAME {
      assert (b + more)[4..4 + GetU32(b)] == b[4..4 + GetU32(b)];
    }
  }

  function Concat(pieces: seq<seq<byte>>): seq<byte> {
    if pieces == [] then [] else pieces[0] + Concat(pieces[1..])
  }

  // ---------- reading ----------

  /** A socket's bytes still to come, in the pieces they will arrive in, and the reader's buffer. */
  class FrameReader<M> {
    const codec: Codec<M>
    var buf: seq<byte>
    var incoming: seq<seq<byte>>

    constructor (codec: Codec<M>, incoming: seq<seq<byte>>)
      ensures this.codec == codec && buf == [] && this.incoming == incoming
    {
      this.codec, buf, this.incoming := codec, [], incoming;
    }

    /** The unread stream. */
    ghost function Stream(): seq<byte>
      reads this
    {
      buf + Concat(incoming)
    }

    /** Take one frame off the front of the buffer, if it holds a whole one. */
    method DecodeFrame() returns (r: Result<Option<M>, WireError>)
      modifies this`buf
      ensures match FrontOf(codec, old(buf))
              case Incomplete => r == Ok(None) && buf == old(buf)
              case Complete(m, n) => r == Ok(Some(m)) && buf == old(buf)[n..]
              case Broken(e) => r == Err(e)
    {
      if |buf| < 4 {
        return Ok(None);
      }
      var len := GetU32(buf);
      if len > MAX_FRAME {
        return Err(FrameTooLarge);
      }
      if |buf| < 4 + len {
        return Ok(None);
      }
      ghost var before := buf;
      buf := buf[4..];
      var payload := buf[..len];
      buf := buf[len..];
      assert payload == before[4..4 + len] && buf == before[4 + len..];
      var m := codec.decode(payload);
      if m.None? {
        return Err(BadBody);
      }
      return Ok(m);
    }

    /** Read until a whole frame is there. The outcome depends on the stream alone, not on the pieces. */
    method ReadFrame() returns (r: Result<Option<M>, WireError>)
      requires forall i | 0 <= i < |incoming| :: incoming[i] != []
      modifies this
      ensures forall i | 0 <= i < |incoming| :: incoming[i] != []
      ensures match FrontOf(codec, old(Stream()))
              case Incomplete => r == if old(Stream()) == [] then Ok(None) else Err(Truncated)
              case Complete(m, n) => r == Ok(Some(m)) && Stream() == old(Stream())[n..]
              case Broken(e) => r == Err(e)
    {
      ghost var stream := Stream();
      while true
        invariant Stream() == stream && forall i | 0 <= i < |incoming| :: incoming[i] != []
        decreases |incoming|
      {
        ghost var before := buf;
        if !FrontOf(codec, buf).Incomplete? {
          FrontDecided(codec, buf, Concat(incoming));
        }
        var msg := DecodeFrame();
        if msg.Err? {
          return msg;
        }
        if msg.value.Some? {
          assert before[FrontOf(codec, before).size..] + Concat(incoming) == stream[FrontOf(codec, before).size..];
          return msg;
        }
        var hadAny := buf != [];
        if incoming == [] {
          assert buf + [] == buf;
          return if hadAny then Err(Truncated) else Ok(None);
        }
        assert buf + incoming[0] + Concat(incoming[1..]) == buf + Concat(incoming);
        buf, incoming := buf + incoming[0], incoming[1..];
      }
    }
  }

  // ---------- a whole stream ----------

  /** How a stream ends: cleanly, or with an error. */
  datatype End = Clean | Failed(error: WireError)

  /** The messages on a stream and how it ends. */
  function Deframe<M>(codec: Codec<M>, stream: seq<byte>): (seq<M>, End)
    decreases |stream|
  {
    match FrontOf(codec, stream)
    case Incomplete => ([], if stream == [] then Clean else Failed(Truncated))
    case Broken(e) => ([], Failed(e))
    case Complete(m, n) =>
      var rest := Deframe(codec, stream[n..]);
      ([m] + rest.0, rest.1)
  }

  /** Read messages until the stream ends. */
  method ReadAll<M>(codec: Codec<M>, incoming: seq<seq<byte>>) returns (msgs: seq<M>, end: End)
    requires forall i | 0 <= i < |incoming| :: incoming[i] != []
    ensures (msgs, end) == Deframe(codec, Concat(incoming))
  {
    var reader := new FrameReader(codec, incoming);
    msgs := [];
    hide FrontOf, Frame, Concat;
    ghost var all := Deframe(codec, Concat(incoming));
    assert reader.Stream() == Concat(incoming);
    assert [] + all.0 == all.0;
    while true
      invariant fresh(reader) && reader.codec == codec
      invariant forall i | 0 <= i < |reader.incoming| :: reader.incoming[i] != []
      invariant all.0 == msgs + Deframe(codec, reader.Stream()).0
      invariant all.1 == Deframe(codec, reader.Stream()).1
      decreases |reader.Stream()|
    {
      assert msgs + [] == msgs;
      var r := reader.ReadFrame();
      if r.Err? {
        return msgs, Failed(r.error);
      }
      if r.value.None? {
        return msgs, Clean;
      }
      ghost var rest := Deframe(codec, reader.Stream()).0;
      assert msgs + ([r.value.value] + rest) == msgs + [r.value.value] + rest;
      msgs := msgs + [r.value.value];
    }
  }

  function FrameAll<M>(codec: Codec<M>, msgs: seq<M>): seq<byte> {
    if msgs == [] then [] else Frame(codec, msgs[0]) + FrameAll(codec, msgs[1..])
  }

  lemma FrameIsComplete<M>(codec: Codec<M>, m: M, rest: seq<byte>)
    requires Fits(codec, m) && RoundTrips(codec, m)
    ensures FrontOf(codec, Frame(codec, m) + rest) == Complete(m, |Frame(codec, m)|)
  {
    var body := codec.encode(m);
    var b := Frame(codec, m) + rest;
    LengthReads(|body|);
    assert b[..4] == PutU32(|body|);
    assert GetU32(b) == GetU32(b[..4]);
    assert b[4..4 + |body|] == body;
  }

  /** The readers yield exactly the messages sent, and then whatever is behind them: clean end of file
      after the last frame, an error after part of one. */
  lemma {:induction false} DeframeFrames<M>(codec: Codec<M>, msgs: seq<M>, tail: seq<byte>)
    requires forall i | 0 <= i < |msgs| :: Fits(codec, msgs[i]) && RoundTrips(codec, msgs[i])
    requires FrontOf(codec, tail).Incomplete?
    ensures Deframe(codec, FrameAll(codec, msgs) + tail) == (msgs, if tail == [] then Clean else Failed(Truncated))
  {
    if msgs == [] {
      assert FrameAll(codec, msgs) + tail == tail;
    } else {
      var head, rest := Frame(codec, msgs[0]), FrameAll(codec, msgs[1..]) + tail;
      assert FrameAll(codec, msgs) + tail == head + rest;
      FrameIsComplete(codec, msgs[0], rest);
      assert (head + rest)[|head|..] == rest;
      DeframeFrames(codec, msgs[1..], tail);
      assert [msgs[0]] + msgs[1..] == msgs;
    }
  }

  /** Any part of a frame is such a tail. */
  lemma PartialFrame<M>(codec: Codec<M>, m: M, n: nat)
    requires Fits(codec, m) && n < |Frame(codec, m)|
    ensures FrontOf(codec, Frame(codec, m)[..n]).Incomplete?
  {
    if n >= 4 {
      LengthReads(|codec.encode(m)|);
      assert Frame(codec, m)[..4] == PutU32(|codec.encode(m)|);
      assert GetU32(Frame(codec, m)[..n]) == GetU32(Frame(codec, m)[..4]);
    }
  }
}
