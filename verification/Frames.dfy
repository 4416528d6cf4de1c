/** Length-prefixed frames of the local runtime's socket (api/runtime.py). */
module Frames {
  import opened Common

  type Byte = b: int | 0 <= b < 256

  const MAX_REQUEST: nat := 32 * 1024 * 1024

  function Pack4(n: nat): seq<Byte>
    requires n < 0x1_0000_0000
  {
    var a: int, b: int, c: int, d: int := n / 0x100_0000, n / 0x1_0000 % 0x100, n / 0x100 % 0x100, n % 0x100;
    [a, b, c, d]
  }

  function Unpack4(s: seq<Byte>): nat
    requires |s| >= 4
  {
    var a: int, b: int, c: int, d: int := s[0], s[1], s[2], s[3];
    ((a * 0x100 + b) * 0x100 + c) * 0x100 + d
  }

  /** `len(body).to_bytes(4, "big") + body`; None where the length does not fit four bytes. */
  function Frame(body: seq<Byte>): Option<seq<Byte>> {
    if |body| < 0x1_0000_0000 then Some(Pack4(|body|) + body) else None
  }

  /** `readexactly(4)`, then `readexactly(length)`: the body and what is left; None while bytes are missing. */
  function Unframe(stream: seq<Byte>): Option<(seq<Byte>, seq<Byte>)> {
    if |stream| < 4 then None else
    var n := Unpack4(stream);
    if |stream| < 4 + n then None else Some((stream[4..4 + n], stream[4 + n..]))
  }

  lemma LengthRoundTrip(n: nat)
    requires n < 0x1_0000_0000
    ensures Unpack4(Pack4(n)) == n
  {
    var a, b, c := n / 0x100, n / 0x1_0000, n / 0x100_0000;
    assert a / 0x100 == b && b / 0x100 == c;
    assert n == a * 0x100 + n % 0x100;
    assert a == b * 0x100 + a % 0x100;
    assert b == c * 0x100 + b % 0x100;
  }

  lemma BytesRoundTrip(s: seq<Byte>)
    requires |s| >= 4
    ensures Unpack4(s) < 0x1_0000_0000 && Pack4(Unpack4(s)) == s[..4]
  {
    var w: int, x: int, y: int, z: int := s[0], s[1], s[2], s[3];
    var c: int := w * 0x100 + x;
    var a: int := c * 0x100 + y;
    var n: int := a * 0x100 + z;
    assert n / 0x100 == a && n % 0x100 == z;
    assert a / 0x100 == c && a % 0x100 == y;
    assert c / 0x100 == w && c % 0x100 == x;
    assert n / 0x1_0000 == c && n / 0x100_0000 == w;
  }

  /** Before the body stand four bytes, its length with the most significant byte first; and there is a frame exactly
      when the length fits them. */
  lemma FrameIs(body: seq<Byte>)
    ensures Frame(body).Some? <==> |body| < 4294967296
    ensures Frame(body).Some? ==>
              var f := Frame(body).value;
              |f| == 4 + |body| && f[4..] == body &&
              |body| == 16777216 * f[0] as int + 65536 * f[1] as int + 256 * f[2] as int + f[3] as int
  {
    if Frame(body).Some? {
      LengthRoundTrip(|body|);
      assert Frame(body).value[4..] == body;
    }
  }

  /** A frame decodes to the body that was sent, whatever follows it on the stream. */
  lemma FrameRoundTrip(body: seq<Byte>, rest: seq<Byte>)
    requires Frame(body).Some?
    ensures Unframe(Frame(body).value + rest) == Some((body, rest))
  {
    var s := Frame(body).value + rest;
    LengthRoundTrip(|body|);
    assert s[..4] == Pack4(|body|);
    assert Unpack4(s) == Unpack4(Pack4(|body|));
    assert s[4..4 + |body|] == body && s[4 + |body|..] == rest;
  }

  /** And nothing else does: what decodes is the frame of the body it decodes to. */
  lemma OnlyFramesDecode(stream: seq<Byte>, body: seq<Byte>, rest: seq<Byte>)
    requires Unframe(stream) == Some((body, rest))
    ensures Frame(body).Some? && stream == Frame(body).value + rest
  {
    BytesRoundTrip(stream);
    assert stream == stream[..4] + body + rest;
  }

  /** A frame cut short decodes to nothing: a reader waits for the whole of it. */
  lemma CutFrameWaits(body: seq<Byte>, k: nat)
    requires Frame(body).Some? && k < |Frame(body).value|
    ensures Unframe(Frame(body).value[..k]).None?
  {
    if k >= 4 {
      LengthRoundTrip(|body|);
      assert Frame(body).value[..k][..4] == Pack4(|body|);
      assert Unpack4(Frame(body).value[..k]) == Unpack4(Pack4(|body|));
    }
  }

  /** What the server makes of a stream: it looks at the announced length before it reads the body. */
  datatype Received = Waiting | Oversized | Body(body: seq<Byte>, rest: seq<Byte>)

  function Receive(stream: seq<Byte>): Received {
    if |stream| < 4 then Waiting
    else if Unpack4(stream) > MAX_REQUEST then Oversized
    else
      match Unframe(stream)
      case None => Waiting
      case Some((body, rest)) => Body(body, rest)
  }

  /** The server receives every body up to the limit, and turns a larger one away as soon as it has its length. */
  lemma ReceivesUpToLimit(body: seq<Byte>, rest: seq<Byte>, k: nat)
    requires Frame(body).Some? && 4 <= k <= |Frame(body).value|
    ensures |body| <= 33554432 ==> Receive(Frame(body).value + rest) == Body(body, rest)
    ensures |body| > 33554432 ==> Receive(Frame(body).value[..k]) == Oversized
  {
    var frame := Frame(body).value;
    FrameRoundTrip(body, rest);
    LengthRoundTrip(|body|);
    assert frame[..k][..4] == Pack4(|body|) && (frame + rest)[..4] == Pack4(|body|);
    assert Unpack4(frame[..k]) == Unpack4(Pack4(|body|)) == Unpack4(frame + rest);
  }

  /** The frames of several bodies one after another; None if one of them does not fit. */
  function FrameAll(bodies: seq<seq<Byte>>): Option<seq<Byte>> {
    if bodies == [] then Some([]) else
    match (Frame(bodies[0]), FrameAll(bodies[1..]))
    case (Some(first), Some(others)) => Some(first + others)
    case _ => None
  }

  function UnframeAll(stream: seq<Byte>): Option<seq<seq<Byte>>>
    decreases |stream|
  {
    if stream == [] then Some([]) else
    match Unframe(stream)
    case None => None
    case Some((body, rest)) =>
      match UnframeAll(rest)
      case None => None
      case Some(others) => Some([body] + others)
  }

  /** A stream of frames decodes to the bodies that were sent, in order. */
  lemma {:induction false} StreamRoundTrip(bodies: seq<seq<Byte>>)
    requires FrameAll(bodies).Some?
    ensures UnframeAll(FrameAll(bodies).value) == Some(bodies)
  {
    if bodies != [] {
      var others := FrameAll(bodies[1..]).value;
      FrameRoundTrip(bodies[0], others);
      StreamRoundTrip(bodies[1..]);
      assert [bodies[0]] + bodies[1..] == bodies;
    }
  }
}
