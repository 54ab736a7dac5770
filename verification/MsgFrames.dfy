/**
  Frames as the senders build them, with type and length in network byte order: the framing of
  `MsgIo` gives back exactly the messages that were sent.
*/
module MsgFrames {
  import opened MsgIo

  const TYPE_LIMIT: nat := 0x1_0000
  const LENGTH_LIMIT: nat := 0x1_0000_0000

  /** The message type with the greatest number. */
  const HEURISTICS_CHANGE_REPLY: nat := 17

  /** A value in n bytes, the most significant first. */
  function Big(value: nat, n: nat): (bs: Bytes)
    ensures |bs| == n
  {
    if n == 0 then [] else Big(value / 256, n - 1) + [value % 256]
  }

  datatype Sent = Sent(kind: nat, body: Bytes)

  predicate Sendable(m: Sent) {
    m.kind < TYPE_LIMIT && |m.body| < LENGTH_LIMIT
  }

  function Frame(m: Sent): Bytes {
    Big(m.kind, 2) + Big(|m.body|, 4) + m.body
  }

  /** The value of bytes, the most significant first. */
  function ValueOf(bs: Bytes): nat {
    if bs == [] then 0 else 256 * ValueOf(bs[..|bs| - 1]) + bs[|bs| - 1] as int
  }

  function Limit(n: nat): nat {
    if n == 0 then 1 else 256 * Limit(n - 1)
  }

  lemma {:induction false} BigHasValue(value: nat, n: nat)
    requires value < Limit(n)
    ensures ValueOf(Big(value, n)) == value
  {
    if n > 0 {
      BigHasValue(value / 256, n - 1);
      assert Big(value, n)[..n - 1] == Big(value / 256, n - 1);
    }
  }

  lemma TwoBytes(bs: Bytes)
    requires |bs| == 2
    ensures ValueOf(bs) == 256 * (bs[0] as int) + bs[1] as int
  {
    var first := bs[..1];
    assert first[..0] == [] && ValueOf([]) == 0;
    assert ValueOf(first) == first[0] as int;
  }

  lemma FourBytes(bs: Bytes)
    requires |bs| == 4
    ensures ValueOf(bs) == 16777216 * (bs[0] as int) + 65536 * (bs[1] as int) + 256 * (bs[2] as int) + bs[3] as int
  {
    assert bs[..3][..2] == bs[..2] && bs[..3][2] == bs[2];
    TwoBytes(bs[..2]);
  }

  /** What a receiver reads out of a header. */
  lemma HeaderIs(f: Bytes)
    requires |f| >= HEADER
    ensures MessageType(f) == ValueOf(f[..2]) && BodyLength(f) == ValueOf(f[2..6])
  {
    TwoBytes(f[..2]);
    FourBytes(f[2..6]);
  }

  /** A frame that is built is a frame, and its parts are read back. */
  lemma FrameIsRead(m: Sent)
    requires Sendable(m)
    ensures IsFrame(Frame(m)) && MessageType(Frame(m)) == m.kind && BodyLength(Frame(m)) == |m.body| && Frame(m)[HEADER..] == m.body
  {
    var f := Frame(m);
    assert f[..2] == Big(m.kind, 2) && f[2..6] == Big(|m.body|, 4);
    assert Limit(1) == 256 && Limit(2) == TYPE_LIMIT && Limit(3) == 0x100_0000 && Limit(4) == LENGTH_LIMIT;
    BigHasValue(m.kind, 2);
    BigHasValue(|m.body|, 4);
    HeaderIs(f);
  }

  /** Different messages have different frames. */
  lemma FramesDiffer(m: Sent, n: Sent)
    requires Sendable(m) && Sendable(n)
    ensures Frame(m) == Frame(n) <==> m == n
  {
    FrameIsRead(m);
    FrameIsRead(n);
  }

  // ---------------------------------------------------------------- a stream of messages

  function FramesOf(ms: seq<Sent>): (fs: seq<Bytes>)
    ensures |fs| == |ms| && forall i | 0 <= i < |ms| :: fs[i] == Frame(ms[i])
  {
    seq(|ms|, i requires 0 <= i < |ms| => Frame(ms[i]))
  }

  /** The receiver takes the known types that fit its buffer. */
  function Delivered(m: Sent, max: nat): Outcome {
    if m.kind <= HEURISTICS_CHANGE_REPLY && HEADER + |m.body| <= max then Message(Frame(m)) else Skipped
  }

  lemma {:induction false} OutcomesAre(ms: seq<Sent>, max: nat)
    requires forall i | 0 <= i < |ms| :: Sendable(ms[i])
    ensures Frames(FramesOf(ms))
    ensures forall i | 0 <= i < |ms| :: OutcomesOf(FramesOf(ms), max)[i] == Delivered(ms[i], max)
    decreases |ms|
  {
    forall i | 0 <= i < |ms| ensures IsFrame(FramesOf(ms)[i]) {
      FrameIsRead(ms[i]);
    }
    if ms != [] {
      assert FramesOf(ms)[1..] == FramesOf(ms[1..]);
      FrameIsRead(ms[0]);
      OutcomesAre(ms[1..], max);
    }
  }

  /** Any messages, with their bytes cut in any way the reads allow: every message of a known
      type that fits is delivered as it was sent, and every other one is skipped, in order. */
  lemma MessagesArrive(ms: seq<Sent>, max: nat, pieces: seq<Bytes>)
    requires (forall i | 0 <= i < |ms| :: Sendable(ms[i])) && max >= HEADER
    requires Schedule(EMPTY, max, pieces) && Concat(pieces) == Concat(FramesOf(ms))
    ensures |Outcomes(EMPTY, max, pieces)| == |ms|
    ensures forall i | 0 <= i < |ms| :: Outcomes(EMPTY, max, pieces)[i] == Delivered(ms[i], max)
  {
    OutcomesAre(ms, max);
    FramingRoundTrip(FramesOf(ms), max, pieces);
  }
}
