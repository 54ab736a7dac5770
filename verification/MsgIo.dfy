/**
  Message framing on a stream socket: however the stream is cut into pieces, the messages
  read are the messages written, and a message that is refused is skipped to its end.
*/
module MsgIo {
  type byte = x: int | 0 <= x < 256

  type Bytes = seq<byte>

  const HEADER: nat := 6
  const LOCAL_BUFFER: nat := 1024
  const MESSAGE_TYPES: nat := 18

  // ---------------------------------------------------------------- frames

  function MessageType(header: Bytes): nat
    requires |header| >= HEADER
  {
    256 * (header[0] as int) + header[1] as int
  }

  function BodyLength(header: Bytes): nat
    requires |header| >= HEADER
  {
    16777216 * (header[2] as int) + 65536 * (header[3] as int) + 256 * (header[4] as int) + header[5] as int
  }

  /** A header and as many bytes as it announces. */
  predicate IsFrame(f: Bytes) {
    |f| >= HEADER && |f| == HEADER + BodyLength(f)
  }

  predicate TypeKnown(header: Bytes)
    requires |header| >= HEADER
  {
    MessageType(header) < MESSAGE_TYPES
  }

  /** The receiver takes messages of a known type that fit its buffer. */
  predicate Acceptable(header: Bytes, max: nat)
    requires |header| >= HEADER
  {
    TypeKnown(header) && HEADER + BodyLength(header) <= max
  }

  // ---------------------------------------------------------------- reading

  /** The receive buffer, the number of bytes of the current message already received, and
      whether the message is being skipped. */
  datatype Reader = Reader(buffer: Bytes, count: nat, skipping: bool)

  const EMPTY := Reader([], 0, false)

  /** How many bytes the next call may ask the socket for. */
  function ToRead(r: Reader): (n: int)
    requires r.count >= HEADER ==> |r.buffer| >= HEADER
  {
    var want := if r.count < HEADER then HEADER - r.count else HEADER + BodyLength(r.buffer) - r.count;
    if want > LOCAL_BUFFER then LOCAL_BUFFER else want
  }

  datatype Code = Full | Partial | CannotStore | InvalidType | TooLong

  /** The part of the message `cur` that has been received, as the reader has it. */
  predicate Holds(r: Reader, max: nat, cur: Bytes) {
    && max >= HEADER
    && r.count == |cur|
    && (|cur| < HEADER ==> !r.skipping)
    && (|cur| >= HEADER ==>
          |cur| < HEADER + BodyLength(cur) && (r.skipping <==> !Acceptable(cur, max)))
    && r.buffer == if r.skipping then cur[..HEADER] else cur
  }

  /** The reader after a piece has arrived, and what the call returns. */
  function Arrived(r: Reader, max: nat, piece: Bytes): (Reader, Code)
    requires r.count >= HEADER ==> |r.buffer| >= HEADER
    requires !r.skipping ==> |r.buffer| == r.count
    requires 0 < |piece| <= ToRead(r)
  {
    var count := r.count + |piece|;
    var storable := r.skipping || |r.buffer| + |piece| <= max;
    var skipping := r.skipping || !storable;
    var buffer := if r.skipping || !storable then r.buffer else r.buffer + piece;
    var checked := !skipping && count == HEADER;
    var bad := checked && !Acceptable(buffer, max);
    var r1 := Reader(buffer, count, skipping || bad);
    var code := if !storable then CannotStore
                else if bad then (if TypeKnown(buffer) then TooLong else InvalidType)
                else Partial;
    (r1, if count >= HEADER && |buffer| >= HEADER && count == HEADER + BodyLength(buffer) then Full else code)
  }

  lemma HeaderPrefix(cur: Bytes, more: Bytes)
    requires |cur| >= HEADER
    ensures BodyLength(cur + more) == BodyLength(cur) && MessageType(cur + more) == MessageType(cur)
    ensures BodyLength(cur[..HEADER]) == BodyLength(cur) && MessageType(cur[..HEADER]) == MessageType(cur)
  {
  }

  /** One piece: the message is complete exactly when its last byte has arrived, it is stored
      whole when it is acceptable and only its header is kept when it is not, and a code that
      reports a refusal is returned when the header completes. */
  lemma PieceArrives(r: Reader, max: nat, cur: Bytes, piece: Bytes)
    requires Holds(r, max, cur) && 0 < |piece| <= ToRead(r)
    ensures var now := cur + piece;
            var (t, code) := Arrived(r, max, piece);
            && code != CannotStore
            && (code == Full <==> IsFrame(now))
            && (code == Full ==> t.skipping == !Acceptable(now, max) && (!t.skipping ==> t.buffer == now))
            && (code != Full ==> Holds(t, max, now))
            && (code == InvalidType ==> |now| == HEADER && !TypeKnown(now))
            && (code == TooLong ==> |now| == HEADER && TypeKnown(now) && HEADER + BodyLength(now) > max)
  {
    var now := cur + piece;
    if |cur| >= HEADER {
      HeaderPrefix(cur, piece);
    } else if |now| == HEADER {
      assert now[..HEADER] == now;
    }
  }

  /** A refused message without a body is reported as complete, not as refused: the code for
      its type or size is overwritten in the same call. */
  lemma EmptyRefusedMessage(r: Reader, max: nat, cur: Bytes, piece: Bytes)
    requires Holds(r, max, cur) && 0 < |piece| <= ToRead(r) && |cur| < HEADER == |cur + piece|
    requires !Acceptable(cur + piece, max)
    ensures Arrived(r, max, piece).1 == Full <==> BodyLength(cur + piece) == 0
    ensures Arrived(r, max, piece).0.skipping
  {
    PieceArrives(r, max, cur, piece);
  }

  // ---------------------------------------------------------------- a whole stream

  datatype Outcome = Message(bytes: Bytes) | Skipped

  function OutcomeOf(f: Bytes, max: nat): Outcome
    requires |f| >= HEADER
  {
    if Acceptable(f, max) then Message(f) else Skipped
  }

  predicate Frames(fs: seq<Bytes>) {
    forall i | 0 <= i < |fs| :: IsFrame(fs[i])
  }

  function OutcomesOf(fs: seq<Bytes>, max: nat): (os: seq<Outcome>)
    requires Frames(fs)
    ensures |os| == |fs|
  {
    if fs == [] then [] else [OutcomeOf(fs[0], max)] + OutcomesOf(fs[1..], max)
  }

  /** One call and what its caller does with it: a complete message is handed on or its
      skipping is reported, and the reader is emptied. */
  function Received(r: Reader, max: nat, piece: Bytes): (Reader, seq<Outcome>)
    requires r.count >= HEADER ==> |r.buffer| >= HEADER
    requires !r.skipping ==> |r.buffer| == r.count
    requires 0 < |piece| <= ToRead(r)
  {
    var (t, code) := Arrived(r, max, piece);
    if code == Full then (EMPTY, [if t.skipping then Skipped else Message(t.buffer)]) else (t, [])
  }

  predicate Ready(r: Reader, piece: Bytes) {
    && (r.count >= HEADER ==> |r.buffer| >= HEADER)
    && (!r.skipping ==> |r.buffer| == r.count)
    && 0 < |piece| <= ToRead(r)
  }

  /** Every piece is one the socket may return for what was asked. */
  predicate Schedule(r: Reader, max: nat, pieces: seq<Bytes>)
    decreases |pieces|
  {
    pieces == [] || (Ready(r, pieces[0]) && Schedule(Received(r, max, pieces[0]).0, max, pieces[1..]))
  }

  function Outcomes(r: Reader, max: nat, pieces: seq<Bytes>): seq<Outcome>
    requires Schedule(r, max, pieces)
    decreases |pieces|
  {
    if pieces == [] then []
    else
      var (t, os) := Received(r, max, pieces[0]);
      os + Outcomes(t, max, pieces[1..])
  }

  function Concat(bs: seq<Bytes>): Bytes {
    if bs == [] then [] else bs[0] + Concat(bs[1..])
  }

  /** What has been received of a frame is a proper part of it, or all of it. */
  lemma WithinFrame(cur: Bytes, piece: Bytes, f: Bytes, rest: Bytes, r: Reader, max: nat)
    requires Holds(r, max, cur) && 0 < |piece| <= ToRead(r) && IsFrame(f)
    requires cur + piece <= f + rest && |cur| < |f| && cur <= f
    ensures cur + piece <= f
    ensures IsFrame(cur + piece) <==> cur + piece == f
  {
    var now := cur + piece;
    if |cur| >= HEADER {
      assert cur == f[..|cur|];
      HeaderPrefix(cur, f[|cur|..]);
      assert cur + f[|cur|..] == f;
    }
    assert now == (f + rest)[..|now|];
    assert |now| <= |f|;
    assert now == f[..|now|];
    if |now| >= HEADER {
      HeaderPrefix(now, f[|now|..]);
      assert now + f[|now|..] == f;
    }
  }

  /** The outcomes are those of the first n frames, which have arrived completely; the rest of
      what has arrived is part of the next frame. */
  predicate Framed(fs: seq<Bytes>, max: nat, os: seq<Outcome>, arrived: Bytes, n: nat)
    requires Frames(fs)
  {
    && n <= |fs| && os == OutcomesOf(fs[..n], max)
    && Concat(fs[..n]) <= arrived
    && (n < |fs| ==> |arrived| < |Concat(fs[..n])| + |fs[n]|)
  }

  ghost predicate SomeFramed(fs: seq<Bytes>, max: nat, os: seq<Outcome>, arrived: Bytes)
    requires Frames(fs)
  {
    exists n: nat :: Framed(fs, max, os, arrived, n)
  }

  lemma NothingYet(fs: seq<Bytes>, max: nat, arrived: Bytes)
    requires Frames(fs) && (fs != [] ==> |arrived| < |fs[0]|)
    ensures SomeFramed(fs, max, [], arrived)
  {
    assert fs[..0] == [];
    assert Framed(fs, max, [], arrived, 0);
  }

  lemma OneMoreFrame(fs: seq<Bytes>, max: nat, os: seq<Outcome>, arrived: Bytes, n: nat)
    requires Frames(fs) && fs != [] && Framed(fs[1..], max, os, arrived, n)
    ensures Framed(fs, max, [OutcomeOf(fs[0], max)] + os, fs[0] + arrived, n + 1)
  {
    assert fs[..n + 1][1..] == fs[1..][..n];
    assert Concat(fs[..n + 1]) == fs[0] + Concat(fs[1..][..n]);
  }

  /** Where the first piece of the schedule leaves the first frame. */
  lemma FirstPiece(fs: seq<Bytes>, r: Reader, max: nat, cur: Bytes, piece: Bytes, more: Bytes)
    requires Frames(fs) && Holds(r, max, cur) && Ready(r, piece)
    requires cur + (piece + more) <= Concat(fs) && (fs != [] ==> cur <= fs[0] && |cur| < |fs[0]|)
    ensures fs != []
    ensures var (t, os) := Received(r, max, piece);
            if os == [] then Holds(t, max, cur + piece) && cur + piece <= fs[0] && |cur + piece| < |fs[0]|
            else t == EMPTY && os == [OutcomeOf(fs[0], max)] && cur + piece == fs[0] && more <= Concat(fs[1..])
  {
    var now := cur + piece;
    assert cur + (piece + more) == now + more;
    assert fs != [] by {
      assert |Concat(fs)| > 0;
    }
    var f, rest := fs[0], Concat(fs[1..]);
    assert Concat(fs) == f + rest;
    assert now <= f + rest by {
      assert (now + more)[..|now|] == now;
      assert (f + rest)[..|now|] == now;
    }
    WithinFrame(cur, piece, f, rest, r, max);
    PieceArrives(r, max, cur, piece);
    if now == f {
      assert (now + more)[|f|..] == more && (f + rest)[|f|..] == rest;
      assert more == rest[..|more|];
    }
  }

  /** The stream of a list of frames, cut in any way the reads allow: what is read is the
      outcome of every frame that has arrived completely, in order, and nothing else; no read
      takes bytes of two frames. */
  lemma {:induction false} StreamIsFramed(fs: seq<Bytes>, r: Reader, max: nat, cur: Bytes, pieces: seq<Bytes>)
    requires Frames(fs) && Holds(r, max, cur) && Schedule(r, max, pieces)
    requires cur + Concat(pieces) <= Concat(fs) && (fs != [] ==> cur <= fs[0] && |cur| < |fs[0]|)
    ensures SomeFramed(fs, max, Outcomes(r, max, pieces), cur + Concat(pieces))
    decreases |pieces|
  {
    if pieces == [] {
      NothingYet(fs, max, cur + Concat(pieces));
    } else {
      var piece, more := pieces[0], pieces[1..];
      FirstPiece(fs, r, max, cur, piece, Concat(more));
      var t := Received(r, max, piece).0;
      OutcomesUnfold(r, max, pieces);
      SamePieces(cur, pieces);
      if Received(r, max, piece).1 == [] {
        StreamIsFramed(fs, t, max, cur + piece, more);
      } else {
        FrameStarts(fs[1..], Concat(more), max);
        StreamIsFramed(fs[1..], EMPTY, max, [], more);
        NextFrames(fs, max, Outcomes(EMPTY, max, more), Concat(more));
      }
    }
  }

  lemma SamePieces(cur: Bytes, pieces: seq<Bytes>)
    requires pieces != []
    ensures cur + Concat(pieces) == cur + pieces[0] + Concat(pieces[1..])
  {
  }

  lemma OutcomesUnfold(r: Reader, max: nat, pieces: seq<Bytes>)
    requires Schedule(r, max, pieces) && pieces != []
    ensures var (t, os) := Received(r, max, pieces[0]);
            Schedule(t, max, pieces[1..])
            && Outcomes(r, max, pieces) == os + Outcomes(t, max, pieces[1..])
            && (os == [] ==> Outcomes(r, max, pieces) == Outcomes(t, max, pieces[1..]))
  {
  }

  lemma NextFrames(fs: seq<Bytes>, max: nat, os: seq<Outcome>, stream: Bytes)
    requires Frames(fs) && fs != [] && SomeFramed(fs[1..], max, os, [] + stream)
    ensures SomeFramed(fs, max, [OutcomeOf(fs[0], max)] + os, fs[0] + stream)
  {
    assert [] + stream == stream;
    var n: nat :| Framed(fs[1..], max, os, stream, n);
    OneMoreFrame(fs, max, os, stream, n);
  }

  /** From the start of a connection. */
  lemma {:induction false} FramingRoundTrip(fs: seq<Bytes>, max: nat, pieces: seq<Bytes>)
    requires Frames(fs) && max >= HEADER && Schedule(EMPTY, max, pieces) && Concat(pieces) <= Concat(fs)
    ensures exists n: nat :: n <= |fs| && Outcomes(EMPTY, max, pieces) == OutcomesOf(fs[..n], max)
    ensures Concat(pieces) == Concat(fs) ==> Outcomes(EMPTY, max, pieces) == OutcomesOf(fs, max)
  {
    FrameStarts(fs, Concat(pieces), max);
    StreamIsFramed(fs, EMPTY, max, [], pieces);
    assert [] + Concat(pieces) == Concat(pieces);
    var n: nat :| Framed(fs, max, Outcomes(EMPTY, max, pieces), Concat(pieces), n);
    if Concat(pieces) == Concat(fs) && n < |fs| {
      ConcatMonotone(fs, n);
    }
    assert fs[..|fs|] == fs;
  }

  lemma {:induction false} ConcatMonotone(fs: seq<Bytes>, n: nat)
    requires n < |fs|
    ensures |Concat(fs)| >= |Concat(fs[..n])| + |fs[n]|
  {
    if n > 0 {
      ConcatMonotone(fs[1..], n - 1);
      assert fs[..n][1..] == fs[1..][..n - 1];
    } else {
      assert fs[..0] == [];
    }
  }

  lemma FrameStarts(fs: seq<Bytes>, stream: Bytes, max: nat)
    requires Frames(fs) && stream <= Concat(fs) && max >= HEADER
    ensures Holds(EMPTY, max, []) && [] + stream <= Concat(fs) && (fs != [] ==> [] <= fs[0] && 0 < |fs[0]|)
  {
    assert [] + stream == stream;
  }

  // ---------------------------------------------------------------- the socket calls

  datatype Answer = Closed | WouldBlock | Failure | Data(bytes: Bytes)

  /** A connection's receive state, as the reading code changes it in place. */
  class Receiver {
    const max: nat
    var buffer: Bytes
    var count: nat
    var skipping: bool

    function View(): Reader
      reads this
    {
      Reader(buffer, count, skipping)
    }

    constructor (max: nat)
      ensures View() == EMPTY && this.max == max
    {
      this.max := max;
      buffer, count, skipping := [], 0, false;
    }

    /** The return codes: 1 message complete, 0 nothing complete, -1 closed, -2 error, -3 the
        header cannot be stored, -4 the message cannot, -5 unknown type, -6 too long. */
    method Read(answer: Answer, ghost cur: Bytes) returns (ret: int)
      requires Holds(View(), max, cur)
      requires answer.Data? ==> 0 < |answer.bytes| <= ToRead(View())
      modifies this
      ensures answer.Closed? ==> ret == -1 && View() == old(View())
      ensures answer.Failure? ==> ret == -2 && View() == old(View())
      ensures answer.WouldBlock? ==> ret == 0 && View() == old(View())
      ensures answer.Data? ==>
                var (t, code) := Arrived(old(View()), max, answer.bytes);
                View() == t && ret == match code
                                      case Full => 1
                                      case Partial => 0
                                      case InvalidType => -5
                                      case TooLong => -6
                                      case CannotStore => -4
      ensures ret != -3 && ret != -4
    {
      ret := 0;
      match answer {
        case Closed => ret := -1;
        case Failure => ret := -2;
        case WouldBlock =>
        case Data(bytes) =>
          PieceArrives(View(), max, cur, bytes);
          count := count + |bytes|;
          if !skipping {
            var storable := |buffer| + |bytes| <= max;
            if storable {
              buffer := buffer + bytes;
            } else {
              ret := -4;
            }
            skipping := !storable;
          }
          if skipping && count < HEADER {
            return -3;
          }
          if !skipping && count == HEADER {
            if !TypeKnown(buffer) {
              skipping := true;
              ret := -5;
            } else if HEADER + BodyLength(buffer) > max {
              skipping := true;
              ret := -6;
            }
          }
          if count >= HEADER && count == HEADER + BodyLength(buffer) {
            ret := 1;
          }
      }
    }
  }

  datatype SendAnswer = Taken(bytes: nat) | SendBlocks | SendFails

  /** One write: some bytes of the message leave; 1 when all have left, 0 when more is to come,
      -1 when nothing was taken, -2 for an error. */
  method Write(msg: Bytes, alreadySent: nat, answer: SendAnswer) returns (ret: int, sent: nat, ghost wire: Bytes)
    requires alreadySent < |msg|
    requires answer.Taken? ==> answer.bytes <= LOCAL_BUFFER && answer.bytes <= |msg| - alreadySent
    ensures sent == alreadySent + (if answer.Taken? then answer.bytes else 0) && wire == msg[alreadySent..sent]
    ensures ret == 1 <==> sent == |msg|
    ensures ret == -1 <==> answer == Taken(0)
    ensures ret == -2 <==> answer.SendFails?
    ensures ret == 0 || ret == 1 || ret == -1 || ret == -2
  {
    sent := alreadySent;
    ret := 0;
    match answer {
      case Taken(n) =>
        if n > 0 {
          sent := sent + n;
          if sent == |msg| {
            ret := 1;
          }
        } else {
          ret := -1;
        }
      case SendBlocks =>
      case SendFails => ret := -2;
    }
    wire := msg[alreadySent..sent];
  }

  /** Messages queued on a connection; `sent` bytes of the first have left. */
  datatype Sender = Sender(queue: seq<Bytes>, sent: nat)

  predicate MaySend(s: Sender, n: nat) {
    s.queue != [] && s.sent + n <= |s.queue[0]| && n <= LOCAL_BUFFER
  }

  /** One write of n bytes; a message that has left completely makes room for the next. */
  function Sent(s: Sender, n: nat): (Sender, Bytes)
    requires MaySend(s, n)
  {
    var wire := s.queue[0][s.sent..s.sent + n];
    if s.sent + n == |s.queue[0]| then (Sender(s.queue[1..], 0), wire) else (s.(sent := s.sent + n), wire)
  }

  function ToSend(s: Sender): Bytes
    requires s.queue != [] ==> s.sent <= |s.queue[0]|
  {
    if s.queue == [] then [] else s.queue[0][s.sent..] + Concat(s.queue[1..])
  }

  predicate Writes(s: Sender, ns: seq<nat>)
    decreases |ns|
  {
    ns == [] || (MaySend(s, ns[0]) && Writes(Sent(s, ns[0]).0, ns[1..]))
  }

  function Wire(s: Sender, ns: seq<nat>): Bytes
    requires Writes(s, ns)
    decreases |ns|
  {
    if ns == [] then [] else Sent(s, ns[0]).1 + Wire(Sent(s, ns[0]).0, ns[1..])
  }

  lemma SentContinues(s: Sender, n: nat)
    requires MaySend(s, n)
    ensures var (t, wire) := Sent(s, n);
            (t.queue != [] ==> t.sent <= |t.queue[0]|) && ToSend(s) == wire + ToSend(t)
  {
    var (t, wire) := Sent(s, n);
    var q := s.queue[0];
    assert q[s.sent..] == wire + q[s.sent + n..];
    if s.sent + n == |q| && s.queue[1..] != [] {
      assert s.queue[1..][0][0..] == s.queue[1..][0];
    }
  }

  /** However the messages are cut into writes, the wire carries a prefix of their bytes. */
  lemma {:induction false} WireIsPrefix(s: Sender, ns: seq<nat>)
    requires Writes(s, ns) && (s.queue != [] ==> s.sent <= |s.queue[0]|)
    ensures Wire(s, ns) <= ToSend(s)
    decreases |ns|
  {
    if ns != [] {
      SentContinues(s, ns[0]);
      WireIsPrefix(Sent(s, ns[0]).0, ns[1..]);
    }
  }

  /** Any schedule of partial writes and partial reads: the reader completes, in order, exactly
      the outcomes of a prefix of the messages that were queued. */
  lemma SocketRoundTrip(fs: seq<Bytes>, max: nat, ns: seq<nat>, pieces: seq<Bytes>)
    requires Frames(fs) && max >= HEADER && Writes(Sender(fs, 0), ns)
    requires Schedule(EMPTY, max, pieces) && Concat(pieces) <= Wire(Sender(fs, 0), ns)
    ensures exists n: nat :: n <= |fs| && Outcomes(EMPTY, max, pieces) == OutcomesOf(fs[..n], max)
  {
    WireIsPrefix(Sender(fs, 0), ns);
    assert ToSend(Sender(fs, 0)) == Concat(fs) by {
      if fs != [] {
        assert fs[0][0..] == fs[0];
      }
    }
    FramingRoundTrip(fs, max, pieces);
  }
}
