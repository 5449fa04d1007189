/**
 The frames that `SocketProtocol` and `PersistentProtocol` put on a byte stream:
 a header of 13 bytes (type, id, ack, payload length) and then the payload.
 */
module Framing {
  import opened Bytes
  import opened Prelude

  const HEADER_SIZE := 13

  // The frame types the protocols act on; any other type byte is read and ignored.
  const REGULAR: byte := 1
  const ACK: byte := 3
  const DISCONNECT: byte := 5
  const KEEP_ALIVE: byte := 9

  datatype Frame = Frame(kind: byte, id: nat, ack: nat, data: seq<byte>)

  /** The frames whose numbers fit their fields. */
  predicate FitsWire(frame: Frame) {
    frame.id < WORD && frame.ack < WORD && |frame.data| < WORD
  }

  function FrameLength(frame: Frame): nat {
    HEADER_SIZE + |frame.data|
  }

  function Encode(frame: Frame): (bytes: seq<byte>)
    ensures |bytes| == FrameLength(frame)
  {
    [frame.kind] + WordBytes(frame.id) + WordBytes(frame.ack) + WordBytes(|frame.data|) + frame.data
  }

  function EncodeAll(frames: seq<Frame>): seq<byte> {
    if frames == [] then [] else Encode(frames[0]) + EncodeAll(frames[1..])
  }

  /** The frame at the front of a stream, once all of its bytes are there. */
  function Head(bytes: seq<byte>): Option<Frame> {
    if |bytes| < HEADER_SIZE then None else
    var length := WordValue(bytes[9..13]);
    if |bytes| < HEADER_SIZE + length then None else
    Some(Frame(bytes[0], WordValue(bytes[1..5]), WordValue(bytes[5..9]), bytes[HEADER_SIZE..HEADER_SIZE + length]))
  }

  /** Everything that can be read from the front of a stream. */
  function Frames(bytes: seq<byte>): seq<Frame>
    decreases |bytes|
  {
    match Head(bytes)
    case None => []
    case Some(frame) => [frame] + Frames(bytes[FrameLength(frame)..])
  }

  /** What stays in the buffer after that. */
  function Rest(bytes: seq<byte>): seq<byte>
    decreases |bytes|
  {
    match Head(bytes)
    case None => bytes
    case Some(frame) => Rest(bytes[FrameLength(frame)..])
  }

  function BodyOf(frame: Frame): seq<seq<byte>> {
    if frame.kind == REGULAR then [frame.data] else []
  }

  /** The payloads a listener sees. */
  function Bodies(frames: seq<Frame>): seq<seq<byte>> {
    if frames == [] then [] else BodyOf(frames[0]) + Bodies(frames[1..])
  }

  // -------------------------------------------------------------------------
  // One frame
  // -------------------------------------------------------------------------

  /** Reading undoes writing, whatever follows on the stream. */
  lemma HeadOfEncoded(frame: Frame, tail: seq<byte>)
    requires FitsWire(frame)
    ensures Head(Encode(frame) + tail) == Some(frame)
    ensures (Encode(frame) + tail)[FrameLength(frame)..] == tail
  {
    hide WordBytes, WordValue;
    var bytes := Encode(frame) + tail;
    WordRoundTrip(frame.id);
    WordRoundTrip(frame.ack);
    WordRoundTrip(|frame.data|);
    assert bytes[1..5] == WordBytes(frame.id);
    assert bytes[5..9] == WordBytes(frame.ack);
    assert bytes[9..13] == WordBytes(|frame.data|);
    assert bytes[HEADER_SIZE..HEADER_SIZE + |frame.data|] == frame.data;
  }

  /** Writing undoes reading: the bytes consumed are the frame's own encoding. */
  lemma HeadIsEncoded(bytes: seq<byte>)
    requires Head(bytes).Some?
    ensures FitsWire(Head(bytes).value)
    ensures |bytes| >= FrameLength(Head(bytes).value)
    ensures bytes == Encode(Head(bytes).value) + bytes[FrameLength(Head(bytes).value)..]
  {
    BytesRoundTrip(bytes[1..5]);
    BytesRoundTrip(bytes[5..9]);
    BytesRoundTrip(bytes[9..13]);
    assert bytes[..HEADER_SIZE] == [bytes[0]] + bytes[1..5] + bytes[5..9] + bytes[9..13];
  }

  /** A complete frame does not change when more bytes arrive. */
  lemma HeadStable(bytes: seq<byte>, more: seq<byte>)
    requires Head(bytes).Some?
    ensures Head(bytes + more) == Head(bytes)
    ensures (bytes + more)[FrameLength(Head(bytes).value)..] == bytes[FrameLength(Head(bytes).value)..] + more
  {
    var all := bytes + more;
    assert all[1..5] == bytes[1..5];
    assert all[5..9] == bytes[5..9];
    assert all[9..13] == bytes[9..13];
    var end := FrameLength(Head(bytes).value);
    assert all[HEADER_SIZE..end] == bytes[HEADER_SIZE..end];
  }

  // -------------------------------------------------------------------------
  // Many frames
  // -------------------------------------------------------------------------

  /** Nothing is invented and nothing is dropped: the input is what was read, re-encoded, then the rest. */
  lemma {:induction false} ReadingConserves(bytes: seq<byte>)
    ensures bytes == EncodeAll(Frames(bytes)) + Rest(bytes)
    ensures Head(Rest(bytes)) == None
    decreases |bytes|
  {
    if Head(bytes).Some? {
      var frame := Head(bytes).value;
      HeadIsEncoded(bytes);
      ReadingConserves(bytes[FrameLength(frame)..]);
      assert Frames(bytes)[1..] == Frames(bytes[FrameLength(frame)..]);
    }
  }

  /** Reading in two goes is reading in one. */
  lemma {:induction false} ReadingSplits(bytes: seq<byte>, more: seq<byte>)
    ensures Frames(bytes + more) == Frames(bytes) + Frames(Rest(bytes) + more)
    ensures Rest(bytes + more) == Rest(Rest(bytes) + more)
    decreases |bytes|
  {
    if Head(bytes).Some? {
      HeadStable(bytes, more);
      ReadingSplits(bytes[FrameLength(Head(bytes).value)..], more);
    }
  }

  lemma NothingToRead(bytes: seq<byte>)
    requires |bytes| < HEADER_SIZE || Head(bytes) == None
    ensures Head(bytes) == None
    ensures Frames(bytes) == [] && Bodies(Frames(bytes)) == [] && Rest(bytes) == bytes
  {
  }

  lemma ReadingStep(bytes: seq<byte>, frame: Frame)
    requires Head(bytes) == Some(frame)
    ensures Frames(bytes) == [frame] + Frames(bytes[FrameLength(frame)..])
    ensures Bodies(Frames(bytes)) == BodyOf(frame) + Bodies(Frames(bytes[FrameLength(frame)..]))
    ensures Rest(bytes) == Rest(bytes[FrameLength(frame)..])
  {
    assert Frames(bytes)[1..] == Frames(bytes[FrameLength(frame)..]);
  }

  /** The two length tests of the read loops decide whether there is a frame to read. */
  lemma HeaderDecides(bytes: seq<byte>, header: seq<byte>)
    requires |bytes| >= HEADER_SIZE && header == bytes[..HEADER_SIZE]
    ensures header[1..5] == bytes[1..5] && header[5..9] == bytes[5..9] && header[9..13] == bytes[9..13]
    ensures Head(bytes).Some? <==> |bytes| >= HEADER_SIZE + WordValue(header[9..13])
    ensures Head(bytes).Some? ==>
      && Head(bytes).value.kind == header[0]
      && Head(bytes).value.id == WordValue(header[1..5])
      && Head(bytes).value.ack == WordValue(header[5..9])
      && FrameLength(Head(bytes).value) == HEADER_SIZE + WordValue(header[9..13])
      && Head(bytes).value.data == bytes[HEADER_SIZE..][..WordValue(header[9..13])]
      && bytes[HEADER_SIZE..][WordValue(header[9..13])..] == bytes[FrameLength(Head(bytes).value)..]
  {
    hide WordValue;
    assert header[9..13] == bytes[9..13];
  }

  lemma EncodeAllFirst(frames: seq<Frame>, tail: seq<byte>)
    requires frames != [] && FitsWire(frames[0])
    ensures Head(EncodeAll(frames) + tail) == Some(frames[0])
    ensures (EncodeAll(frames) + tail)[FrameLength(frames[0])..] == EncodeAll(frames[1..]) + tail
  {
    assert EncodeAll(frames) + tail == Encode(frames[0]) + (EncodeAll(frames[1..]) + tail);
    HeadOfEncoded(frames[0], EncodeAll(frames[1..]) + tail);
  }

  lemma {:induction false} ReadingEncoded(frames: seq<Frame>, tail: seq<byte>)
    requires forall i :: 0 <= i < |frames| ==> FitsWire(frames[i])
    ensures Frames(EncodeAll(frames) + tail) == frames + Frames(tail)
    ensures Rest(EncodeAll(frames) + tail) == Rest(tail)
  {
    hide WordBytes, WordValue, Head, Encode, Frames, Rest;
    if frames == [] {
      assert EncodeAll(frames) + tail == tail;
    } else {
      var bytes, after := EncodeAll(frames) + tail, EncodeAll(frames[1..]) + tail;
      EncodeAllFirst(frames, tail);
      assert Frames(bytes) == [frames[0]] + Frames(after) && Rest(bytes) == Rest(after) by {
        ReadingStep(bytes, frames[0]);
      }
      ReadingEncoded(frames[1..], tail);
      assert [frames[0]] + (frames[1..] + Frames(tail)) == frames + Frames(tail);
    }
  }

  lemma {:induction false} EncodeAllConcat(left: seq<Frame>, right: seq<Frame>)
    ensures EncodeAll(left + right) == EncodeAll(left) + EncodeAll(right)
  {
    hide Encode;
    if left == [] {
      assert left + right == right;
    } else {
      EncodeAllConcat(left[1..], right);
      assert (left + right)[1..] == left[1..] + right && (left + right)[0] == left[0];
      var first, middle, last := Encode(left[0]), EncodeAll(left[1..]), EncodeAll(right);
      assert first + (middle + last) == (first + middle) + last;
    }
  }

  lemma {:induction false} BodiesConcat(left: seq<Frame>, right: seq<Frame>)
    ensures Bodies(left + right) == Bodies(left) + Bodies(right)
  {
    hide BodyOf;
    if left == [] {
      assert left + right == right;
    } else {
      BodiesConcat(left[1..], right);
      assert (left + right)[1..] == left[1..] + right && (left + right)[0] == left[0];
      var first, middle, last := BodyOf(left[0]), Bodies(left[1..]), Bodies(right);
      assert first + (middle + last) == (first + middle) + last;
    }
  }

  /**
   A reader that holds only the beginning of a run of encoded frames reads, if anything, the
   first of those frames, and then holds the beginning of the others.
   */
  lemma HeadOfPrefix(buffer: seq<byte>, missing: seq<byte>, frames: seq<Frame>)
    requires frames != [] ==> FitsWire(frames[0])
    requires buffer + missing == EncodeAll(frames)
    requires Head(buffer).Some?
    ensures frames != [] && Head(buffer) == Some(frames[0])
    ensures buffer[FrameLength(frames[0])..] + missing == EncodeAll(frames[1..])
  {
    HeadIsEncoded(buffer);
    assert frames != [];
    hide WordBytes, WordValue, Head, Encode, EncodeAll;
    HeadStable(buffer, missing);
    EncodeAllFirst(frames, []);
    assert EncodeAll(frames) + [] == buffer + missing;
    assert EncodeAll(frames[1..]) + [] == EncodeAll(frames[1..]);
  }

  /** `writeProtocolMessage`: header fields and payload written into one allocated buffer. */
  method WriteProtocolMessage(msg: Frame) returns (bytes: seq<byte>)
    ensures bytes == Encode(msg)
  {
    hide WordBytes, Overwrite;
    var result := new byte[HEADER_SIZE + |msg.data|](_ => 0);
    OverwriteExtends(result[..], [msg.kind], 0);
    WriteUInt8(result, msg.kind, 0);
    OverwriteExtends(result[..], WordBytes(msg.id), 1);
    WriteUInt32BE(result, msg.id, 1);
    OverwriteExtends(result[..], WordBytes(msg.ack), 5);
    WriteUInt32BE(result, msg.ack, 5);
    OverwriteExtends(result[..], WordBytes(|msg.data|), 9);
    WriteUInt32BE(result, |msg.data|, 9);
    OverwriteExtends(result[..], msg.data, HEADER_SIZE);
    CopyInto(result, msg.data, HEADER_SIZE);
    bytes := result[..];
    assert bytes == bytes[..HEADER_SIZE + |msg.data|];
  }
}
