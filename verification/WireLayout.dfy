/**
 What is on the wire, byte by byte: the frames of the protocols and the values of RPC. Written out here
 in plain numbers, so that both ends cannot agree on something else.
 */
module WireLayout {
  import opened Bytes
  import opened Framing
  import Serialization
  import opened Prelude

  // -------------------------------------------------------------------------
  // Frames
  // -------------------------------------------------------------------------

  /** Four bytes, the most significant first. */
  predicate BigEndian(bytes: seq<byte>, value: nat) {
    |bytes| == 4 &&
    var b0: nat, b1: nat, b2: nat, b3: nat := bytes[0], bytes[1], bytes[2], bytes[3];
    value == b0 * 16777216 + b1 * 65536 + b2 * 256 + b3
  }

  /** Type, id, acknowledgement and length, 13 bytes in all, and then the payload. */
  predicate LaidOut(bytes: seq<byte>, frame: Frame) {
    && |bytes| == 13 + |frame.data|
    && bytes[0] == frame.kind
    && BigEndian(bytes[1..5], frame.id)
    && BigEndian(bytes[5..9], frame.ack)
    && BigEndian(bytes[9..13], |frame.data|)
    && bytes[13..] == frame.data
  }

  lemma WordIsBigEndian(value: nat)
    requires value < WORD
    ensures BigEndian(WordBytes(value), value)
  {
    WordRoundTrip(value);
  }

  /** A frame is written so, and a frame is read exactly from bytes that begin so. */
  lemma FrameLayout(bytes: seq<byte>, frame: Frame)
    ensures FitsWire(frame) ==> LaidOut(Encode(frame), frame)
    ensures Head(bytes) == Some(frame) <==> exists n: nat :: n <= |bytes| && LaidOut(bytes[..n], frame)
    ensures REGULAR == 1 && ACK == 3 && DISCONNECT == 5 && KEEP_ALIVE == 9
  {
    if FitsWire(frame) {
      WrittenLayout(frame);
    }
    if Head(bytes) == Some(frame) {
      HeadIsEncoded(bytes);
      WrittenLayout(frame);
      assert bytes[..FrameLength(frame)] == Encode(frame);
    }
    if n: nat :| n <= |bytes| && LaidOut(bytes[..n], frame) {
      ReadLayout(bytes, frame, n);
    }
  }

  lemma WrittenLayout(frame: Frame)
    requires FitsWire(frame)
    ensures LaidOut(Encode(frame), frame)
  {
    hide WordBytes, BigEndian;
    var bytes := Encode(frame);
    assert bytes[1..5] == WordBytes(frame.id);
    assert bytes[5..9] == WordBytes(frame.ack);
    assert bytes[9..13] == WordBytes(|frame.data|);
    WordIsBigEndian(frame.id);
    WordIsBigEndian(frame.ack);
    WordIsBigEndian(|frame.data|);
  }

  lemma ReadLayout(bytes: seq<byte>, frame: Frame, n: nat)
    requires n <= |bytes| && LaidOut(bytes[..n], frame)
    ensures Head(bytes) == Some(frame)
  {
    var front := bytes[..n];
    assert front[1..5] == bytes[1..5] && front[5..9] == bytes[5..9] && front[9..13] == bytes[9..13];
    assert front[13..] == bytes[13..n];
    assert WordValue(bytes[1..5]) == frame.id && WordValue(bytes[5..9]) == frame.ack && WordValue(bytes[9..13]) == |frame.data|;
  }

  /** Of a run of frames, listeners of the plain protocol see the payloads of type 1, in order, and of no other type. */
  lemma RegularsAreFired(before: seq<Frame>, frame: Frame, after: seq<Frame>)
    ensures Bodies(before + ([frame] + after)) == Bodies(before) + ((if frame.kind == 1 then [frame.data] else []) + Bodies(after))
    ensures Bodies([]) == []
  {
    BodiesConcat(before, [frame] + after);
    assert ([frame] + after)[1..] == after;
  }

  // -------------------------------------------------------------------------
  // Values
  // -------------------------------------------------------------------------

  /** The number that seven bits of each byte make, the first byte the least significant. */
  function SevenBits(bytes: seq<byte>): nat {
    if bytes == [] then 0 else bytes[0] % 128 + 128 * SevenBits(bytes[1..])
  }

  /** A number in as few such bytes as it takes, all but the last marked. */
  predicate IsVql(bytes: seq<byte>, value: nat) {
    && bytes != [] && SevenBits(bytes) == value
    && (forall i :: 0 <= i < |bytes| ==> (bytes[i] >= 128 <==> i < |bytes| - 1))
    && (|bytes| > 1 ==> bytes[|bytes| - 1] != 0)
  }

  lemma {:induction false} VqlLayout(u: nat)
    ensures IsVql(Serialization.EncodeVql(u), u)
    decreases u
  {
    if u < 128 {
      assert SevenBits([u]) == u % 128 + 128 * SevenBits([]) by { assert [u][1..] == []; }
    } else {
      VqlLayout(u / 128);
      var first, rest := 128 + u % 128, Serialization.EncodeVql(u / 128);
      var bytes := [first] + rest;
      assert bytes[1..] == rest && first % 128 == u % 128;
      assert SevenBits(bytes) == u % 128 + 128 * (u / 128);
      forall i | 0 <= i < |bytes| ensures bytes[i] >= 128 <==> i < |bytes| - 1 {
        if i > 0 {
          assert bytes[i] == rest[i - 1];
        }
      }
    }
  }

  /** A type, a number, and what follows it. */
  ghost predicate IsTagged(bytes: seq<byte>, tag: nat, number: nat, rest: seq<byte>) {
    exists n :: 1 <= n <= |bytes| && bytes[0] == tag && IsVql(bytes[1..n], number) && bytes[n..] == rest
  }

  /** The encodings of some values, one after the other. */
  function Joined(parts: seq<seq<byte>>): seq<byte> {
    if parts == [] then [] else parts[0] + Joined(parts[1..])
  }

  /** The bytes of a value: its type, and a length or the number itself modulo 2^32. */
  ghost predicate ValueLaidOut(bytes: seq<byte>, v: Serialization.Value)
    decreases v
  {
    match v
    case Undefined => bytes == [0]
    case Text(utf8) => IsTagged(bytes, 1, |utf8|, utf8)
    case Buffer(data) => IsTagged(bytes, 2, |data|, data)
    case VSBuffer(data) => IsTagged(bytes, 3, |data|, data)
    case List(items) =>
      exists parts: seq<seq<byte>> ::
        && |parts| == |items| && IsTagged(bytes, 4, |items|, Joined(parts))
        && forall i :: 0 <= i < |items| ==> ValueLaidOut(parts[i], items[i])
    case Json(utf8) => IsTagged(bytes, 5, |utf8|, utf8)
    case Int(number) => IsTagged(bytes, 6, number % 4294967296, [])
  }

  lemma Tagged(tag: byte, number: nat, rest: seq<byte>)
    ensures IsTagged([tag] + (Serialization.EncodeVql(number) + rest), tag, number, rest)
  {
    VqlLayout(number);
    hide IsVql, Serialization.EncodeVql;
    var head := Serialization.EncodeVql(number);
    var bytes, n := [tag] + (head + rest), 1 + |head|;
    assert bytes[1..n] == head && bytes[n..] == rest;
  }

  /** Every value is encoded so. */
  lemma {:induction false} ValueLayout(v: Serialization.Value)
    ensures ValueLaidOut(Serialization.Encode(v), v)
    decreases v
  {
    hide IsTagged, Serialization.EncodeVql;
    match v
    case Undefined =>
    case Text(utf8) => Tagged(1, |utf8|, utf8);
    case Buffer(data) => Tagged(2, |data|, data);
    case VSBuffer(data) => Tagged(3, |data|, data);
    case Json(utf8) => Tagged(5, |utf8|, utf8);
    case Int(number) =>
      Tagged(6, number % 4294967296, []);
      assert Serialization.EncodeVql(number % 4294967296) + [] == Serialization.EncodeVql(number % 4294967296);
    case List(items) =>
      var parts := ItemsLayout(items);
      Tagged(4, |items|, Joined(parts));
  }

  lemma {:induction false} ItemsLayout(items: seq<Serialization.Value>) returns (parts: seq<seq<byte>>)
    ensures |parts| == |items| && Serialization.EncodeItems(items) == Joined(parts)
    ensures forall i :: 0 <= i < |items| ==> ValueLaidOut(parts[i], items[i])
    decreases items
  {
    if items == [] {
      parts := [];
    } else {
      ValueLayout(items[0]);
      var rest := ItemsLayout(items[1..]);
      parts := [Serialization.Encode(items[0])] + rest;
      assert parts[1..] == rest;
      hide ValueLaidOut;
      forall i | 0 <= i < |items| ensures ValueLaidOut(parts[i], items[i]) {
        if i > 0 {
          assert items[1..][i - 1] == items[i];
        }
      }
    }
  }

  // -------------------------------------------------------------------------
  // Reading what is not well-formed
  // -------------------------------------------------------------------------

  /** Where `slice` puts a bound: a negative one counts from the back, and none lies outside. */
  function Bound(length: nat, at: int): nat {
    if at < 0 then (if length + at < 0 then 0 else length + at) else if at > length then length else at
  }

  function Sliced(buffer: seq<byte>, start: int, end: int): seq<byte> {
    var from, to := Bound(|buffer|, start), Bound(|buffer|, end);
    if from < to then buffer[from..to] else []
  }

  /** Reading so many bytes at a cursor is that slice, and the cursor moves by what it gave; for any count. */
  lemma ReadIsSlice(buffer: seq<byte>, pos: nat, count: int)
    requires pos <= |buffer|
    ensures var (bytes, left) := Serialization.Take(buffer[pos..], |buffer|, count);
      bytes == Sliced(buffer, pos, pos + count) && left == buffer[pos + |bytes|..]
  {
  }

  predicate Bit(a: nat, k: nat)
    decreases k
  {
    if k == 0 then a % 2 == 1 else Bit(a / 2, k - 1)
  }

  /** The bits of one number or the other. */
  lemma {:induction false} OrIsBitwise(a: nat, b: nat, k: nat)
    ensures Bit(Serialization.Or(a, b), k) <==> Bit(a, k) || Bit(b, k)
    decreases k
  {
    if a == 0 || b == 0 {
      NoBits(k);
    } else {
      var low := if a % 2 == 1 || b % 2 == 1 then 1 else 0;
      var high := Serialization.Or(a / 2, b / 2);
      assert Serialization.Or(a, b) == low + 2 * high;
      assert (low + 2 * high) % 2 == low && (low + 2 * high) / 2 == high;
      if k > 0 {
        OrIsBitwise(a / 2, b / 2, k - 1);
      }
    }
  }

  lemma {:induction false} NoBits(k: nat)
    ensures !Bit(0, k)
  {
    if k > 0 {
      NoBits(k - 1);
    }
  }

  /** Nothing to read, or a type that is not known, is undefined, and of it nothing but the type is read; a length below one is an empty list. */
  lemma UnknownIsUndefined(rest: seq<byte>, total: nat)
    ensures rest == [] ==> Serialization.Decode(rest, total) == (Serialization.Undefined, [])
    ensures rest != [] && (rest[0] == 0 || rest[0] > 6) ==> Serialization.Decode(rest, total) == (Serialization.Undefined, rest[1..])
    ensures rest != [] && rest[0] == 4 && Serialization.ReadInt(rest[1..]).0 <= 0 ==>
      Serialization.Decode(rest, total) == (Serialization.List([]), Serialization.ReadInt(rest[1..]).1)
  {
  }
}
