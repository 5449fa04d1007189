/**
 The binary encoding of RPC values: a type byte, a variable-length length, the data.

 A string is kept as its UTF-8 bytes, and a value that goes through JSON as the UTF-8 bytes of its
 JSON text; the conversions to and from those bytes are not part of this model. Reading is specified
 on every input, with the behaviour of `slice` and of 32-bit shifts on malformed ones.
 */
module Serialization {
  import opened Bytes
  import opened Prelude

  datatype Value =
    | Undefined
    | Text(utf8: seq<byte>)
    | Buffer(bytes: seq<byte>)
    | VSBuffer(bytes: seq<byte>)
    | List(items: seq<Value>)
    | Json(utf8: seq<byte>)
    | Int(number: int)

  const HALF := 0x8000_0000

  /** The values a round trip is promised for: int32 integers, and lengths an int32 can hold. */
  predicate Representable(v: Value)
    decreases v
  {
    match v
    case Undefined => true
    case Text(utf8) => |utf8| < HALF
    case Buffer(bytes) => |bytes| < HALF
    case VSBuffer(bytes) => |bytes| < HALF
    case List(items) => |items| < HALF && forall i :: 0 <= i < |items| ==> Representable(items[i])
    case Json(utf8) => |utf8| < HALF
    case Int(number) => -HALF <= number < HALF
  }

  // -------------------------------------------------------------------------
  // 32-bit arithmetic
  // -------------------------------------------------------------------------

  function ToUint32(n: int): (u: nat)
    ensures u < WORD
  {
    n % WORD
  }

  function ToInt32(u: nat): (n: int)
    ensures -HALF <= n < HALF
  {
    var low := u % WORD;
    if low < HALF then low else low - WORD
  }

  lemma Int32RoundTrip(n: int)
    requires -HALF <= n < HALF
    ensures ToInt32(ToUint32(n)) == n
  {
  }

  /** Bitwise or. */
  function Or(a: nat, b: nat): nat
    decreases a + b
  {
    if a == 0 then b else if b == 0 then a
    else (if a % 2 == 1 || b % 2 == 1 then 1 else 0) + 2 * Or(a / 2, b / 2)
  }

  /** `bits << count`, on 32 bits, the count taken modulo 32. */
  function ShiftLeft(bits: nat, count: nat): nat {
    (bits * Pow2(count % 32)) % WORD
  }

  /** Bits above a number's own are or-ed in by adding. */
  lemma {:induction false} OrAbove(a: nat, x: nat, n: nat)
    requires a < Pow2(n)
    ensures Or(a, x * Pow2(n)) == a + x * Pow2(n)
    decreases n
  {
    if n == 0 {
      assert a == 0;
    } else {
      var y := x * Pow2(n - 1);
      assert x * Pow2(n) == 2 * y;
      OrAbove(a / 2, x, n - 1);
    }
  }

  // -------------------------------------------------------------------------
  // Variable-length integers
  // -------------------------------------------------------------------------

  /** Seven bits a byte, lowest first, the top bit set on all but the last. */
  function EncodeVql(u: nat): (bytes: seq<byte>)
    ensures |bytes| >= 1
  {
    if u < 128 then [u] else [128 + u % 128] + EncodeVql(u / 128)
  }

  /** `readIntVQL` from a shift of `n` on: the number so far and what is left. Past the end a byte reads as none. */
  function DecodeVql(rest: seq<byte>, n: nat, value: nat): (r: (nat, seq<byte>))
    ensures |r.1| <= |rest|
    decreases |rest|
  {
    if rest == [] then (value, [])
    else
      var value' := Or(value, ShiftLeft(rest[0] % 128, n));
      if rest[0] < 128 then (value', rest[1..]) else DecodeVql(rest[1..], n + 7, value')
  }

  function ReadInt(rest: seq<byte>): (r: (int, seq<byte>))
    ensures |r.1| <= |rest| && -HALF <= r.0 < HALF
  {
    var (u, left) := DecodeVql(rest, 0, 0);
    (ToInt32(u), left)
  }

  lemma Pow2Values()
    ensures Pow2(0) == 1 && Pow2(7) == 128 && Pow2(14) == 0x4000 && Pow2(21) == 0x20_0000 && Pow2(28) == 0x1000_0000
  {
    assert Pow2(3) == 8 && Pow2(7) == 16 * Pow2(3);
    assert Pow2(10) == 8 * Pow2(7) && Pow2(14) == 16 * Pow2(10);
    assert Pow2(17) == 8 * Pow2(14) && Pow2(21) == 16 * Pow2(17);
    assert Pow2(24) == 8 * Pow2(21) && Pow2(28) == 16 * Pow2(24);
  }

  lemma {:induction false} Pow2Plus7(n: nat)
    ensures Pow2(n + 7) == 128 * Pow2(n)
  {
    assert Pow2(n + 2) == 4 * Pow2(n);
    assert Pow2(n + 4) == 4 * Pow2(n + 2);
    assert Pow2(n + 6) == 4 * Pow2(n + 4);
  }

  /** How far the byte being read is shifted. */
  predicate IsShift(n: nat) {
    n == 0 || n == 7 || n == 14 || n == 21 || n == 28
  }

  /** One byte of seven bits goes above the bits already read. */
  lemma VqlStep(d: nat, n: nat, value: nat)
    requires IsShift(n) && value < Pow2(n) && d < 128 && d * Pow2(n) < WORD
    ensures Or(value, ShiftLeft(d, n)) == value + d * Pow2(n) < Pow2(n + 7)
  {
    hide Or, Pow2, ShiftLeft;
    OrAbove(value, d, n);
    Pow2Plus7(n);
    Scale(d, 127, Pow2(n));
    ShiftInRange(d, n);
  }

  lemma ShiftInRange(d: nat, n: nat)
    requires n < 32 && d * Pow2(n) < WORD
    ensures ShiftLeft(d, n) == d * Pow2(n)
  {
    hide Pow2;
    assert n % 32 == n;
    ModuloWord(d * Pow2(n));
  }

  lemma ModuloWord(x: nat)
    requires x < WORD
    ensures x % WORD == x
  {
  }

  lemma Scale(a: nat, b: nat, p: nat)
    requires a <= b
    ensures a * p <= b * p
  {
  }

  lemma FirstByte(u: nat, tail: seq<byte>)
    ensures var bytes := EncodeVql(u) + tail;
      bytes[0] == (if u < 128 then u else 128 + u % 128) && bytes[1..] == if u < 128 then tail else EncodeVql(u / 128) + tail
  {
  }

  lemma {:induction false} VqlReadsBack(u: nat, tail: seq<byte>, n: nat, value: nat)
    requires IsShift(n) && value < Pow2(n) && u * Pow2(n) < WORD
    ensures DecodeVql(EncodeVql(u) + tail, n, value) == (value + u * Pow2(n), tail)
    decreases u
  {
    FirstByte(u, tail);
    hide Or, ShiftLeft, Pow2, EncodeVql, IsShift;
    Scale(u % 128, u, Pow2(n));
    VqlStep(u % 128, n, value);
    if u >= 128 {
      NextByte(u, n, value);
      VqlReadsBack(u / 128, tail, n + 7, value + u % 128 * Pow2(n));
    }
  }

  /** What is left after a byte of a longer number goes above it and adds up to the number. */
  lemma NextByte(u: nat, n: nat, value: nat)
    requires IsShift(n) && u >= 128 && u * Pow2(n) < WORD
    ensures IsShift(n + 7) && u / 128 * Pow2(n + 7) < WORD
    ensures value + u % 128 * Pow2(n) + u / 128 * Pow2(n + 7) == value + u * Pow2(n)
  {
    hide Pow2;
    Pow2Plus7(n);
    SplitProduct(u, u / 128, u % 128, Pow2(n));
    LastShift(u, n);
  }

  lemma SplitProduct(u: nat, rest: nat, d: nat, p: nat)
    requires u == 128 * rest + d
    ensures u * p == rest * (128 * p) + d * p
  {
  }

  /** A fifth byte has no successor. */
  lemma LastShift(u: nat, n: nat)
    requires u >= 128 && u * Pow2(n) < WORD
    ensures n != 28
  {
    if n == 28 {
      Pow2Values();
      Scale(128, u, Pow2(n));
    }
  }

  /** The variable-length integer is exact on all of int32, negatives included. */
  lemma IntReadsBack(n: int, tail: seq<byte>)
    requires -HALF <= n < HALF
    ensures ReadInt(EncodeVql(ToUint32(n)) + tail) == (n, tail)
  {
    Pow2Values();
    VqlReadsBack(ToUint32(n), tail, 0, 0);
    Int32RoundTrip(n);
  }

  lemma VqlIsShort(u: nat)
    requires u < WORD
    ensures |EncodeVql(u)| <= 5
  {
    assert |EncodeVql(u / 0x1000_0000)| == 1;
    assert |EncodeVql(u / 0x20_0000)| <= 2 by { VqlLength(u / 0x20_0000); }
    assert |EncodeVql(u / 0x4000)| <= 3 by { VqlLength(u / 0x4000); }
    assert |EncodeVql(u / 128)| <= 4 by { VqlLength(u / 128); }
    VqlLength(u);
  }

  lemma VqlLength(u: nat)
    ensures |EncodeVql(u)| <= 1 + |EncodeVql(u / 128)|
  {
  }

  // -------------------------------------------------------------------------
  // Values
  // -------------------------------------------------------------------------

  function Chunk(tag: byte, data: seq<byte>): seq<byte> {
    [tag] + (EncodeVql(|data|) + data)
  }

  function Encode(v: Value): (bytes: seq<byte>)
    ensures |bytes| >= 1
    decreases v
  {
    match v
    case Undefined => [0]
    case Text(utf8) => Chunk(1, utf8)
    case Buffer(bytes) => Chunk(2, bytes)
    case VSBuffer(bytes) => Chunk(3, bytes)
    case List(items) => [4] + (EncodeVql(|items|) + EncodeItems(items))
    case Json(utf8) => Chunk(5, utf8)
    case Int(number) => [6] + EncodeVql(ToUint32(number))
  }

  function EncodeItems(items: seq<Value>): seq<byte>
    decreases items
  {
    if items == [] then [] else Encode(items[0]) + EncodeItems(items[1..])
  }

  /** `reader.read(n)`: what `slice` gives, `total` being the length of the whole buffer; a negative end counts from the back. */
  function Take(rest: seq<byte>, total: nat, n: int): (r: (seq<byte>, seq<byte>))
    ensures |r.1| <= |rest|
  {
    var count :=
      if 0 <= n then (if n <= |rest| then n else |rest|)
      else if total - |rest| + n >= 0 || total + n <= 0 then 0
      else if total + n <= |rest| then total + n else |rest|;
    (rest[..count], rest[count..])
  }

  /** A length and then that many bytes. */
  function TakeChunk(rest: seq<byte>, total: nat): (r: (seq<byte>, seq<byte>))
    ensures |r.1| <= |rest|
  {
    var (n, left) := ReadInt(rest);
    Take(left, total, n)
  }

  /** `deserialize`: the value and what is left. An unknown type, or the end of the input, is undefined. */
  function Decode(rest: seq<byte>, total: nat): (r: (Value, seq<byte>))
    ensures |r.1| <= |rest|
    decreases |rest|, 0
  {
    if rest == [] then (Undefined, [])
    else
      var tag, body := rest[0], rest[1..];
      if tag == 1 then var (data, left) := TakeChunk(body, total); (Text(data), left)
      else if tag == 2 then var (data, left) := TakeChunk(body, total); (Buffer(data), left)
      else if tag == 3 then var (data, left) := TakeChunk(body, total); (VSBuffer(data), left)
      else if tag == 4 then
        var (n, left) := ReadInt(body);
        var (items, left') := DecodeItems(left, total, if n > 0 then n else 0);
        (List(items), left')
      else if tag == 5 then var (data, left) := TakeChunk(body, total); (Json(data), left)
      else if tag == 6 then var (n, left) := ReadInt(body); (Int(n), left)
      else (Undefined, body)
  }

  function DecodeItems(rest: seq<byte>, total: nat, count: nat): (r: (seq<Value>, seq<byte>))
    ensures |r.1| <= |rest|
    decreases |rest|, count
  {
    if count == 0 then ([], rest)
    else
      var (first, left) := Decode(rest, total);
      var (others, left') := DecodeItems(left, total, count - 1);
      ([first] + others, left')
  }

  /** Reading past the type byte, with a length or number in front. */
  lemma AfterTag(tag: byte, head: seq<byte>, body: seq<byte>, tail: seq<byte>)
    ensures ([tag] + (head + body) + tail)[0] == tag
    ensures ([tag] + (head + body) + tail)[1..] == head + (body + tail)
  {
  }

  lemma HeaderReadsBack(tag: byte, count: nat, body: seq<byte>, tail: seq<byte>)
    requires count < HALF
    ensures ([tag] + (EncodeVql(count) + body) + tail)[0] == tag
    ensures ReadInt(([tag] + (EncodeVql(count) + body) + tail)[1..]) == (count, body + tail)
  {
    assert ToUint32(count) == count;
    hide ReadInt, EncodeVql, ToUint32;
    AfterTag(tag, EncodeVql(count), body, tail);
    IntReadsBack(count, body + tail);
  }

  lemma ChunkReadsBack(tag: byte, data: seq<byte>, tail: seq<byte>, total: nat)
    requires |data| < HALF
    ensures (Chunk(tag, data) + tail)[0] == tag
    ensures TakeChunk((Chunk(tag, data) + tail)[1..], total) == (data, tail)
  {
    hide ReadInt, EncodeVql;
    HeaderReadsBack(tag, |data|, data, tail);
    assert (data + tail)[..|data|] == data && (data + tail)[|data|..] == tail;
  }

  /** Deserializing what was serialized gives the value back, and leaves exactly what followed it. */
  lemma {:induction false} RoundTrip(v: Value, tail: seq<byte>, total: nat)
    requires Representable(v)
    ensures Decode(Encode(v) + tail, total) == (v, tail)
    decreases v, 1
  {
    hide ReadInt, EncodeVql, EncodeItems, DecodeItems, TakeChunk, Chunk;
    match v
    case Undefined => assert (Encode(v) + tail)[1..] == tail;
    case Text(utf8) => ChunkReadsBack(1, utf8, tail, total);
    case Buffer(bytes) => ChunkReadsBack(2, bytes, tail, total);
    case VSBuffer(bytes) => ChunkReadsBack(3, bytes, tail, total);
    case Json(utf8) => ChunkReadsBack(5, utf8, tail, total);
    case Int(number) =>
      IntReadsBack(number, tail);
      assert (Encode(v) + tail)[1..] == EncodeVql(ToUint32(number)) + tail;
    case List(items) =>
      HeaderReadsBack(4, |items|, EncodeItems(items), tail);
      ItemsRoundTrip(items, tail, total);
  }

  lemma {:induction false} ItemsRoundTrip(items: seq<Value>, tail: seq<byte>, total: nat)
    requires forall i :: 0 <= i < |items| ==> Representable(items[i])
    ensures DecodeItems(EncodeItems(items) + tail, total, |items|) == (items, tail)
    decreases items, 0
  {
    if items == [] {
      assert EncodeItems(items) + tail == tail;
    } else {
      hide Encode, Decode;
      var others := EncodeItems(items[1..]) + tail;
      assert (Encode(items[0]) + EncodeItems(items[1..])) + tail == Encode(items[0]) + others;
      RoundTrip(items[0], others, total);
      ItemsRoundTrip(items[1..], tail, total);
      assert items == [items[0]] + items[1..];
    }
  }

  /** A message is a header and a body, written and read one after the other. */
  lemma MessageRoundTrip(header: Value, body: Value, total: nat)
    requires Representable(header) && Representable(body)
    ensures var (h, rest) := Decode(Encode(header) + Encode(body), total);
      h == header && Decode(rest, total) == (body, [])
  {
    RoundTrip(header, Encode(body), total);
    RoundTrip(body, [], total);
    assert Encode(body) + [] == Encode(body);
  }
}
