/** The reader, the writer, and `serialize` and `deserialize` over them. */
module Serializer {
  import opened Bytes
  import opened Serialization
  import opened Prelude

  class BufferWriter {
    var buffers: seq<seq<byte>>

    constructor ()
      ensures buffers == []
    {
      buffers := [];
    }

    ghost function Contents(): seq<byte>
      reads this
    {
      Flatten(buffers)
    }

    method Write(buffer: seq<byte>)
      modifies this
      ensures Contents() == old(Contents()) + buffer
    {
      FlattenSnoc(buffers, buffer);
      buffers := buffers + [buffer];
    }

    /** The `buffer` property. */
    method Joined() returns (bytes: seq<byte>)
      ensures bytes == Contents()
    {
      bytes := Concat(buffers);
    }
  }

  class BufferReader {
    const buffer: seq<byte>
    var pos: nat

    ghost predicate Valid()
      reads this
    {
      pos <= |buffer|
    }

    /** What is left to read. */
    ghost function Rest(): seq<byte>
      reads this
      requires Valid()
    {
      buffer[pos..]
    }

    constructor (buffer: seq<byte>)
      ensures Valid() && this.buffer == buffer && Rest() == buffer
    {
      this.buffer, pos := buffer, 0;
    }

    /** `slice(pos, pos + count)`, the cursor moved by what it gave. */
    method Read(count: int) returns (bytes: seq<byte>)
      requires Valid()
      modifies this
      ensures Valid() && (bytes, Rest()) == Take(old(Rest()), |buffer|, count)
    {
      ghost var rest := Rest();
      var end := pos + count;
      if end < 0 {
        end := if |buffer| + end < 0 then 0 else |buffer| + end;
      }
      if end > |buffer| {
        end := |buffer|;
      }
      bytes := if end > pos then buffer[pos..end] else [];
      pos := pos + |bytes|;
      assert bytes == rest[..|bytes|] && buffer[pos..] == rest[|bytes|..];
    }
  }

  method ReadIntVQL(reader: BufferReader) returns (value: int)
    requires reader.Valid()
    modifies reader
    ensures reader.Valid() && (value, reader.Rest()) == ReadInt(old(reader.Rest()))
  {
    hide Or, ShiftLeft, Pow2;
    var bits := 0;
    var n := 0;
    ghost var start := reader.Rest();
    while true
      invariant reader.Valid()
      invariant DecodeVql(reader.Rest(), n, bits) == DecodeVql(start, 0, 0)
      decreases |reader.Rest()|
    {
      ghost var rest := reader.Rest();
      var next := reader.Read(1);
      if next == [] {
        assert rest == [];
        return ToInt32(bits);
      }
      assert next[0] == rest[0] && reader.Rest() == rest[1..];
      bits := Or(bits, ShiftLeft(next[0] % 128, n));
      if next[0] < 128 {
        return ToInt32(bits);
      }
      n := n + 7;
    }
  }

  /** The bytes of a number, none for zero: what the loops of the writer still have to write. */
  function VqlBytes(u: nat): seq<byte> {
    if u == 0 then [] else EncodeVql(u)
  }

  lemma VqlStep(u: nat)
    requires u > 0
    ensures VqlBytes(u) == [if u / 128 > 0 then u % 128 + 128 else u % 128] + VqlBytes(u / 128)
  {
  }

  /** The first loop of `writeInt32VQL`: how many bytes there will be. */
  method VqlSize(u: nat) returns (len: nat)
    ensures len == |VqlBytes(u)|
  {
    hide EncodeVql;
    var v := u;
    len := 0;
    while v != 0
      invariant len + |VqlBytes(v)| == |VqlBytes(u)|
    {
      VqlStep(v);
      len := len + 1;
      v := v / 128;
    }
  }

  /** Its second loop: the bytes themselves, written in place. */
  method FillVql(scratch: array<byte>, u: nat)
    requires scratch.Length == |VqlBytes(u)|
    modifies scratch
    ensures scratch[..] == VqlBytes(u)
  {
    hide VqlBytes;
    assert VqlBytes(0) == [] by { NoBytes(); }
    var i, v := 0, u;
    while v != 0
      invariant 0 <= i && i + |VqlBytes(v)| == scratch.Length
      invariant scratch[..i] + VqlBytes(v) == VqlBytes(u)
    {
      VqlStep(v);
      ghost var before := scratch[..i];
      scratch[i] := if v / 128 > 0 then v % 128 + 128 else v % 128;
      assert scratch[..i + 1] == before + [scratch[i]];
      i, v := i + 1, v / 128;
    }
    assert scratch[..] == scratch[..i] == scratch[..i] + [];
  }

  lemma NoBytes()
    ensures VqlBytes(0) == [] && EncodeVql(0) == [0]
  {
  }

  method WriteInt32VQL(writer: BufferWriter, value: int)
    requires -HALF <= value < WORD
    modifies writer
    ensures writer.Contents() == old(writer.Contents()) + EncodeVql(ToUint32(value))
  {
    if value == 0 {
      NoBytes();
      writer.Write([0]);
      return;
    }
    var len := VqlSize(ToUint32(value));
    var scratch := new byte[len](_ => 0);
    FillVql(scratch, ToUint32(value));
    writer.Write(scratch[..]);
  }

  lemma Regroup(a: seq<byte>, b: seq<byte>, c: seq<byte>, d: seq<byte>)
    ensures ((a + b) + c) + d == a + (b + (c + d))
  {
  }

  method WriteChunk(writer: BufferWriter, tag: byte, data: seq<byte>)
    requires |data| < WORD
    modifies writer
    ensures writer.Contents() == old(writer.Contents()) + Chunk(tag, data)
  {
    assert ToUint32(|data|) == |data|;
    hide EncodeVql, ToUint32, Flatten;
    ghost var start := writer.Contents();
    writer.Write([tag]);
    WriteInt32VQL(writer, |data|);
    writer.Write(data);
    Regroup(start, [tag], EncodeVql(|data|), data);
  }

  method Serialize(writer: BufferWriter, data: Value)
    requires Representable(data)
    modifies writer
    ensures writer.Contents() == old(writer.Contents()) + Encode(data)
    decreases data, 1
  {
    hide EncodeVql, Chunk;
    match data
    case Undefined => writer.Write([0]);
    case Text(utf8) => WriteChunk(writer, 1, utf8);
    case Buffer(bytes) => WriteChunk(writer, 2, bytes);
    case VSBuffer(bytes) => WriteChunk(writer, 3, bytes);
    case Json(utf8) => WriteChunk(writer, 5, utf8);
    case Int(number) =>
      ghost var start := writer.Contents();
      writer.Write([6]);
      WriteInt32VQL(writer, number);
      assert (start + [6]) + EncodeVql(ToUint32(number)) == start + Encode(data);
    case List(items) => SerializeList(writer, items);
  }

  method SerializeList(writer: BufferWriter, items: seq<Value>)
    requires |items| < HALF && forall i :: 0 <= i < |items| ==> Representable(items[i])
    modifies writer
    ensures writer.Contents() == old(writer.Contents()) + Encode(List(items))
    decreases items, 0
  {
    assert ToUint32(|items|) == |items| && items[0..] == items && EncodeItems([]) == [];
    hide EncodeVql, ToUint32, Flatten;
    ghost var start := writer.Contents();
    writer.Write([4]);
    WriteInt32VQL(writer, |items|);
    ghost var header := writer.Contents();
    assert header == (start + [4]) + EncodeVql(|items|);
    var i := 0;
    while i < |items|
      invariant 0 <= i <= |items|
      invariant writer.Contents() + EncodeItems(items[i..]) == header + EncodeItems(items)
    {
      ghost var before := writer.Contents();
      Serialize(writer, items[i]);
      ItemWritten(before, items, i);
      i := i + 1;
    }
    assert items[i..] == [] && writer.Contents() + [] == writer.Contents();
    Regroup(start, [4], EncodeVql(|items|), EncodeItems(items));
  }

  lemma ItemWritten(before: seq<byte>, items: seq<Value>, i: nat)
    requires i < |items|
    ensures before + EncodeItems(items[i..]) == (before + Encode(items[i])) + EncodeItems(items[i + 1..])
  {
    hide Encode;
    assert items[i..][0] == items[i] && items[i..][1..] == items[i + 1..];
    assert before + (Encode(items[i]) + EncodeItems(items[i + 1..])) == (before + Encode(items[i])) + EncodeItems(items[i + 1..]);
  }

  method ReadChunk(reader: BufferReader) returns (data: seq<byte>)
    requires reader.Valid()
    modifies reader
    ensures reader.Valid() && (data, reader.Rest()) == TakeChunk(old(reader.Rest()), |reader.buffer|)
  {
    var n := ReadIntVQL(reader);
    data := reader.Read(n);
  }

  method Deserialize(reader: BufferReader) returns (data: Value)
    requires reader.Valid()
    modifies reader
    ensures reader.Valid() && (data, reader.Rest()) == Decode(old(reader.Rest()), |reader.buffer|)
    decreases |reader.Rest()|, 0
  {
    hide ReadInt, TakeChunk;
    ghost var rest := reader.Rest();
    var tags := reader.Read(1);
    if tags == [] {
      return Undefined;
    }
    var tag := tags[0];
    assert tag == rest[0] && reader.Rest() == rest[1..];
    if tag == 1 {
      var text := ReadChunk(reader);
      return Text(text);
    } else if tag == 2 {
      var bytes := ReadChunk(reader);
      return Buffer(bytes);
    } else if tag == 3 {
      var bytes := ReadChunk(reader);
      return VSBuffer(bytes);
    } else if tag == 4 {
      var length := ReadIntVQL(reader);
      ghost var from := reader.Rest();
      var result := [];
      var i := 0;
      ghost var all := DecodeItems(from, |reader.buffer|, if length > 0 then length else 0);
      assert [] + all.0 == all.0;
      while i < length
        invariant 0 <= i && (length > 0 ==> i <= length) && (length <= 0 ==> i == 0)
        invariant reader.Valid() && |reader.Rest()| < |rest|
        invariant var (items, left) := DecodeItems(reader.Rest(), |reader.buffer|, if length > 0 then length - i else 0);
          (result + items, left) == all
      {
        ghost var left := DecodeItems(reader.Rest(), |reader.buffer|, length - i).0;
        var item := Deserialize(reader);
        assert left == [item] + left[1..];
        assert (result + [item]) + left[1..] == result + left;
        result := result + [item];
        i := i + 1;
      }
      assert result + [] == result;
      return List(result);
    } else if tag == 5 {
      var text := ReadChunk(reader);
      return Json(text);
    } else if tag == 6 {
      var number := ReadIntVQL(reader);
      return Int(number);
    }
    return Undefined;
  }
}
