/** Bytes, chunks of bytes, and the 32-bit big-endian words of the RPC buffers. */
module Bytes {
  type byte = n: nat | n < 256

  /** Two to the 32nd: words on the wire are numbers below this. */
  const WORD := 0x1_0000_0000

  // -------------------------------------------------------------------------
  // A list of chunks denotes one flat string of bytes
  // -------------------------------------------------------------------------

  function Flatten(chunks: seq<seq<byte>>): seq<byte> {
    if chunks == [] then [] else chunks[0] + Flatten(chunks[1..])
  }

  lemma {:induction false} FlattenConcat(left: seq<seq<byte>>, right: seq<seq<byte>>)
    ensures Flatten(left + right) == Flatten(left) + Flatten(right)
  {
    if left == [] {
      assert left + right == right;
    } else {
      FlattenConcat(left[1..], right);
      assert (left + right)[1..] == left[1..] + right && (left + right)[0] == left[0];
      var first, middle, last := left[0], Flatten(left[1..]), Flatten(right);
      assert first + (middle + last) == (first + middle) + last;
    }
  }

  lemma FlattenSnoc(chunks: seq<seq<byte>>, chunk: seq<byte>)
    ensures Flatten(chunks + [chunk]) == Flatten(chunks) + chunk
  {
    FlattenConcat(chunks, [chunk]);
    assert Flatten([chunk]) == chunk + Flatten([]);
  }

  // -------------------------------------------------------------------------
  // Big-endian words
  // -------------------------------------------------------------------------

  /** The four bytes `writeUInt32BE` stores; a value outside the word range is reduced first. */
  function WordBytes(value: nat): (bytes: seq<byte>)
    ensures |bytes| == 4
  {
    [(value / 0x100_0000) % 256, (value / 0x1_0000) % 256, (value / 0x100) % 256, value % 256]
  }

  /** The number `readUInt32BE` makes of four bytes. */
  function WordValue(bytes: seq<byte>): (value: nat)
    requires |bytes| == 4
    ensures value < WORD
  {
    var b0: nat, b1: nat, b2: nat, b3: nat := bytes[0], bytes[1], bytes[2], bytes[3];
    b0 * 0x100_0000 + b1 * 0x1_0000 + b2 * 0x100 + b3
  }

  lemma WordRoundTrip(value: nat)
    ensures WordValue(WordBytes(value)) == value % WORD
  {
    var b0, b1, b2, b3 := (value / 0x100_0000) % 256, (value / 0x1_0000) % 256, (value / 0x100) % 256, value % 256;
    assert value / 0x1_0000 == (value / 0x100) / 0x100;
    assert value / 0x100_0000 == (value / 0x1_0000) / 0x100;
    assert value / WORD == (value / 0x100_0000) / 0x100;
  }

  lemma LastDigit(high: nat, low: byte)
    ensures (high * 0x100 + low) / 0x100 == high && (high * 0x100 + low) % 256 == low
  {
  }

  lemma BytesRoundTrip(bytes: seq<byte>)
    requires |bytes| == 4
    ensures WordBytes(WordValue(bytes)) == bytes
  {
    var value := WordValue(bytes);
    var first: nat := bytes[0];
    var second, third := first * 0x100 + bytes[1], (first * 0x100 + bytes[1]) * 0x100 + bytes[2];
    assert value == third * 0x100 + bytes[3];
    LastDigit(third, bytes[3]);
    LastDigit(second, bytes[2]);
    LastDigit(first, bytes[1]);
    assert value / 0x1_0000 == (value / 0x100) / 0x100;
    assert value / 0x100_0000 == (value / 0x1_0000) / 0x100;
  }

  // -------------------------------------------------------------------------
  // Writing into an allocated buffer, in place
  // -------------------------------------------------------------------------

  /** The content of `buffer` once `source` has been copied over it at `offset`. */
  function Overwrite(buffer: seq<byte>, source: seq<byte>, offset: nat): (r: seq<byte>)
    requires offset + |source| <= |buffer|
    ensures |r| == |buffer|
  {
    buffer[..offset] + source + buffer[offset + |source|..]
  }

  /** Writing right behind what is already filled extends it. */
  lemma OverwriteExtends(buffer: seq<byte>, source: seq<byte>, offset: nat)
    requires offset + |source| <= |buffer|
    ensures Overwrite(buffer, source, offset)[..offset + |source|] == buffer[..offset] + source
  {
  }

  method WriteUInt8(buffer: array<byte>, value: nat, offset: nat)
    requires offset < buffer.Length
    modifies buffer
    ensures buffer[..] == Overwrite(old(buffer[..]), [value % 256], offset)
  {
    buffer[offset] := value % 256;
  }

  method WriteUInt32BE(buffer: array<byte>, value: nat, offset: nat)
    requires offset + 4 <= buffer.Length
    modifies buffer
    ensures buffer[..] == Overwrite(old(buffer[..]), WordBytes(value), offset)
  {
    buffer[offset] := (value / 0x100_0000) % 256;
    buffer[offset + 1] := (value / 0x1_0000) % 256;
    buffer[offset + 2] := (value / 0x100) % 256;
    buffer[offset + 3] := value % 256;
  }

  /** `set`: a copy loop. */
  method CopyInto(buffer: array<byte>, source: seq<byte>, offset: nat)
    requires offset + |source| <= buffer.Length
    modifies buffer
    ensures buffer[..] == Overwrite(old(buffer[..]), source, offset)
  {
    var i := 0;
    while i < |source|
      invariant 0 <= i <= |source|
      invariant buffer[offset..offset + i] == source[..i]
      invariant buffer[..offset] == old(buffer[..offset])
      invariant buffer[offset + i..] == old(buffer[offset + i..])
    {
      buffer[offset + i] := source[i];
      i := i + 1;
    }
  }

  /** `VSBuffer.concat`: one allocation, then a copy per part. */
  method Concat(parts: seq<seq<byte>>) returns (bytes: seq<byte>)
    ensures bytes == Flatten(parts)
  {
    var length := 0;
    var j := 0;
    while j < |parts|
      invariant 0 <= j <= |parts|
      invariant length == |Flatten(parts[..j])|
    {
      assert parts[..j + 1] == parts[..j] + [parts[j]];
      FlattenSnoc(parts[..j], parts[j]);
      length := length + |parts[j]|;
      j := j + 1;
    }
    assert parts[..|parts|] == parts;
    var result := new byte[length](_ => 0);
    var offset := 0;
    var i := 0;
    while i < |parts|
      invariant 0 <= i <= |parts|
      invariant result.Length == |Flatten(parts)|
      invariant offset == |Flatten(parts[..i])| <= result.Length
      invariant result[..offset] == Flatten(parts[..i])
    {
      assert parts[..i + 1] == parts[..i] + [parts[i]];
      assert parts == parts[..i + 1] + parts[i + 1..];
      FlattenSnoc(parts[..i], parts[i]);
      FlattenConcat(parts[..i + 1], parts[i + 1..]);
      CopyInto(result, parts[i], offset);
      offset := offset + |parts[i]|;
      assert result[..offset] == result[..][..offset];
      i := i + 1;
    }
    assert parts[..i] == parts;
    bytes := result[..];
    assert bytes == result[..offset];
  }
}
