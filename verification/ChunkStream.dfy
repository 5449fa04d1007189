/** `ChunkStream`: fragments collected as they arrive, read as one flat queue of bytes. */
module ChunkStreams {
  import opened Bytes
  import opened Prelude

  class ChunkStream {
    var chunks: seq<seq<byte>>
    var totalLength: nat

    ghost predicate Valid()
      reads this
    {
      totalLength == |Flatten(chunks)|
    }

    ghost function Contents(): seq<byte>
      reads this
    {
      Flatten(chunks)
    }

    constructor ()
      ensures Valid() && Contents() == []
    {
      chunks, totalLength := [], 0;
    }

    method AcceptChunk(chunk: seq<byte>)
      requires Valid()
      modifies this
      ensures Valid() && Contents() == old(Contents()) + chunk
    {
      FlattenSnoc(chunks, chunk);
      chunks := chunks + [chunk];
      totalLength := totalLength + |chunk|;
    }

    /** Asking for zero bytes of a stream without chunks fails in the source as it does here. */
    method Peek(byteCount: nat) returns (bytes: Option<seq<byte>>)
      requires Valid()
      requires byteCount > 0 || chunks != []
      ensures bytes == if |Contents()| < byteCount then None else Some(Contents()[..byteCount])
    {
      if totalLength < byteCount {
        return None;
      }
      assert Contents() == chunks[0] + Flatten(chunks[1..]);
      if |chunks[0]| >= byteCount {
        assert chunks[0][..byteCount] == Contents()[..byteCount];
        return Some(chunks[0][..byteCount]);
      }
      var result := new byte[byteCount](_ => 0);
      var offset := 0;
      var i := 0;
      while i < |chunks| && offset < byteCount
        invariant 0 <= i <= |chunks|
        invariant offset <= byteCount == result.Length
        invariant offset < byteCount ==> offset == |Flatten(chunks[..i])|
        invariant offset <= |Flatten(chunks[..i])|
        invariant result[..offset] == Contents()[..offset]
      {
        assert chunks[..i + 1] == chunks[..i] + [chunks[i]];
        assert chunks == chunks[..i + 1] + chunks[i + 1..];
        FlattenSnoc(chunks[..i], chunks[i]);
        FlattenConcat(chunks[..i + 1], chunks[i + 1..]);
        var remaining := byteCount - offset;
        var copyLength := if |chunks[i]| < remaining then |chunks[i]| else remaining;
        CopyInto(result, chunks[i][..copyLength], offset);
        offset := offset + copyLength;
        assert result[..offset] == result[..][..offset];
        i := i + 1;
      }
      assert chunks[..|chunks|] == chunks;
      bytes := Some(result[..]);
      assert result[..] == result[..offset];
    }

    method Skip(byteCount: nat) returns (ok: bool)
      requires Valid()
      requires byteCount > 0 || chunks != []
      modifies this
      ensures Valid()
      ensures ok == (byteCount <= |old(Contents())|)
      ensures Contents() == if ok then old(Contents())[byteCount..] else old(Contents())
    {
      var discarded := Read(byteCount);
      ok := discarded.Some?;
    }

    method Read(byteCount: nat) returns (bytes: Option<seq<byte>>)
      requires Valid()
      requires byteCount > 0 || chunks != []
      modifies this
      ensures Valid()
      ensures bytes == if |old(Contents())| < byteCount then None else Some(old(Contents())[..byteCount])
      ensures Contents() == if bytes.None? then old(Contents()) else old(Contents())[byteCount..]
    {
      if totalLength < byteCount {
        return None;
      }
      hide Overwrite, Flatten;
      ghost var all := Contents();
      FrontChunk(chunks);
      if |chunks[0]| == byteCount {
        assert chunks[0] == all[..byteCount] && Flatten(chunks[1..]) == all[byteCount..];
        bytes := Some(chunks[0]);
        chunks := chunks[1..];
        totalLength := totalLength - byteCount;
        return;
      }
      if |chunks[0]| > byteCount {
        assert chunks[0][..byteCount] == all[..byteCount];
        bytes := Some(chunks[0][..byteCount]);
        FrontReplaced(chunks[0][byteCount..], chunks[1..]);
        chunks := [chunks[0][byteCount..]] + chunks[1..];
        assert Contents() == all[byteCount..];
        totalLength := totalLength - byteCount;
        return;
      }
      bytes := ReadAcross(byteCount);
    }

    /** The rest of `read`: the bytes lie in more than one chunk. */
    method ReadAcross(byteCount: nat) returns (bytes: Option<seq<byte>>)
      requires Valid() && byteCount <= totalLength
      modifies this
      ensures Valid()
      ensures bytes == Some(old(Contents())[..byteCount]) && Contents() == old(Contents())[byteCount..]
    {
      hide Overwrite, Flatten, Filled;
      ghost var all := Contents();
      var result := new byte[byteCount](_ => 0);
      var offset := 0;
      NothingFilled(result[..], all);
      while offset < byteCount
        invariant offset <= byteCount == result.Length
        invariant byteCount <= totalLength == |all|
        invariant Filled(result[..], offset, all)
        invariant Contents() == all[offset..]
        decreases byteCount - offset, |chunks|
      {
        FrontChunk(chunks);
        var chunk := chunks[0];
        var needed := byteCount - offset;
        ghost var others, before := Flatten(chunks[1..]), result[..];
        if |chunk| <= needed {
          CopyInto(result, chunk, offset);
          FillsOn(before, all, offset, chunk, others);
          offset := offset + |chunk|;
          chunks := chunks[1..];
        } else {
          CopyInto(result, chunk[..needed], offset);
          CutChunk(chunk, needed, others);
          FillsOn(before, all, offset, chunk[..needed], chunk[needed..] + others);
          FrontReplaced(chunk[needed..], chunks[1..]);
          chunks := [chunk[needed..]] + chunks[1..];
          offset := offset + needed;
        }
      }
      totalLength := totalLength - byteCount;
      bytes := Some(result[..]);
      AllFilled(result[..], all);
    }
  }

  /** The buffer holds the first bytes of the stream. */
  predicate Filled(buffer: seq<byte>, offset: nat, all: seq<byte>) {
    offset <= |buffer| && offset <= |all| && buffer[..offset] == all[..offset]
  }

  lemma NothingFilled(buffer: seq<byte>, all: seq<byte>)
    ensures Filled(buffer, 0, all) && all[0..] == all
  {
  }

  lemma AllFilled(buffer: seq<byte>, all: seq<byte>)
    requires Filled(buffer, |buffer|, all)
    ensures buffer == all[..|buffer|]
  {
    assert buffer[..|buffer|] == buffer;
  }

  /** Copying what comes next of the stream. */
  lemma FillsOn(buffer: seq<byte>, all: seq<byte>, offset: nat, taken: seq<byte>, others: seq<byte>)
    requires Filled(buffer, offset, all) && offset + |taken| <= |buffer| && all[offset..] == taken + others
    ensures Filled(Overwrite(buffer, taken, offset), offset + |taken|, all) && all[offset + |taken|..] == others
  {
    OverwriteExtends(buffer, taken, offset);
    hide Overwrite;
    var rest := all[offset..];
    assert rest[..|taken|] == taken && rest[|taken|..] == others;
    assert all[..offset + |taken|] == all[..offset] + rest[..|taken|];
    assert all[offset + |taken|..] == rest[|taken|..];
  }

  lemma CutChunk(chunk: seq<byte>, count: nat, others: seq<byte>)
    requires count <= |chunk|
    ensures chunk[..count] + (chunk[count..] + others) == chunk + others
  {
  }

  lemma FrontChunk(chunks: seq<seq<byte>>)
    ensures if chunks == [] then Flatten(chunks) == [] else Flatten(chunks) == chunks[0] + Flatten(chunks[1..])
  {
  }

  lemma FrontReplaced(chunk: seq<byte>, others: seq<seq<byte>>)
    ensures Flatten([chunk] + others) == chunk + Flatten(others)
  {
    assert ([chunk] + others)[1..] == others;
  }
}
