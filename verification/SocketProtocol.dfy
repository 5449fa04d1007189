/** `SocketProtocol`: framing alone, over a socket whose reads arrive in arbitrary pieces. */
module SocketProtocols {
  import opened Bytes
  import opened Framing
  import opened ChunkStreams
  import opened Prelude

  /** The writing side of a socket: the bytes handed to it so far. */
  class Socket {
    var outgoing: seq<byte>

    constructor ()
      ensures outgoing == []
    {
      outgoing := [];
    }

    method Write(bytes: seq<byte>)
      modifies this
      ensures outgoing == old(outgoing) + bytes
    {
      outgoing := outgoing + bytes;
    }
  }

  /** What a reader holds: bytes not yet consumed, and the messages its listener was given. */
  datatype Reader = Reader(buffer: seq<byte>, fired: seq<seq<byte>>)

  /** One `onData` callback. */
  function Receive(reader: Reader, chunk: seq<byte>): Reader {
    Reader(Rest(reader.buffer + chunk), reader.fired + Bodies(Frames(reader.buffer + chunk)))
  }

  function ReceiveAll(reader: Reader, chunks: seq<seq<byte>>): Reader
    decreases |chunks|
  {
    if chunks == [] then reader else ReceiveAll(Receive(reader, chunks[0]), chunks[1..])
  }

  /** The reader once the frame at its front has been taken. */
  function AfterOne(reader: Reader): Reader
    requires Head(reader.buffer).Some?
  {
    var frame := Head(reader.buffer).value;
    Reader(reader.buffer[FrameLength(frame)..], reader.fired + BodyOf(frame))
  }

  lemma ReceiveOne(reader: Reader)
    requires Head(reader.buffer).Some?
    ensures Receive(AfterOne(reader), []) == Receive(reader, [])
  {
    hide Head, Frames, Rest, Bodies;
    var frame, after := Head(reader.buffer).value, AfterOne(reader).buffer;
    ReadingStep(reader.buffer, frame);
    assert reader.buffer + [] == reader.buffer && after + [] == after;
    assert reader.fired + (BodyOf(frame) + Bodies(Frames(after))) == (reader.fired + BodyOf(frame)) + Bodies(Frames(after));
  }

  lemma ReceiveNone(reader: Reader)
    requires |reader.buffer| < HEADER_SIZE || Head(reader.buffer) == None
    ensures Receive(reader, []) == reader
  {
    NothingToRead(reader.buffer);
    assert reader.buffer + [] == reader.buffer;
    assert reader.fired + [] == reader.fired;
  }

  class SocketProtocol {
    const socket: Socket
    const chunkStream: ChunkStream
    var fired: seq<seq<byte>>

    ghost predicate Valid()
      reads this, chunkStream
    {
      chunkStream.Valid()
    }

    ghost function View(): Reader
      reads this, chunkStream
    {
      Reader(chunkStream.Contents(), fired)
    }

    constructor (socket: Socket)
      ensures Valid() && this.socket == socket && fresh(chunkStream)
      ensures View() == Reader([], [])
    {
      this.socket := socket;
      chunkStream := new ChunkStream();
      fired := [];
    }

    method Send(buffer: seq<byte>)
      modifies socket
      ensures socket.outgoing == old(socket.outgoing) + Encode(Frame(REGULAR, 0, 0, buffer))
    {
      var bytes := WriteProtocolMessage(Frame(REGULAR, 0, 0, buffer));
      socket.Write(bytes);
    }

    method OnData(chunk: seq<byte>)
      requires Valid()
      modifies this, chunkStream
      ensures Valid() && View() == Receive(old(View()), chunk)
    {
      chunkStream.AcceptChunk(chunk);
      ghost var contents := chunkStream.Contents();
      assert contents + [] == contents;
      ReadMessages();
    }

    method ReadMessages()
      requires Valid()
      modifies this, chunkStream
      ensures Valid() && View() == Receive(old(View()), [])
    {
      hide Head, WordValue, Receive;
      while true
        invariant Valid()
        invariant Receive(View(), []) == Receive(old(View()), [])
        decreases |chunkStream.Contents()|
      {
        ghost var before := View();
        var header := chunkStream.Peek(HEADER_SIZE);
        if header.None? {
          break;
        }
        HeaderDecides(before.buffer, header.value);
        var kind := header.value[0];
        var length := WordValue(header.value[9..13]);
        if chunkStream.totalLength < HEADER_SIZE + length {
          break;
        }
        ReceiveOne(before);
        var _ := chunkStream.Skip(HEADER_SIZE);
        if length == 0 {
          if kind == REGULAR {
            fired := fired + [[]];
          }
          assert View() == AfterOne(before);
          continue;
        }
        var body := chunkStream.Read(length);
        if kind == REGULAR {
          fired := fired + [body.value];
        }
        assert View() == AfterOne(before);
      }
      ReceiveNone(View());
    }
  }

  // -------------------------------------------------------------------------
  // How the bytes are cut does not matter
  // -------------------------------------------------------------------------

  lemma ReceiveTwice(reader: Reader, first: seq<byte>, second: seq<byte>)
    ensures Receive(Receive(reader, first), second) == Receive(reader, first + second)
    ensures Head(Receive(reader, first).buffer) == None
  {
    hide Head, Frames, Rest, Bodies;
    var bytes := reader.buffer + first;
    assert reader.buffer + (first + second) == bytes + second;
    ReadingConserves(bytes);
    ReadingSplits(bytes, second);
    BodiesConcat(Frames(bytes), Frames(Rest(bytes) + second));
    var x, y := Bodies(Frames(bytes)), Bodies(Frames(Rest(bytes) + second));
    assert (reader.fired + x) + y == reader.fired + (x + y);
  }

  /** After any chunks at all, the reader is where one read of their concatenation would be. */
  lemma {:induction false} FragmentsAreOneRead(reader: Reader, chunks: seq<seq<byte>>)
    requires Head(reader.buffer) == None
    ensures ReceiveAll(reader, chunks) == Receive(reader, Flatten(chunks))
    ensures Head(ReceiveAll(reader, chunks).buffer) == None
    decreases |chunks|
  {
    hide Head, Receive;
    if chunks == [] {
      ReceiveNone(reader);
    } else {
      ReceiveTwice(reader, chunks[0], Flatten(chunks[1..]));
      FragmentsAreOneRead(Receive(reader, chunks[0]), chunks[1..]);
    }
  }

  /** What the listener has been given after the first chunks, whatever follows them. */
  lemma EarlyChunks(frames: seq<Frame>, early: seq<seq<byte>>, late: seq<seq<byte>>)
    requires forall i :: 0 <= i < |frames| ==> FitsWire(frames[i])
    requires Flatten(early) + Flatten(late) == EncodeAll(frames)
    ensures var reader := ReceiveAll(Reader([], []), early);
            && Head(reader.buffer) == None
            && reader.fired == Bodies(Frames(Flatten(early)))
            && reader.fired <= Bodies(frames)
  {
    hide Head, Frames, Rest, Bodies, Encode, EncodeAll, Flatten, ReceiveAll;
    var first, second := Flatten(early), Flatten(late);
    NothingToRead([]);
    FragmentsAreOneRead(Reader([], []), early);
    assert [] + first == first;
    assert [] + Bodies(Frames(first)) == Bodies(Frames(first));
    ReadingSplits(first, second);
    BodiesConcat(Frames(first), Frames(Rest(first) + second));
    ReadingEncoded(frames, []);
    NothingToRead([]);
    assert EncodeAll(frames) + [] == EncodeAll(frames) && frames + [] == frames;
  }

  /**
   Fragmentation independence: however the encoding of a list of frames is cut into chunks, empty
   ones included, the listener is given exactly the Regular payloads in order and nothing is left;
   and after every chunk it has been given what the bytes so far complete, no complete frame waiting.
   */
  lemma FragmentationIndependence(frames: seq<Frame>, chunks: seq<seq<byte>>, soFar: nat)
    requires forall i :: 0 <= i < |frames| ==> FitsWire(frames[i])
    requires Flatten(chunks) == EncodeAll(frames)
    requires soFar <= |chunks|
    ensures ReceiveAll(Reader([], []), chunks) == Reader([], Bodies(frames))
    ensures var reader := ReceiveAll(Reader([], []), chunks[..soFar]);
            && Head(reader.buffer) == None
            && reader.fired == Bodies(Frames(Flatten(chunks[..soFar])))
            && reader.fired <= Bodies(frames)
  {
    hide Head, Frames, Rest, Bodies, Encode, EncodeAll, Flatten, ReceiveAll;
    NothingToRead([]);
    FragmentsAreOneRead(Reader([], []), chunks);
    ReadingEncoded(frames, []);
    assert EncodeAll(frames) + [] == EncodeAll(frames) == [] + EncodeAll(frames);
    assert frames + [] == frames && [] + Bodies(frames) == Bodies(frames);
    assert chunks == chunks[..soFar] + chunks[soFar..];
    FlattenConcat(chunks[..soFar], chunks[soFar..]);
    EarlyChunks(frames, chunks[..soFar], chunks[soFar..]);
  }
}
