/** `PersistentProtocol`: the endpoint's behaviour carried out on its fields and its socket. */
module PersistentProtocols {
  import opened Bytes
  import opened Framing
  import opened ChunkStreams
  import opened SocketProtocols
  import opened Endpoints

  class PersistentProtocol {
    const options: Options
    var socket: Socket
    var chunkStream: ChunkStream
    var outgoingMsgId: nat
    var outgoingUnackMsg: seq<Entry>
    var incomingAckId: nat
    var unackBytes: int
    var saturated: bool
    var overflowed: bool
    var lastAckTime: int
    var events: seq<Event>
    ghost var sent: seq<seq<byte>>
    ghost var written: seq<Frame>

    ghost predicate Valid()
      reads this, chunkStream
    {
      chunkStream.Valid()
    }

    ghost function View(): Endpoint
      reads this, chunkStream
    {
      Endpoint(options, outgoingMsgId, outgoingUnackMsg, incomingAckId, unackBytes, saturated, overflowed,
               lastAckTime, chunkStream.Contents(), sent, written, events)
    }

    constructor (socket: Socket, options: Options, now: int)
      ensures Valid() && fresh(chunkStream) && this.socket == socket
      ensures View() == Fresh(options, now)
    {
      this.socket := socket;
      this.options := options;
      chunkStream := new ChunkStream();
      outgoingMsgId, outgoingUnackMsg, incomingAckId := 0, [], 0;
      unackBytes, saturated, overflowed := 0, false, false;
      lastAckTime := now;
      events, sent, written := [], [], [];
    }

    method WriteMessage(msg: Frame)
      requires Valid()
      modifies socket, this`written
      ensures Valid() && View() == old(View()).(written := old(written) + [msg])
      ensures socket.outgoing == old(socket.outgoing) + Encode(msg)
    {
      var bytes := WriteProtocolMessage(msg);
      socket.Write(bytes);
      written := written + [msg];
    }

    /** The first part of `send`: the message is queued and written. */
    method Enqueue(buffer: seq<byte>, now: int)
      requires Valid()
      modifies this, socket
      ensures Valid() && socket == old(socket) && chunkStream == old(chunkStream)
      ensures View() == Endpoints.Enqueue(old(View()), buffer, now)
      ensures socket.outgoing == old(socket.outgoing) + Encode(Frame(REGULAR, outgoingMsgId, incomingAckId, buffer))
    {
      outgoingMsgId := outgoingMsgId + 1;
      var msg := Frame(REGULAR, outgoingMsgId, incomingAckId, buffer);
      outgoingUnackMsg := outgoingUnackMsg + [Entry(msg, now)];
      unackBytes := unackBytes + |buffer|;
      sent := sent + [buffer];
      WriteMessage(msg);
    }

    method Send(buffer: seq<byte>, now: int)
      requires Valid()
      modifies this, socket
      ensures Valid() && socket == old(socket) && chunkStream == old(chunkStream)
      ensures View() == Endpoints.Send(old(View()), buffer, now)
      ensures socket.outgoing == old(socket.outgoing) + EncodeAll(SendFrames(old(View()), buffer))
    {
      hide Encode, EncodeAll;
      Enqueue(buffer, now);
      ghost var msg := Frame(REGULAR, outgoingMsgId, incomingAckId, buffer);
      ghost var disconnect := Frame(DISCONNECT, 0, incomingAckId, []);
      EncodeAllTwo(msg, disconnect);
      assert [msg] + [] == [msg] && [msg] + [disconnect] == [msg, disconnect];
      if unackBytes > options.replayMax {
        AbandonSession();
        return;
      }
      if !saturated && unackBytes > options.highWater {
        saturated := true;
        events := events + [Saturated];
      }
    }

    method AbandonSession()
      requires Valid()
      modifies this, socket
      ensures Valid() && socket == old(socket) && chunkStream == old(chunkStream)
      ensures View() == Abandon(old(View()))
      ensures socket.outgoing == old(socket.outgoing) + if old(overflowed) then [] else Encode(Frame(DISCONNECT, 0, incomingAckId, []))
    {
      if overflowed {
        return;
      }
      overflowed := true;
      WriteMessage(Frame(DISCONNECT, 0, incomingAckId, []));
      events := events + [Closed];
    }

    method ReplaceSocket(newSocket: Socket)
      requires Valid()
      modifies this, newSocket
      ensures Valid() && socket == newSocket && fresh(chunkStream)
      ensures View() == Endpoints.ReplaceSocket(old(View()))
      ensures socket.outgoing == old(newSocket.outgoing) + EncodeAll(Replay(outgoingUnackMsg))
    {
      hide Encode, EncodeAll, Replay;
      ghost var before := View();
      chunkStream := new ChunkStream();
      socket := newSocket;
      assert EncodeAll([]) == [] by { EncodeAllNone(); }
      ghost var replayed := Replay(outgoingUnackMsg);
      var i := 0;
      while i < |outgoingUnackMsg|
        invariant 0 <= i <= |outgoingUnackMsg| == |replayed|
        invariant replayed == Replay(outgoingUnackMsg)
        invariant Valid() && socket == newSocket && fresh(chunkStream) && chunkStream.Contents() == []
        invariant View() == before.(buffer := [], written := before.written + replayed[..i])
        invariant socket.outgoing == old(newSocket.outgoing) + EncodeAll(replayed[..i])
      {
        EncodeAllSnoc(replayed[..i], replayed[i]);
        assert replayed[..i + 1] == replayed[..i] + [replayed[i]];
        WriteMessage(outgoingUnackMsg[i].msg);
        i := i + 1;
      }
      assert replayed[..i] == replayed;
    }

    method OnData(chunk: seq<byte>, now: int)
      requires Valid()
      modifies this, chunkStream
      ensures Valid() && socket == old(socket) && chunkStream == old(chunkStream)
      ensures View() == ReadMessages(Accept(old(View()), chunk), now)
    {
      chunkStream.AcceptChunk(chunk);
      ReadAll(now);
    }

    method ReadAll(now: int)
      requires Valid()
      modifies this, chunkStream
      ensures Valid() && socket == old(socket) && chunkStream == old(chunkStream)
      ensures View() == ReadMessages(old(View()), now)
    {
      hide Head, WordValue, Endpoints.ProcessAck, ReadMessages, ActOn;
      while true
        invariant Valid() && socket == old(socket) && chunkStream == old(chunkStream)
        invariant ReadMessages(View(), now) == ReadMessages(old(View()), now)
        decreases |chunkStream.Contents()|
      {
        ghost var before := View();
        if chunkStream.totalLength < HEADER_SIZE {
          break;
        }
        var header := chunkStream.Peek(HEADER_SIZE);
        HeaderDecides(before.buffer, header.value);
        var kind := header.value[0];
        var id := WordValue(header.value[1..5]);
        var ack := WordValue(header.value[5..9]);
        var length := WordValue(header.value[9..13]);
        if chunkStream.totalLength < HEADER_SIZE + length {
          break;
        }
        ghost var frame := Head(before.buffer).value;
        ReadMessagesOne(before, now);
        var _ := chunkStream.Skip(HEADER_SIZE);
        var body := [];
        if length > 0 {
          var readBody := chunkStream.Read(length);
          body := readBody.value;
        }
        assert Frame(kind, id, ack, body) == frame;
        ghost var cut := View();
        HandleFrame(kind, id, ack, body, now);
        ProcessAckIgnoresBuffer(before, ack, cut.buffer);
      }
      ReadMessagesNone(View(), now);
    }

    /** The part of the loop body that runs once the frame is out of the stream. */
    method HandleFrame(kind: byte, id: nat, ack: nat, body: seq<byte>, now: int)
      requires Valid()
      modifies this`outgoingUnackMsg, this`unackBytes, this`saturated, this`events, this`incomingAckId, this`lastAckTime
      ensures Valid()
      ensures View() == ActOn(Endpoints.ProcessAck(old(View()), ack), Frame(kind, id, ack, body), now)
    {
      hide Endpoints.ProcessAck;
      ProcessAck(ack);
      if kind == REGULAR {
        incomingAckId := id;
        events := events + [Message(id, body)];
      } else if kind == DISCONNECT {
        events := events + [Closed];
      }
      lastAckTime := now;
    }

    method ProcessAck(ack: nat)
      requires Valid()
      modifies this`outgoingUnackMsg, this`unackBytes, this`saturated, this`events
      ensures Valid()
      ensures View() == Endpoints.ProcessAck(old(View()), ack)
    {
      hide Endpoints.ProcessAck;
      while |outgoingUnackMsg| > 0 && outgoingUnackMsg[0].msg.id <= ack
        invariant Valid() && saturated == old(saturated) && events == old(events)
        invariant Endpoints.ProcessAck(View(), ack) == Endpoints.ProcessAck(old(View()), ack)
        decreases |outgoingUnackMsg|
      {
        ProcessAckOne(View(), ack);
        unackBytes := unackBytes - |outgoingUnackMsg[0].msg.data|;
        outgoingUnackMsg := outgoingUnackMsg[1..];
      }
      ProcessAckNone(View(), ack);
      if saturated && unackBytes <= options.lowWater {
        saturated := false;
        events := events + [Drained];
      }
    }

    /** The keep-alive timer. */
    method OnKeepAliveTimer()
      requires Valid()
      modifies this, socket
      ensures Valid() && View() == KeepAlive(old(View()))
      ensures socket == old(socket)
      ensures socket.outgoing == old(socket.outgoing) + Encode(Frame(KEEP_ALIVE, 0, incomingAckId, []))
    {
      WriteMessage(Frame(KEEP_ALIVE, 0, incomingAckId, []));
    }

    /** The acknowledgement timer. */
    method OnAckCheckTimer(now: int)
      requires Valid()
      modifies this, socket
      ensures Valid() && View() == AckCheck(old(View()), now)
      ensures socket == old(socket) && chunkStream == old(chunkStream)
      ensures socket.outgoing == old(socket.outgoing) +
        if old(|outgoingUnackMsg| > 0 && now - outgoingUnackMsg[0].queuedAt > options.graceMs && !overflowed)
        then Encode(Frame(DISCONNECT, 0, incomingAckId, [])) else []
    {
      hide Encode;
      if |outgoingUnackMsg| > 0 && now - lastAckTime > ACK_TIMEOUT {
        events := events + [SocketClosed];
      }
      if |outgoingUnackMsg| > 0 && now - outgoingUnackMsg[0].queuedAt > options.graceMs {
        AbandonSession();
      }
    }
  }
}
