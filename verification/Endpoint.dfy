/**
 One endpoint of `PersistentProtocol`: ids, piggybacked acknowledgements, replay after a socket is replaced, and
 the watermarks over the unacknowledged payload bytes.

 The endpoint's behaviour is first given as functions on a value, one per stretch of code that
 runs without calling a listener; `PersistentProtocols` carries it out on fields.
 */
module Endpoints {
  import opened Bytes
  import opened Framing
  import opened Prelude

  const ACK_TIMEOUT := 20000

  datatype Options = Options(highWater: nat, lowWater: nat, replayMax: nat, graceMs: int)

  /** A message kept until it is acknowledged. */
  datatype Entry = Entry(msg: Frame, queuedAt: int)

  /** What listeners are told. `Message` also records the frame's id, which they do not see. */
  datatype Event = Message(id: nat, body: seq<byte>) | Closed | SocketClosed | Saturated | Drained

  /** The fields of the source's class, and the history of what it was given, wrote and fired. */
  datatype Endpoint = Endpoint(
    options: Options,
    outgoingMsgId: nat,
    queue: seq<Entry>,
    incomingAckId: nat,
    unackBytes: int,
    saturated: bool,
    overflowed: bool,
    lastAckTime: int,
    buffer: seq<byte>,
    sent: seq<seq<byte>>,
    written: seq<Frame>,
    events: seq<Event>)

  function Fresh(options: Options, now: int): Endpoint {
    Endpoint(options, 0, [], 0, 0, false, false, now, [], [], [], [])
  }

  // -------------------------------------------------------------------------
  // Sending
  // -------------------------------------------------------------------------

  function Abandon(e: Endpoint): Endpoint {
    if e.overflowed then e
    else e.(overflowed := true,
            written := e.written + [Frame(DISCONNECT, 0, e.incomingAckId, [])],
            events := e.events + [Closed])
  }

  /** `send` up to and including the write of the frame. */
  function Enqueue(e: Endpoint, body: seq<byte>, now: int): Endpoint {
    var msg := Frame(REGULAR, e.outgoingMsgId + 1, e.incomingAckId, body);
    e.(outgoingMsgId := e.outgoingMsgId + 1,
       queue := e.queue + [Entry(msg, now)],
       unackBytes := e.unackBytes + |body|,
       sent := e.sent + [body],
       written := e.written + [msg])
  }

  function CheckWater(e: Endpoint): Endpoint {
    if e.unackBytes > e.options.replayMax then Abandon(e)
    else if !e.saturated && e.unackBytes > e.options.highWater then
      e.(saturated := true, events := e.events + [Saturated])
    else e
  }

  function Send(e: Endpoint, body: seq<byte>, now: int): Endpoint {
    CheckWater(Enqueue(e, body, now))
  }

  /** The frames one `send` writes: the message, and a Disconnect if it is the one too many. */
  function SendFrames(e: Endpoint, body: seq<byte>): seq<Frame> {
    [Frame(REGULAR, e.outgoingMsgId + 1, e.incomingAckId, body)] +
    if e.unackBytes + |body| > e.options.replayMax && !e.overflowed
    then [Frame(DISCONNECT, 0, e.incomingAckId, [])] else []
  }

  function Replay(queue: seq<Entry>): (frames: seq<Frame>)
    ensures |frames| == |queue|
    ensures forall i :: 0 <= i < |queue| ==> frames[i] == queue[i].msg
  {
    if queue == [] then [] else [queue[0].msg] + Replay(queue[1..])
  }

  function ReplaceSocket(e: Endpoint): Endpoint {
    e.(buffer := [], written := e.written + Replay(e.queue))
  }

  function KeepAlive(e: Endpoint): Endpoint {
    e.(written := e.written + [Frame(KEEP_ALIVE, 0, e.incomingAckId, [])])
  }

  /** The periodic check: silence for too long, then a message unacknowledged for too long. */
  function AckCheck(e: Endpoint, now: int): Endpoint {
    var told := if e.queue != [] && now - e.lastAckTime > ACK_TIMEOUT
                then e.(events := e.events + [SocketClosed]) else e;
    if e.queue != [] && now - e.queue[0].queuedAt > e.options.graceMs then Abandon(told) else told
  }

  // -------------------------------------------------------------------------
  // Receiving
  // -------------------------------------------------------------------------

  function PayloadBytes(queue: seq<Entry>): nat {
    if queue == [] then 0 else |queue[0].msg.data| + PayloadBytes(queue[1..])
  }

  /** How many messages at the front of the queue the acknowledgement covers. */
  function Acked(queue: seq<Entry>, ack: nat): (n: nat)
    ensures n <= |queue|
    ensures forall i :: 0 <= i < n ==> queue[i].msg.id <= ack
    ensures n < |queue| ==> queue[n].msg.id > ack
  {
    if queue == [] || queue[0].msg.id > ack then 0 else 1 + Acked(queue[1..], ack)
  }

  function CheckDrained(e: Endpoint): Endpoint {
    if e.saturated && e.unackBytes <= e.options.lowWater
    then e.(saturated := false, events := e.events + [Drained])
    else e
  }

  function ProcessAck(e: Endpoint, ack: nat): Endpoint {
    var n := Acked(e.queue, ack);
    CheckDrained(e.(queue := e.queue[n..], unackBytes := e.unackBytes - PayloadBytes(e.queue[..n])))
  }

  /** What follows the acknowledgement: the frame is acted on according to its type. */
  function ActOn(e: Endpoint, frame: Frame, now: int): Endpoint {
    var alive := e.(lastAckTime := now);
    if frame.kind == REGULAR then
      alive.(incomingAckId := frame.id, events := e.events + [Message(frame.id, frame.data)])
    else if frame.kind == DISCONNECT then
      alive.(events := e.events + [Closed])
    else alive
  }

  /** The frame at the front leaves the buffer and is acted on. */
  function Dispatch(e: Endpoint, now: int): Endpoint
    requires Head(e.buffer).Some?
  {
    var frame := Head(e.buffer).value;
    ActOn(e.(buffer := e.buffer[FrameLength(frame)..]), frame, now)
  }

  /** The read loop: every complete frame, each acknowledged and then dispatched. */
  function ReadMessages(e: Endpoint, now: int): Endpoint
    decreases |e.buffer|
  {
    match Head(e.buffer)
    case None => e
    case Some(frame) => ReadMessages(Dispatch(ProcessAck(e, frame.ack), now), now)
  }

  function Accept(e: Endpoint, chunk: seq<byte>): Endpoint {
    e.(buffer := e.buffer + chunk)
  }

  // -------------------------------------------------------------------------
  // Helpers
  // -------------------------------------------------------------------------

  lemma EncodeAllNone()
    ensures EncodeAll([]) == []
  {
  }

  lemma EncodeAllSnoc(frames: seq<Frame>, last: Frame)
    ensures EncodeAll(frames + [last]) == EncodeAll(frames) + Encode(last)
  {
    hide Encode;
    EncodeAllConcat(frames, [last]);
    assert EncodeAll([last]) == Encode(last) + EncodeAll([]);
  }

  lemma EncodeAllTwo(first: Frame, second: Frame)
    ensures EncodeAll([first]) == Encode(first)
    ensures EncodeAll([first, second]) == Encode(first) + Encode(second)
  {
    hide Encode;
    assert EncodeAll([]) == [];
    EncodeAllSnoc([], first);
    EncodeAllSnoc([first], second);
    assert [] + [first] == [first] && [first] + [second] == [first, second];
  }

  lemma ProcessAckIgnoresBuffer(e: Endpoint, ack: nat, buffer: seq<byte>)
    ensures ProcessAck(e.(buffer := buffer), ack) == ProcessAck(e, ack).(buffer := buffer)
    ensures ProcessAck(e, ack).buffer == e.buffer
  {
  }

  /** One turn of the acknowledgement loop. */
  lemma ProcessAckOne(e: Endpoint, ack: nat)
    requires e.queue != [] && e.queue[0].msg.id <= ack
    ensures ProcessAck(e.(queue := e.queue[1..], unackBytes := e.unackBytes - |e.queue[0].msg.data|), ack)
         == ProcessAck(e, ack)
  {
    var n := Acked(e.queue, ack);
    assert e.queue[..n][1..] == e.queue[1..][..n - 1];
    assert e.queue[1..][n - 1..] == e.queue[n..];
  }

  lemma ProcessAckNone(e: Endpoint, ack: nat)
    requires e.queue == [] || e.queue[0].msg.id > ack
    ensures ProcessAck(e, ack) == CheckDrained(e)
  {
    assert e.queue[0..] == e.queue;
  }

  lemma ReadMessagesOne(e: Endpoint, now: int)
    requires Head(e.buffer).Some?
    ensures ReadMessages(e, now) == ReadMessages(Dispatch(ProcessAck(e, Head(e.buffer).value.ack), now), now)
  {
  }

  lemma ReadMessagesNone(e: Endpoint, now: int)
    requires |e.buffer| < HEADER_SIZE || Head(e.buffer).None?
    ensures ReadMessages(e, now) == e
  {
  }
}
