/** Byte accounting and watermarks of one endpoint, over every run of its operations. */
module Backpressure {
  import opened Bytes
  import opened Framing
  import opened Endpoints
  import opened Prelude

  /**
   Everything that can happen to an endpoint. A read callback is an `Arrive` and then, per frame, an
   `AckHead` and a `DispatchHead`; as separate actions they let a listener send in between.
   */
  datatype Action =
    | SendBody(body: seq<byte>, now: int)
    | Arrive(chunk: seq<byte>)
    | AckHead
    | DispatchHead(now: int)
    | NewSocket
    | KeepAliveTimer
    | AckCheckTimer(now: int)

  function Act(e: Endpoint, action: Action): Endpoint {
    match action
    case SendBody(body, now) => Send(e, body, now)
    case Arrive(chunk) => Accept(e, chunk)
    case AckHead => if Head(e.buffer).Some? then ProcessAck(e, Head(e.buffer).value.ack) else e
    case DispatchHead(now) => if Head(e.buffer).Some? then Dispatch(e, now) else e
    case NewSocket => ReplaceSocket(e)
    case KeepAliveTimer => KeepAlive(e)
    case AckCheckTimer(now) => AckCheck(e, now)
  }

  function Run(e: Endpoint, actions: seq<Action>): Endpoint
    decreases |actions|
  {
    if actions == [] then e else Run(Act(e, actions[0]), actions[1..])
  }

  /** The read loop is a run of these actions. */
  lemma {:induction false} ReadMessagesIsRun(e: Endpoint, now: int) returns (actions: seq<Action>)
    ensures Run(e, actions) == ReadMessages(e, now)
    decreases |e.buffer|
  {
    hide ProcessAck, ActOn;
    if Head(e.buffer).None? {
      actions := [];
    } else {
      var acked := Act(e, AckHead);
      ProcessAckIgnoresBuffer(e, Head(e.buffer).value.ack, e.buffer);
      var next := Act(acked, DispatchHead(now));
      assert next.buffer == acked.buffer[FrameLength(Head(e.buffer).value)..] by { DispatchShortens(acked, now); }
      var later := ReadMessagesIsRun(next, now);
      actions := [AckHead, DispatchHead(now)] + later;
      assert actions[1..] == [DispatchHead(now)] + later && actions[1..][1..] == later;
    }
  }

  lemma DispatchShortens(e: Endpoint, now: int)
    requires Head(e.buffer).Some?
    ensures Dispatch(e, now).buffer == e.buffer[FrameLength(Head(e.buffer).value)..]
  {
  }

  // -------------------------------------------------------------------------
  // The invariant
  // -------------------------------------------------------------------------

  /** The unacknowledged messages are the last ones sent, under consecutive ids. */
  predicate QueueIsTail(e: Endpoint) {
    && |e.sent| == e.outgoingMsgId
    && |e.queue| <= e.outgoingMsgId
    && forall i :: 0 <= i < |e.queue| ==>
         var msg := e.queue[i].msg;
         && msg.kind == REGULAR
         && msg.id == e.outgoingMsgId - |e.queue| + 1 + i
         && msg.data == e.sent[msg.id - 1]
  }

  /** Whether the last watermark event told listeners to stop. */
  function ToldToStop(events: seq<Event>): bool {
    if events == [] then false
    else match events[|events| - 1]
      case Saturated => true
      case Drained => false
      case _ => ToldToStop(events[..|events| - 1])
  }

  /** Saturated and Drained come in turn, Saturated first. */
  predicate EdgesAlternate(events: seq<Event>) {
    events != [] ==>
      var before, last := events[..|events| - 1], events[|events| - 1];
      && EdgesAlternate(before)
      && (last.Saturated? ==> !ToldToStop(before))
      && (last.Drained? ==> ToldToStop(before))
  }

  function Disconnects(frames: seq<Frame>): nat {
    if frames == [] then 0
    else Disconnects(frames[..|frames| - 1]) + if frames[|frames| - 1].kind == DISCONNECT then 1 else 0
  }

  ghost predicate Accounted(e: Endpoint) {
    && QueueIsTail(e)
    && e.unackBytes == PayloadBytes(e.queue)
    && EdgesAlternate(e.events) && (e.saturated <==> ToldToStop(e.events))
    && Disconnects(e.written) == if e.overflowed then 1 else 0
  }

  // What the watermarks mean for the byte counter.

  predicate StopsAboveLow(e: Endpoint) {
    e.saturated ==> e.unackBytes > e.options.lowWater
  }

  predicate RunsBelowHigh(e: Endpoint) {
    !e.saturated && !e.overflowed ==> e.unackBytes <= e.options.highWater
  }

  /** With the marks in order, an endpoint that can saturate at all does so above the low mark. */
  predicate MarksHold(e: Endpoint) {
    StopsAboveLow(e) && RunsBelowHigh(e) && (e.saturated ==> e.options.highWater < e.options.replayMax)
  }

  /** Either the low mark is not above the high one, or the high mark is never reached. */
  predicate MarksInOrder(options: Options) {
    options.lowWater <= options.highWater || options.replayMax <= options.highWater
  }

  // -------------------------------------------------------------------------
  // Every operation keeps it
  // -------------------------------------------------------------------------

  lemma {:induction false} PayloadBytesSplit(queue: seq<Entry>, n: nat)
    requires n <= |queue|
    ensures PayloadBytes(queue) == PayloadBytes(queue[..n]) + PayloadBytes(queue[n..])
    decreases n
  {
    if n > 0 {
      assert queue[..n][1..] == queue[1..][..n - 1] && queue[n..] == queue[1..][n - 1..];
      PayloadBytesSplit(queue[1..], n - 1);
    } else {
      assert queue[0..] == queue;
    }
  }

  lemma EventAdded(events: seq<Event>, event: Event)
    ensures EdgesAlternate(events + [event]) <==>
              && EdgesAlternate(events)
              && (event.Saturated? ==> !ToldToStop(events)) && (event.Drained? ==> ToldToStop(events))
    ensures ToldToStop(events + [event]) == (event.Saturated? || (!event.Drained? && ToldToStop(events)))
  {
    var all := events + [event];
    assert all[..|all| - 1] == events && all[|all| - 1] == event;
  }

  lemma FrameWritten(frames: seq<Frame>, frame: Frame)
    ensures Disconnects(frames + [frame]) == Disconnects(frames) + if frame.kind == DISCONNECT then 1 else 0
  {
    assert (frames + [frame])[..|frames|] == frames;
  }

  lemma {:induction false} RegularsWritten(frames: seq<Frame>, more: seq<Frame>)
    requires forall i :: 0 <= i < |more| ==> more[i].kind == REGULAR
    ensures Disconnects(frames + more) == Disconnects(frames)
    decreases |more|
  {
    if more == [] {
      assert frames + more == frames;
    } else {
      var last := |more| - 1;
      assert frames + more == (frames + more[..last]) + [more[last]];
      FrameWritten(frames + more[..last], more[last]);
      RegularsWritten(frames, more[..last]);
    }
  }

  lemma AbandonKeeps(e: Endpoint)
    requires QueueIsTail(e) && e.unackBytes == PayloadBytes(e.queue)
    requires EdgesAlternate(e.events) && (e.saturated <==> ToldToStop(e.events))
    requires Disconnects(e.written) == if e.overflowed then 1 else 0
    ensures Accounted(Abandon(e))
  {
    EventAdded(e.events, Closed);
    FrameWritten(e.written, Frame(DISCONNECT, 0, e.incomingAckId, []));
  }

  lemma PayloadBytesSnoc(queue: seq<Entry>, last: Entry)
    ensures PayloadBytes(queue + [last]) == PayloadBytes(queue) + |last.msg.data|
  {
    var all := queue + [last];
    PayloadBytesSplit(all, |queue|);
    assert all[..|queue|] == queue && all[|queue|..] == [last];
    assert PayloadBytes([last]) == |last.msg.data| + PayloadBytes([]);
  }

  lemma EnqueueKeeps(e: Endpoint, body: seq<byte>, now: int)
    requires Accounted(e)
    ensures var e' := Enqueue(e, body, now);
      && QueueIsTail(e') && e'.unackBytes == PayloadBytes(e'.queue)
      && Disconnects(e'.written) == Disconnects(e.written)
  {
    var msg := Frame(REGULAR, e.outgoingMsgId + 1, e.incomingAckId, body);
    hide Disconnects, PayloadBytes, EdgesAlternate, ToldToStop;
    FrameWritten(e.written, msg);
    PayloadBytesSnoc(e.queue, Entry(msg, now));
  }

  lemma SendKeeps(e: Endpoint, body: seq<byte>, now: int)
    requires Accounted(e)
    ensures Accounted(Send(e, body, now))
  {
    hide Disconnects, PayloadBytes, EdgesAlternate, ToldToStop;
    EnqueueKeeps(e, body, now);
    var queued := Enqueue(e, body, now);
    if queued.unackBytes > e.options.replayMax {
      AbandonKeeps(queued);
    } else {
      EventAdded(e.events, Saturated);
    }
  }

  lemma ProcessAckKeeps(e: Endpoint, ack: nat)
    requires Accounted(e)
    ensures Accounted(ProcessAck(e, ack))
  {
    hide Disconnects, EdgesAlternate, ToldToStop, PayloadBytes;
    var n := Acked(e.queue, ack);
    PayloadBytesSplit(e.queue, n);
    EventAdded(e.events, Drained);
  }

  lemma DispatchKeeps(e: Endpoint, now: int)
    requires Accounted(e) && Head(e.buffer).Some?
    ensures Accounted(Dispatch(e, now))
  {
    hide Disconnects, EdgesAlternate, ToldToStop, PayloadBytes, Head;
    var frame := Head(e.buffer).value;
    EventAdded(e.events, Message(frame.id, frame.data));
    EventAdded(e.events, Closed);
  }

  lemma ActKeeps(e: Endpoint, action: Action)
    requires Accounted(e)
    ensures Accounted(Act(e, action))
  {
    hide Send, ProcessAck, Dispatch, Head, Disconnects, EdgesAlternate, ToldToStop, PayloadBytes;
    match action
    case SendBody(body, now) => SendKeeps(e, body, now);
    case Arrive(_) =>
    case AckHead => if Head(e.buffer).Some? { ProcessAckKeeps(e, Head(e.buffer).value.ack); }
    case DispatchHead(now) => if Head(e.buffer).Some? { DispatchKeeps(e, now); }
    case NewSocket => RegularsWritten(e.written, Replay(e.queue));
    case KeepAliveTimer => FrameWritten(e.written, Frame(KEEP_ALIVE, 0, e.incomingAckId, []));
    case AckCheckTimer(now) =>
      EventAdded(e.events, SocketClosed);
      AbandonKeeps(e);
      AbandonKeeps(e.(events := e.events + [SocketClosed]));
  }

  lemma {:induction false} RunKeeps(e: Endpoint, actions: seq<Action>)
    requires Accounted(e)
    ensures Accounted(Run(e, actions)) && Run(e, actions).options == e.options
    decreases |actions|
  {
    if actions != [] {
      hide Accounted;
      ActKeeps(e, actions[0]);
      ActKeepsOptions(e, actions[0]);
      RunKeeps(Act(e, actions[0]), actions[1..]);
    }
  }

  lemma ActKeepsOptions(e: Endpoint, action: Action)
    ensures Act(e, action).options == e.options
  {
  }

  /**
   In every reachable state: the queue holds exactly the last messages sent, consecutive ids ending
   at the last one; the byte counter is the sum of their payloads; Saturated and Drained alternate, and the flag is their last
   word; a Disconnect was written at most once, exactly when the session was abandoned.
   */
  lemma AccountingHolds(options: Options, start: int, actions: seq<Action>)
    ensures Accounted(Run(Fresh(options, start), actions)) && Run(Fresh(options, start), actions).options == options
  {
    RunKeeps(Fresh(options, start), actions);
  }

  // -------------------------------------------------------------------------
  // The watermarks bound the bytes exactly when the marks are in order
  // -------------------------------------------------------------------------

  lemma ActKeepsMarks(e: Endpoint, action: Action)
    requires MarksInOrder(e.options) && MarksHold(e)
    ensures MarksHold(Act(e, action))
  {
    hide Head, Replay;
  }

  lemma {:induction false} RunKeepsMarks(e: Endpoint, actions: seq<Action>)
    requires MarksInOrder(e.options) && MarksHold(e)
    ensures MarksHold(Run(e, actions))
    decreases |actions|
  {
    if actions != [] {
      hide MarksHold;
      ActKeepsMarks(e, actions[0]);
      ActKeepsOptions(e, actions[0]);
      RunKeepsMarks(Act(e, actions[0]), actions[1..]);
    }
  }

  ghost predicate AlwaysStopsAboveLow(options: Options, start: int) {
    forall actions :: StopsAboveLow(Run(Fresh(options, start), actions))
  }

  ghost predicate AlwaysRunsBelowHigh(options: Options, start: int) {
    forall actions :: RunsBelowHigh(Run(Fresh(options, start), actions))
  }

  /** One message above the high mark but not above the low one, small enough to keep the session. */
  lemma SaturatedBelowLow(options: Options, start: int) returns (send: Action, e: Endpoint)
    requires !MarksInOrder(options)
    ensures e == Act(Fresh(options, start), send)
    ensures e.saturated && !e.overflowed && e.buffer == []
    ensures options.highWater < e.unackBytes <= options.lowWater
    ensures e.options == options && e.queue != [] && e.queue[0].msg.id == 1
  {
    send := SendBody(seq(options.highWater + 1, _ => 0), start);
    e := Act(Fresh(options, start), send);
  }

  /** Being saturated always means being above the low mark if, and only if, the marks are in order. */
  lemma SaturationFloor(options: Options, start: int)
    ensures AlwaysStopsAboveLow(options, start) <==> MarksInOrder(options)
  {
    if MarksInOrder(options) {
      forall actions ensures StopsAboveLow(Run(Fresh(options, start), actions)) {
        RunKeepsMarks(Fresh(options, start), actions);
      }
    } else {
      var send, e := SaturatedBelowLow(options, start);
      assert [send][1..] == [];
      assert Run(Fresh(options, start), [send]) == Run(e, []) == e;
      assert !StopsAboveLow(Run(Fresh(options, start), [send]));
    }
  }

  /** Running unsaturated always means being within the high mark if, and only if, the marks are in order. */
  lemma RunningCeiling(options: Options, start: int)
    ensures AlwaysRunsBelowHigh(options, start) <==> MarksInOrder(options)
  {
    if MarksInOrder(options) {
      forall actions ensures RunsBelowHigh(Run(Fresh(options, start), actions)) {
        RunKeepsMarks(Fresh(options, start), actions);
      }
    } else {
      // Then any frame, even one that acknowledges nothing, ends the saturation.
      var send, e := SaturatedBelowLow(options, start);
      var idle := Frame(KEEP_ALIVE, 0, 0, []);
      HeadOfEncoded(idle, []);
      hide Head, Encode;
      var arrived := Act(e, Arrive(Encode(idle)));
      assert arrived.buffer == Encode(idle) + [];
      var acked := Act(arrived, AckHead);
      ProcessAckNone(arrived, 0);
      assert !RunsBelowHigh(acked);
      var actions := [send, Arrive(Encode(idle)), AckHead];
      assert actions[1..][1..] == [AckHead] && [AckHead][1..] == [] && actions[1..][0] == Arrive(Encode(idle));
      assert Run(Fresh(options, start), actions) == Run(e, actions[1..]) == Run(arrived, [AckHead]) == Run(acked, []) == acked;
    }
  }
}
