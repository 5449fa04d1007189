/** Every step of the two-endpoint machine keeps the invariant of both directions. */
module DeliveryProof {
  import opened Bytes
  import opened Framing
  import opened Endpoints
  import opened Backpressure
  import opened ReliableDelivery
  import opened Prelude

  // -------------------------------------------------------------------------
  // What one action writes and fires
  // -------------------------------------------------------------------------

  /** Frames that may follow on a stream whose writer has sent `count` messages so far. */
  ghost predicate GoOn(frames: seq<Frame>, count: nat, sent: seq<seq<byte>>, peak: nat) {
    && Consecutive(frames, count + 1)
    && count + Regulars(frames) == |sent|
    && AcksBelow(frames, peak)
    && forall i :: 0 <= i < |frames| ==> FrameSound(frames[i], sent)
  }

  lemma OneIdle(frame: Frame, sent: seq<seq<byte>>, peak: nat)
    requires FitsWire(frame) && frame.kind != REGULAR && frame.ack <= peak
    ensures GoOn([frame], |sent|, sent, peak) && GoOn([], |sent|, sent, peak)
  {
    RegularsCount([frame]);
  }

  lemma OneMessage(frame: Frame, others: seq<Frame>, sent: seq<seq<byte>>, peak: nat)
    requires sent != [] && FitsWire(frame) && frame.kind == REGULAR && frame.ack <= peak
    requires frame.id == |sent| && frame.data == sent[|sent| - 1]
    requires GoOn(others, |sent|, sent, peak)
    ensures GoOn([frame] + others, |sent| - 1, sent, peak)
  {
    OneRegular(frame);
    hide Consecutive, Regulars, FitsWire;
    ConsecutiveConcat([frame], others, |sent|);
    RegularsConcat([frame], others);
  }

  lemma OneRegular(frame: Frame)
    requires frame.kind == REGULAR
    ensures Consecutive([frame], frame.id) && Regulars([frame]) == 1
  {
    RegularsCount([frame]);
    assert [frame][..0] == [];
  }

  lemma NumbersFitTheWire(h: Half, peer: Node)
    requires Direction(h.node, peer, h.out, h.inc) && Direction(peer, h.node, h.inc, h.out)
    ensures var e := h.node.end;
      e.incomingAckId <= Peak(e.events) < WORD && e.outgoingMsgId == |e.sent| < WORD
  {
    hide StreamsOk, Peak;
  }

  lemma SendGoesOn(e: Endpoint, body: seq<byte>, peak: nat)
    requires e.incomingAckId <= peak < WORD && e.outgoingMsgId == |e.sent|
    requires |body| < WORD && e.outgoingMsgId + 1 < WORD
    ensures GoOn(SendFrames(e, body), e.outgoingMsgId, e.sent + [body], peak)
  {
    hide GoOn;
    var sent := e.sent + [body];
    var msg, disconnect := Frame(REGULAR, e.outgoingMsgId + 1, e.incomingAckId, body), Frame(DISCONNECT, 0, e.incomingAckId, []);
    OneIdle(disconnect, sent, peak);
    OneMessage(msg, [], sent, peak);
    OneMessage(msg, [disconnect], sent, peak);
  }

  /** What is written goes on counting, and acknowledges only what was fired. */
  lemma WrittenGoesOn(h: Half, action: Action, peer: Node)
    requires Enabled(h, Do(action))
    requires Direction(h.node, peer, h.out, h.inc) && Direction(peer, h.node, h.inc, h.out)
    ensures var e, e' := h.node.end, Act(h.node.end, action);
      GoOn(Written(e, action), e.outgoingMsgId, e'.sent, Peak(e.events))
  {
    hide Direction, GoOn, Peak, SendFrames;
    var e := h.node.end;
    var peak := Peak(e.events);
    NumbersFitTheWire(h, peer);
    if action.SendBody? {
      SendGoesOn(e, action.body, peak);
    } else {
      OneIdle(Frame(KEEP_ALIVE, 0, e.incomingAckId, []), e.sent, peak);
      OneIdle(Frame(DISCONNECT, 0, e.incomingAckId, []), e.sent, peak);
    }
  }

  /** Only a dispatch fires a message or moves the acknowledgement to be sent. */
  lemma QuietAct(e: Endpoint, action: Action, sent: seq<seq<byte>>)
    requires !action.DispatchHead? && FiredIsPrefix(e.events, sent)
    ensures var e' := Act(e, action);
      && FiredIsPrefix(e'.events, sent) && Peak(e'.events) == Peak(e.events)
      && e'.incomingAckId == e.incomingAckId
  {
    hide Peak, FiredIsPrefix, Head, Acked;
    FiredSnoc(e.events, Saturated, sent);
    FiredSnoc(e.events, Drained, sent);
    FiredSnoc(e.events, Closed, sent);
    FiredSnoc(e.events, SocketClosed, sent);
    FiredSnoc(e.events + [SocketClosed], Closed, sent);
  }

  // -------------------------------------------------------------------------
  // Streams
  // -------------------------------------------------------------------------

  lemma SoundWithMore(stream: Stream, sent: seq<seq<byte>>, sent': seq<seq<byte>>)
    requires LogSound(stream, sent) && sent <= sent'
    ensures LogSound(stream, sent')
  {
  }

  lemma LogWritten(stream: Stream, frames: seq<Frame>, sent: seq<seq<byte>>, sent': seq<seq<byte>>, peak: nat)
    requires LogSound(stream, sent) && sent <= sent' && stream.read <= |stream.log|
    requires stream.first + Regulars(stream.log) == |sent| + 1
    requires GoOn(frames, |sent|, sent', peak)
    ensures var stream' := Write(stream, frames);
      && LogSound(stream', sent') && stream'.first + Regulars(stream'.log) == |sent'| + 1
      && stream'.log[..stream.read] == stream.log[..stream.read]
      && stream'.log[stream.read..] == stream.log[stream.read..] + frames
  {
    hide Consecutive, Regulars, AcksBelow;
    SoundWithMore(stream, sent, sent');
    hide FrameSound;
    ConsecutiveConcat(stream.log, frames, stream.first);
    RegularsConcat(stream.log, frames);
  }

  lemma HoldsWritten(held: seq<byte>, stream: Stream, frames: seq<Frame>, rest: seq<Frame>)
    requires Holds(held + stream.wire, rest, stream.broken)
    ensures Holds(held + Write(stream, frames).wire, rest + frames, stream.broken)
  {
    hide Holds, EncodeAll;
    HoldsWrite(held + stream.wire, rest, frames, stream.broken);
    Regroup(held, stream.wire, EncodeAll(frames));
  }

  lemma StreamWritten(s: Node, s': Node, r: Node, stream: Stream, frames: seq<Frame>, peak: nat)
    requires StreamOk(s, r, stream, s.connection)
    requires s'.connection == s.connection && s.end.sent <= s'.end.sent
    requires s.end.outgoingMsgId == |s.end.sent| && s'.end.outgoingMsgId == |s'.end.sent|
    requires GoOn(frames, s.end.outgoingMsgId, s'.end.sent, peak)
    ensures StreamOk(s', r, Write(stream, frames), s.connection)
  {
    hide Holds, LogSound, GoOn, Regulars, Peak, Held;
    var c := s.connection;
    LogWritten(stream, frames, s.end.sent, s'.end.sent, peak);
    if c >= r.connection {
      HoldsWritten(Held(r, c), stream, frames, stream.log[stream.read..]);
    }
  }

  lemma StreamUntouched(s: Node, s': Node, r: Node, stream: Stream, c: nat)
    requires StreamOk(s, r, stream, c)
    requires s.end.sent <= s'.end.sent && s.connection <= s'.connection
    requires c == s'.connection ==> c == s.connection && s'.end.outgoingMsgId == s.end.outgoingMsgId
    ensures StreamOk(s', r, stream, c)
  {
    hide Holds, Consecutive, Regulars;
    SoundWithMore(stream, s.end.sent, s'.end.sent);
  }

  /** The stream a sender starts when it replaces its socket. */
  lemma StreamStarted(s: Node, s': Node, r: Node, stream: Stream, frames: seq<Frame>, first: nat, peak: nat)
    requires s'.end.sent == s.end.sent && s'.end.outgoingMsgId == s.end.outgoingMsgId == |s.end.sent|
    requires s.connection < s'.connection
    requires StreamOk(s, r, stream, s'.connection)
    requires 1 <= first <= Peak(r.end.events) + 1
    requires GoOn(frames, first - 1, s.end.sent, peak)
    ensures StreamOk(s', r, Write(stream.(first := first), frames), s'.connection)
  {
    hide Holds, Peak, FrameSound, EncodeAll, AcksBelow;
    var c := s'.connection;
    RegularsCount([]);
    hide Regulars;
    assert [] + frames == frames && frames[..0] == [] && frames[0..] == frames && stream.log[0..] == [];
    if c >= r.connection {
      var bytes := Held(r, c) + stream.wire;
      HoldsWrite(bytes, [], frames, stream.broken);
      assert bytes + EncodeAll(frames) == Held(r, c) + (stream.wire + EncodeAll(frames));
    }
  }

  lemma StreamBroken(s: Node, r: Node, stream: Stream, c: nat, keep: nat)
    requires StreamOk(s, r, stream, c) && keep <= |stream.wire|
    ensures StreamOk(s, r, stream.(wire := stream.wire[..keep], broken := true), c)
  {
    hide Consecutive, FrameSound, Peak, EncodeAll, Regulars;
    var bytes, kept := Held(r, c) + stream.wire, Held(r, c) + stream.wire[..keep];
    if c >= r.connection {
      var all := EncodeAll(stream.log[stream.read..]);
      assert bytes == all[..|bytes|];
      assert kept == all[..|kept|];
    }
  }

  /** A stream whose reader's attachment, buffer, progress and peak are unchanged. */
  lemma StreamStill(s: Node, r: Node, r': Node, stream: Stream, c: nat)
    requires StreamOk(s, r, stream, c)
    requires r'.connection == r.connection && Peak(r.end.events) <= Peak(r'.end.events)
    requires c == r.connection ==> r'.end.buffer == r.end.buffer && r'.arrived == r.arrived
    ensures StreamOk(s, r', stream, c)
  {
    hide LogSound, Peak, EncodeAll, Regulars, Holds;
  }

  lemma StreamLeft(s: Node, r: Node, r': Node, stream: Stream, c: nat)
    requires StreamOk(s, r, stream, c)
    requires r.connection < r'.connection && r'.end.buffer == [] && r'.arrived == []
    requires Peak(r'.end.events) == Peak(r.end.events)
    ensures StreamOk(s, r', stream, c)
  {
    hide LogSound, Peak, EncodeAll, Holds;
    assert stream.log[..0] == [];
  }

  lemma StreamTaken(s: Node, r: Node, r': Node, stream: Stream, count: nat)
    requires StreamOk(s, r, stream, r.connection) && count <= |stream.wire|
    requires r' == r.(end := Accept(r.end, stream.wire[..count]))
    ensures StreamOk(s, r', stream.(wire := stream.wire[count..]), r.connection)
  {
    hide Consecutive, FrameSound, Peak, EncodeAll, Regulars, Holds;
    assert (r.end.buffer + stream.wire[..count]) + stream.wire[count..] == r.end.buffer + stream.wire;
  }

  // All streams of a link at once.

  lemma StreamsAfterWrite(s: Node, s': Node, r: Node, link: Link, frames: seq<Frame>, peak: nat)
    requires StreamsOk(s, r, link)
    requires s'.connection == s.connection && s.end.sent <= s'.end.sent
    requires s.end.outgoingMsgId == |s.end.sent| && s'.end.outgoingMsgId == |s'.end.sent|
    requires GoOn(frames, s.end.outgoingMsgId, s'.end.sent, peak)
    ensures StreamsOk(s', r, link[s.connection := Write(At(link, s.connection), frames)])
  {
    hide StreamOk, GoOn, Write;
    var link' := link[s.connection := Write(At(link, s.connection), frames)];
    forall c: nat ensures StreamOk(s', r, At(link', c), c) {
      assert StreamOk(s, r, At(link, c), c);
      if c == s.connection {
        StreamWritten(s, s', r, At(link, c), frames, peak);
      } else {
        StreamUntouched(s, s', r, At(link, c), c);
      }
    }
  }

  lemma FirstIsLowest(s: Node)
    requires SenderOk(s)
    ensures 1 <= FirstToOffer(s.end) == s.end.outgoingMsgId - |s.end.queue| + 1
    ensures s.end.outgoingMsgId == |s.end.sent|
  {
  }

  lemma StreamsAfterReconnect(s: Node, s': Node, r: Node, link: Link, link': Link, frames: seq<Frame>, peak: nat)
    requires StreamsOk(s, r, link) && s.connection < s'.connection
    requires s'.end.sent == s.end.sent && s'.end.outgoingMsgId == s.end.outgoingMsgId == |s.end.sent|
    requires 1 <= FirstToOffer(s.end) <= Peak(r.end.events) + 1
    requires GoOn(frames, FirstToOffer(s.end) - 1, s.end.sent, peak)
    requires link' == link[s'.connection := Write(At(link, s'.connection).(first := FirstToOffer(s.end)), frames)]
    ensures StreamsOk(s', r, link')
  {
    hide StreamOk, GoOn, Write, Peak, FirstToOffer;
    forall c: nat ensures StreamOk(s', r, At(link', c), c) {
      assert StreamOk(s, r, At(link, c), c);
      if c == s'.connection {
        StreamStarted(s, s', r, At(link, c), frames, FirstToOffer(s.end), peak);
      } else {
        StreamUntouched(s, s', r, At(link, c), c);
      }
    }
  }

  lemma StreamsSameSender(s: Node, s': Node, r: Node, link: Link)
    requires StreamsOk(s, r, link)
    requires s'.connection == s.connection && s'.end.sent == s.end.sent && s'.end.outgoingMsgId == s.end.outgoingMsgId
    ensures StreamsOk(s', r, link)
  {
    hide StreamOk;
    forall c: nat ensures StreamOk(s', r, At(link, c), c) {
      assert StreamOk(s, r, At(link, c), c);
      StreamUntouched(s, s', r, At(link, c), c);
    }
  }

  lemma StreamsAfterBreak(s: Node, r: Node, link: Link, which: nat, keep: nat)
    requires StreamsOk(s, r, link) && keep <= |At(link, which).wire|
    ensures var stream := At(link, which);
      StreamsOk(s, r, link[which := stream.(wire := stream.wire[..keep], broken := true)])
  {
    hide StreamOk;
    var stream := At(link, which);
    var link' := link[which := stream.(wire := stream.wire[..keep], broken := true)];
    forall c: nat ensures StreamOk(s, r, At(link', c), c) {
      assert StreamOk(s, r, At(link, c), c);
      if c == which {
        StreamBroken(s, r, stream, c, keep);
      }
    }
  }

  lemma StreamsReaderStill(s: Node, r: Node, r': Node, link: Link)
    requires StreamsOk(s, r, link)
    requires r'.connection == r.connection && Peak(r.end.events) <= Peak(r'.end.events)
    requires r'.end.buffer == r.end.buffer && r'.arrived == r.arrived
    ensures StreamsOk(s, r', link)
  {
    hide StreamOk, Peak;
    forall c: nat ensures StreamOk(s, r', At(link, c), c) {
      assert StreamOk(s, r, At(link, c), c);
      StreamStill(s, r, r', At(link, c), c);
    }
  }

  lemma StreamsReaderLeft(s: Node, r: Node, r': Node, link: Link)
    requires StreamsOk(s, r, link)
    requires r.connection < r'.connection && r'.end.buffer == [] && r'.arrived == []
    requires Peak(r'.end.events) == Peak(r.end.events)
    ensures StreamsOk(s, r', link)
  {
    hide StreamOk, Peak;
    forall c: nat ensures StreamOk(s, r', At(link, c), c) {
      assert StreamOk(s, r, At(link, c), c);
      StreamLeft(s, r, r', At(link, c), c);
    }
  }

  /** The reader and the one stream it reads change together. */
  lemma StreamsReaderMoved(s: Node, r: Node, r': Node, link: Link, stream: Stream)
    requires StreamsOk(s, r, link)
    requires r'.connection == r.connection && Peak(r.end.events) <= Peak(r'.end.events)
    requires StreamOk(s, r', stream, r.connection)
    ensures StreamsOk(s, r', link[r.connection := stream])
  {
    hide StreamOk, Peak;
    var link' := link[r.connection := stream];
    forall c: nat ensures StreamOk(s, r', At(link', c), c) {
      assert StreamOk(s, r, At(link, c), c);
      if c != r.connection {
        StreamStill(s, r, r', At(link, c), c);
      }
    }
  }

  // -------------------------------------------------------------------------
  // The direction in which the moving side is the sender
  // -------------------------------------------------------------------------

  lemma AckedStaysFired(e: Endpoint, ack: nat, peak: nat)
    requires QueueIsTail(e) && e.outgoingMsgId - |e.queue| <= peak && ack <= peak
    ensures var e' := ProcessAck(e, ack); e'.outgoingMsgId - |e'.queue| <= peak
  {
    var n := Acked(e.queue, ack);
    if n > 0 {
      assert e.queue[n - 1].msg.id <= ack;
    }
  }

  /** The frame at the front of a reader's buffer is the next one on its stream. */
  lemma HeadIsNext(s: Node, r: Node, stream: Stream)
    requires StreamOk(s, r, stream, r.connection)
    requires Head(r.end.buffer).Some?
    ensures stream.read < |stream.log| && Head(r.end.buffer) == Some(stream.log[stream.read])
    ensures var rest := r.end.buffer[FrameLength(stream.log[stream.read])..];
      Holds(rest + stream.wire, stream.log[stream.read + 1..], stream.broken)
  {
    hide Holds, Head;
    var frames := stream.log[stream.read..];
    HoldsConsume(r.end.buffer, stream.wire, frames, stream.broken);
    assert frames[1..] == stream.log[stream.read + 1..];
  }

  lemma OfferedKept(e: Endpoint, action: Action)
    requires !action.AckHead?
    ensures var e' := Act(e, action); e'.outgoingMsgId - |e'.queue| == e.outgoingMsgId - |e.queue|
  {
    hide Head;
  }

  lemma HeadAckIsFired(s: Node, r: Node, forth: Link, back: Link)
    requires Direction(s, r, forth, back) && Direction(r, s, back, forth)
    requires Head(s.end.buffer).Some?
    ensures Head(s.end.buffer).value.ack <= Peak(r.end.events)
  {
    hide Head, Peak, Holds;
    var c := s.connection;
    var stream := At(back, c);
    assert StreamOk(r, s, stream, c);
    HeadIsNext(r, s, stream);
    assert AcksBelow(stream.log, Peak(r.end.events));
  }

  lemma OfferedIsFired(h: Half, action: Action, r: Node)
    requires Direction(h.node, r, h.out, h.inc) && Direction(r, h.node, h.inc, h.out)
    ensures var e' := Act(h.node.end, action);
      e'.outgoingMsgId - |e'.queue| <= Peak(r.end.events)
  {
    var e := h.node.end;
    hide Head, Peak, ProcessAck, StreamOk, AcksOk, FiredIsPrefix;
    if !action.AckHead? {
      OfferedKept(e, action);
    } else if Head(e.buffer).Some? {
      HeadAckIsFired(h.node, r, h.out, h.inc);
      AckedStaysFired(e, Head(e.buffer).value.ack, Peak(r.end.events));
    }
  }

  lemma SenderKept(s: Node, action: Action)
    requires SenderOk(s)
    requires action.SendBody? ==> |action.body| < WORD && s.end.outgoingMsgId + 1 < WORD
    ensures var e' := Act(s.end, action);
      && SenderOk(s.(end := e'))
      && s.end.sent <= e'.sent && e'.outgoingMsgId == |e'.sent|
  {
    hide Act;
    ActKeeps(s.end, action);
    SentGrows(s.end, action);
  }

  lemma SentGrows(e: Endpoint, action: Action)
    ensures Act(e, action).sent == e.sent + if action.SendBody? then [action.body] else []
  {
    hide Head;
  }

  lemma FiredWithMore(events: seq<Event>, sent: seq<seq<byte>>, sent': seq<seq<byte>>)
    requires FiredIsPrefix(events, sent) && sent <= sent'
    ensures FiredIsPrefix(events, sent')
  {
  }

  lemma AcksOkSameLogs(r: Node, back: Link, back': Link)
    requires AcksOk(r, back)
    requires forall c: nat :: At(back', c).log == At(back, c).log
    ensures AcksOk(r, back')
  {
    hide Peak, AcksBelow;
    forall c: nat ensures AcksBelow(At(back', c).log, Peak(r.end.events)) {
      assert At(back', c).log == At(back, c).log;
      assert AcksBelow(At(back, c).log, Peak(r.end.events));
    }
  }

  /** The writing side after an action, whatever the action did to the streams it reads. */
  lemma SenderDoes(h: Half, action: Action, r: Node)
    requires Enabled(h, Do(action))
    requires Direction(h.node, r, h.out, h.inc) && Direction(r, h.node, h.inc, h.out)
    ensures var h' := Make(h, Do(action)); Direction(h'.node, r, h'.out, h'.inc)
  {
    hide Act, Written, GoOn, Head, Peak, FiredIsPrefix, StreamOk, AcksBelow, Accounted;
    var s, h' := h.node, Make(h, Do(action));
    var s', frames := h'.node, Written(s.end, action);
    assert s'.connection == s.connection && s'.end == Act(s.end, action);
    WrittenGoesOn(h, action, r);
    OfferedIsFired(h, action, r);
    SenderKept(s, action);
    NumbersFitTheWire(h, r);
    FiredWithMore(r.end.events, s.end.sent, s'.end.sent);
    AcksOkSameLogs(r, h.inc, h'.inc);
    hide SenderOk, StreamsOk, AcksOk;
    StreamsAfterWrite(s, s', r, h.out, frames, Peak(s.end.events));
  }

  lemma ReplayGoesOn(s: Node, peak: nat)
    requires SenderOk(s)
    requires forall i :: 0 <= i < |s.end.queue| ==> s.end.queue[i].msg.ack <= peak
    requires peak < WORD
    ensures GoOn(Replay(s.end.queue), FirstToOffer(s.end) - 1, s.end.sent, peak)
  {
    var e := s.end;
    var frames := Replay(e.queue);
    hide Replay, Regulars, PayloadBytes, EdgesAlternate, ToldToStop, Disconnects;
    RegularsCount(frames);
    forall i | 0 <= i < |frames|
      ensures FrameSound(frames[i], e.sent) && frames[i].id == FirstToOffer(e) + Regulars(frames[..i])
    {
      RegularsCount(frames[..i]);
      assert frames[i] == e.queue[i].msg;
    }
  }

  lemma NewSocketKeeps(e: Endpoint)
    requires Accounted(e)
    ensures var e' := Act(e, NewSocket);
      && Accounted(e') && e'.sent == e.sent && e'.outgoingMsgId == e.outgoingMsgId && e'.queue == e.queue
      && e'.events == e.events && e'.incomingAckId == e.incomingAckId && e'.buffer == []
      && Written(e, NewSocket) == Replay(e.queue)
  {
    ActKeeps(e, NewSocket);
  }

  lemma ReconnectShape(h: Half, next: nat)
    requires Enabled(h, Reconnect(next))
    ensures var e, h' := h.node.end, Make(h, Reconnect(next));
      && h'.node == Node(Act(e, NewSocket), next, [])
      && h'.out == h.out[next := Write(At(h.out, next).(first := FirstToOffer(e)), Replay(e.queue))]
      && h'.inc == h.inc
  {
  }

  lemma SenderReconnects(h: Half, next: nat, r: Node)
    requires Enabled(h, Reconnect(next))
    requires Direction(h.node, r, h.out, h.inc) && Direction(r, h.node, h.inc, h.out)
    ensures var h' := Make(h, Reconnect(next)); Direction(h'.node, r, h'.out, h'.inc)
  {
    hide Act, Accounted, GoOn, Head, Peak, FiredIsPrefix, StreamOk, AcksBelow, FirstToOffer, Make, Replay, Written;
    var s, h' := h.node, Make(h, Reconnect(next));
    var s', peak := h'.node, Peak(s.end.events);
    NumbersFitTheWire(h, r);
    NewSocketKeeps(s.end);
    ReconnectShape(h, next);
    ReplayGoesOn(s, peak);
    hide AcksOk, StreamsOk;
    assert SenderOk(s');
    FirstIsLowest(s);
    StreamsAfterReconnect(s, s', r, h.out, h'.out, Replay(s.end.queue), peak);
  }

  lemma SenderTakes(h: Half, count: nat, r: Node)
    requires Enabled(h, Take(count))
    requires Direction(h.node, r, h.out, h.inc) && Direction(r, h.node, h.inc, h.out)
    ensures var h' := Make(h, Take(count)); Direction(h'.node, r, h'.out, h'.inc)
  {
    hide Accounted, Peak, FiredIsPrefix, Head, StreamOk, AcksBelow;
    var s, h' := h.node, Make(h, Take(count));
    var s' := h'.node;
    ActKeeps(s.end, Arrive(At(h.inc, s.connection).wire[..count]));
    AcksOkSameLogs(r, h.inc, h'.inc);
    hide AcksOk, StreamsOk;
    StreamsSameSender(s, s', r, h.out);
  }

  lemma SenderBreaks(h: Half, which: nat, keep: nat, r: Node)
    requires Enabled(h, Break(which, keep))
    requires Direction(h.node, r, h.out, h.inc)
    ensures var h' := Make(h, Break(which, keep)); Direction(h'.node, r, h'.out, h'.inc)
  {
    hide Peak, FiredIsPrefix, AcksOk, SenderOk, StreamsOk;
    StreamsAfterBreak(h.node, r, h.out, which, keep);
  }

  // -------------------------------------------------------------------------
  // The direction in which the moving side is the receiver
  // -------------------------------------------------------------------------

  /** Acknowledgements after the receiver has written `frames` on stream `c0`. */
  lemma AcksAfterWrite(r: Node, r': Node, back: Link, back': Link, c0: nat, stream: Stream, frames: seq<Frame>)
    requires AcksOk(r, back)
    requires Peak(r.end.events) <= Peak(r'.end.events)
    requires r'.end.incomingAckId <= Peak(r'.end.events)
    requires forall i :: 0 <= i < |r'.end.queue| ==> r'.end.queue[i].msg.ack <= Peak(r'.end.events)
    requires back' == back[c0 := Write(stream, frames)] && stream.log == At(back, c0).log
    requires AcksBelow(frames, Peak(r'.end.events))
    ensures AcksOk(r', back')
  {
    hide Peak;
    var peak := Peak(r'.end.events);
    forall c: nat ensures AcksBelow(At(back', c).log, peak) {
      assert AcksBelow(At(back, c).log, Peak(r.end.events));
    }
  }

  lemma QueueAcks(e: Endpoint, action: Action, peak: nat)
    requires forall i :: 0 <= i < |e.queue| ==> e.queue[i].msg.ack <= peak
    requires e.incomingAckId <= peak
    ensures var e' := Act(e, action); forall i :: 0 <= i < |e'.queue| ==> e'.queue[i].msg.ack <= peak
  {
    hide Head;
  }

  lemma BufferKept(e: Endpoint, action: Action)
    requires !action.DispatchHead? && !action.Arrive? && !action.NewSocket?
    ensures Act(e, action).buffer == e.buffer
  {
    hide Head;
  }

  /** The receiver does anything but dispatch. */
  lemma ReceiverDoes(h: Half, action: Action, s: Node)
    requires Enabled(h, Do(action)) && !(action.DispatchHead? && Head(h.node.end.buffer).Some?)
    requires Direction(h.node, s, h.out, h.inc) && Direction(s, h.node, h.inc, h.out)
    ensures var h' := Make(h, Do(action)); Direction(s, h'.node, h'.inc, h'.out)
  {
    var r, h' := h.node, Make(h, Do(action));
    var r', frames, c0 := h'.node, Written(r.end, action), r.connection;
    WrittenGoesOn(h, action, s);
    if action.DispatchHead? {
      assert Act(r.end, action) == r.end;
    } else {
      QuietAct(r.end, action, s.end.sent);
      BufferKept(r.end, action);
    }
    QueueAcks(r.end, action, Peak(r.end.events));
    assert r'.connection == r.connection && r'.arrived == r.arrived && r'.end == Act(r.end, action);
    hide Act, StreamsOk, SenderOk, Written, Head, Peak, FiredIsPrefix, Consecutive, FrameSound;
    AcksAfterWrite(r, r', h.out, h'.out, c0, At(h.out, c0), frames);
    StreamsReaderStill(s, r, r', h.inc);
  }

  lemma ReceiverReconnects(h: Half, next: nat, s: Node)
    requires Enabled(h, Reconnect(next))
    requires Direction(h.node, s, h.out, h.inc) && Direction(s, h.node, h.inc, h.out)
    ensures var h' := Make(h, Reconnect(next)); Direction(s, h'.node, h'.inc, h'.out)
  {
    var r, h' := h.node, Make(h, Reconnect(next));
    var r' := h'.node;
    NewSocketKeeps(r.end);
    ReconnectShape(h, next);
    ReplayGoesOn(r, Peak(r.end.events));
    hide Act, Accounted, Head, Peak, FiredIsPrefix, Consecutive, FrameSound, StreamsOk, FirstToOffer, Make, Replay, Written;
    AcksAfterWrite(r, r', h.out, h'.out, next, At(h.out, next).(first := FirstToOffer(r.end)), Replay(r.end.queue));
    StreamsReaderLeft(s, r, r', h.inc);
  }

  lemma ReceiverTakes(h: Half, count: nat, s: Node)
    requires Enabled(h, Take(count))
    requires Direction(s, h.node, h.inc, h.out)
    ensures var h' := Make(h, Take(count)); Direction(s, h'.node, h'.inc, h'.out)
  {
    hide SenderOk, Peak, FiredIsPrefix, StreamOk, AcksOk;
    var r, h' := h.node, Make(h, Take(count));
    var r', stream := h'.node, At(h.inc, r.connection);
    assert StreamOk(s, r, stream, r.connection);
    hide StreamsOk;
    AcksOkSameNode(r, r', h.out);
    StreamTaken(s, r, r', stream, count);
    StreamsReaderMoved(s, r, r', h.inc, stream.(wire := stream.wire[count..]));
  }

  lemma AcksOkSameNode(r: Node, r': Node, back: Link)
    requires AcksOk(r, back)
    requires r'.end.events == r.end.events && r'.end.queue == r.end.queue && r'.end.incomingAckId == r.end.incomingAckId
    ensures AcksOk(r', back)
  {
  }

  lemma ReceiverBreaks(h: Half, which: nat, keep: nat, s: Node)
    requires Enabled(h, Break(which, keep))
    requires Direction(s, h.node, h.inc, h.out)
    ensures var h' := Make(h, Break(which, keep)); Direction(s, h'.node, h'.inc, h'.out)
  {
    var h' := Make(h, Break(which, keep));
    AcksOkSameLogs(h.node, h.out, h'.out);
  }

  /** The dispatch of a Regular frame: the next id, or one fired before. */
  lemma ReceiverDispatches(h: Half, now: int, s: Node)
    requires Head(h.node.end.buffer).Some?
    requires Direction(h.node, s, h.out, h.inc) && Direction(s, h.node, h.inc, h.out)
    ensures var h' := Make(h, Do(DispatchHead(now))); Direction(s, h'.node, h'.inc, h'.out)
  {
    hide SenderOk, Peak, StreamOk, FiredIsPrefix, Head, Dispatch, FrameLength, Holds, Make;
    var r, h' := h.node, Make(h, Do(DispatchHead(now)));
    var r', c0, stream := h'.node, r.connection, At(h.inc, r.connection);
    assert StreamOk(s, r, stream, c0);
    hide StreamsOk;
    HeadIsNext(s, r, stream);
    DispatchShape(h, now);
    DispatchAdvances(s, r, r', stream, now);
    AcksAfterWrite(r, r', h.out, h'.out, c0, At(h.out, c0), []);
    StreamsReaderMoved(s, r, r', h.inc, stream.(read := stream.read + 1));
  }

  lemma DispatchShape(h: Half, now: int)
    requires Head(h.node.end.buffer).Some?
    ensures var e, c, h' := h.node.end, h.node.connection, Make(h, Do(DispatchHead(now)));
      var frame, stream := Head(e.buffer).value, At(h.inc, c);
      && h'.node == Node(Dispatch(e, now), c, h.node.arrived + if frame.kind == REGULAR then [frame.id] else [])
      && h'.out == h.out[c := Write(At(h.out, c), [])]
      && h'.inc == h.inc[c := stream.(read := stream.read + 1)]
      && h'.node.end.queue == e.queue
  {
    hide Head;
  }

  lemma DispatchAdvances(s: Node, r: Node, r': Node, stream: Stream, now: int)
    requires StreamOk(s, r, stream, r.connection) && FiredIsPrefix(r.end.events, s.end.sent)
    requires r.end.incomingAckId <= Peak(r.end.events)
    requires stream.read < |stream.log| && Head(r.end.buffer) == Some(stream.log[stream.read])
    requires var rest := r.end.buffer[FrameLength(stream.log[stream.read])..];
      Holds(rest + stream.wire, stream.log[stream.read + 1..], stream.broken)
    requires var frame := stream.log[stream.read];
      r' == Node(Dispatch(r.end, now), r.connection, r.arrived + if frame.kind == REGULAR then [frame.id] else [])
    ensures StreamOk(s, r', stream.(read := stream.read + 1), r.connection)
    ensures FiredIsPrefix(r'.end.events, s.end.sent)
    ensures Peak(r.end.events) <= Peak(r'.end.events) && r'.end.incomingAckId <= Peak(r'.end.events)
  {
    hide Holds, Head, Peak, FiredIsPrefix, LogSound;
    var frame, log := stream.log[stream.read], stream.log;
    NextIsSound(stream, s.end.sent);
    assert log[..stream.read + 1] == log[..stream.read] + [frame];
    RegularsSnoc(log[..stream.read], frame);
    SoundWhereverRead(stream, s.end.sent);
    hide Regulars;
    if frame.kind == REGULAR {
      FiredSnoc(r.end.events, Message(frame.id, frame.data), s.end.sent);
    } else {
      FiredSnoc(r.end.events, Closed, s.end.sent);
    }
  }

  lemma NextIsSound(stream: Stream, sent: seq<seq<byte>>)
    requires LogSound(stream, sent) && stream.read < |stream.log|
    ensures FrameSound(stream.log[stream.read], sent)
    ensures var frame := stream.log[stream.read];
      frame.kind == REGULAR ==> frame.id == stream.first + Regulars(stream.log[..stream.read])
  {
  }

  lemma SoundWhereverRead(stream: Stream, sent: seq<seq<byte>>)
    requires LogSound(stream, sent)
    ensures LogSound(stream.(read := stream.read + 1), sent)
  {
  }
}
