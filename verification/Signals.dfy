/**
 What the listeners of an endpoint are told, and exactly when; what is acknowledged, and what an
 acknowledgement lets go of. All in terms of what was sent, fired and is still kept.
 */
module Signals {
  import opened Bytes
  import opened Framing
  import opened Endpoints
  import opened Backpressure
  import opened Prelude

  /** The id of the last message given to a listener. */
  function LastFired(events: seq<Event>): nat {
    if events == [] then 0
    else
      var last := events[|events| - 1];
      if last.Message? then last.id else LastFired(events[..|events| - 1])
  }

  lemma LastFiredSnoc(events: seq<Event>, event: Event)
    ensures LastFired(events + [event]) == if event.Message? then event.id else LastFired(events)
  {
    assert (events + [event])[..|events|] == events;
  }

  // -------------------------------------------------------------------------
  // One action
  // -------------------------------------------------------------------------

  /** A complete frame is at the front of what was received. */
  predicate Arrived(e: Endpoint, kind: nat) {
    Head(e.buffer).Some? && Head(e.buffer).value.kind == kind
  }

  /** The endpoint has given the session up. */
  predicate GivenUp(e: Endpoint) {
    Disconnects(e.written) > 0
  }

  /** Too many bytes, or a message unacknowledged for too long. */
  predicate GivesUp(e: Endpoint, action: Action) {
    && !GivenUp(e)
    && ((action.SendBody? && PayloadBytes(e.queue) + |action.body| > e.options.replayMax)
        || (action.AckCheckTimer? && e.queue != [] && action.now - e.queue[0].queuedAt > e.options.graceMs))
  }

  function Told(e: Endpoint, action: Action): seq<Event> {
    var before, after := e.events, Act(e, action).events;
    if |before| <= |after| then after[|before|..] else []
  }

  /** What was told before stays, and this comes behind it. */
  predicate Tells(e: Endpoint, action: Action, told: seq<Event>) {
    Act(e, action).events == e.events + told
  }

  lemma ToldIs(e: Endpoint, action: Action, told: seq<Event>)
    requires Tells(e, action, told)
    ensures e.events <= Act(e, action).events && Told(e, action) == told
  {
    hide Act;
  }

  lemma SendTells(e: Endpoint, action: Action)
    requires Accounted(e) && action.SendBody?
    ensures var bytes := PayloadBytes(e.queue) + |action.body|;
      Tells(e, action,
        if bytes > e.options.replayMax then (if GivenUp(e) then [] else [Closed])
        else if !ToldToStop(e.events) && bytes > e.options.highWater then [Saturated] else [])
  {
    hide ToldToStop, EdgesAlternate, QueueIsTail, PayloadBytes, Disconnects;
  }

  lemma AckTells(e: Endpoint, action: Action)
    requires Accounted(e) && action.AckHead?
    ensures Tells(e, action,
      if Head(e.buffer).Some? && ToldToStop(e.events) && PayloadBytes(Act(e, action).queue) <= e.options.lowWater
      then [Drained] else [])
  {
    if Head(e.buffer).Some? {
      PayloadBytesSplit(e.queue, Acked(e.queue, Head(e.buffer).value.ack));
    }
    hide Head, ToldToStop, EdgesAlternate, QueueIsTail, PayloadBytes, Disconnects;
  }

  lemma DispatchTells(e: Endpoint, action: Action)
    requires action.DispatchHead?
    ensures Tells(e, action,
      if Arrived(e, REGULAR) then [Message(Head(e.buffer).value.id, Head(e.buffer).value.data)]
      else if Arrived(e, DISCONNECT) then [Closed] else [])
  {
    hide Head;
  }

  lemma CheckTells(e: Endpoint, action: Action)
    requires Accounted(e) && action.AckCheckTimer?
    ensures Tells(e, action,
      (if e.queue != [] && action.now - e.lastAckTime > ACK_TIMEOUT then [SocketClosed] else []) +
      (if e.queue != [] && action.now - e.queue[0].queuedAt > e.options.graceMs && !GivenUp(e) then [Closed] else []))
  {
    hide ToldToStop, EdgesAlternate, QueueIsTail, PayloadBytes, Disconnects;
  }

  lemma OthersTellNothing(e: Endpoint, action: Action)
    requires action.Arrive? || action.NewSocket? || action.KeepAliveTimer?
    ensures Tells(e, action, [])
  {
    hide Replay;
  }

  /** What one action tells the listeners of an endpoint that keeps its books. */
  lemma ToldExactly(e: Endpoint, action: Action)
    requires Accounted(e)
    ensures e.events <= Act(e, action).events
    ensures Saturated in Told(e, action) <==>
      action.SendBody? && !ToldToStop(e.events) && e.options.highWater < PayloadBytes(e.queue) + |action.body| <= e.options.replayMax
    ensures Drained in Told(e, action) <==>
      action.AckHead? && Head(e.buffer).Some? && ToldToStop(e.events) && PayloadBytes(Act(e, action).queue) <= e.options.lowWater
    ensures Closed in Told(e, action) <==> GivesUp(e, action) || (action.DispatchHead? && Arrived(e, DISCONNECT))
    ensures SocketClosed in Told(e, action) <==>
      action.AckCheckTimer? && e.queue != [] && action.now - e.lastAckTime > ACK_TIMEOUT
    ensures forall id, body :: Message(id, body) in Told(e, action) <==>
      action.DispatchHead? && Arrived(e, REGULAR) && id == Head(e.buffer).value.id && body == Head(e.buffer).value.data
  {
    hide Act, Accounted, ToldToStop, PayloadBytes, Disconnects, Told, Head, Tells;
    match action
    case SendBody(body, _) =>
      var bytes := PayloadBytes(e.queue) + |body|;
      SendTells(e, action);
      ToldIs(e, action,
        if bytes > e.options.replayMax then (if GivenUp(e) then [] else [Closed])
        else if !ToldToStop(e.events) && bytes > e.options.highWater then [Saturated] else []);
    case AckHead =>
      AckTells(e, action);
      ToldIs(e, action,
        if Head(e.buffer).Some? && ToldToStop(e.events) && PayloadBytes(Act(e, action).queue) <= e.options.lowWater
        then [Drained] else []);
    case DispatchHead(_) =>
      DispatchTells(e, action);
      ToldIs(e, action,
        if Arrived(e, REGULAR) then [Message(Head(e.buffer).value.id, Head(e.buffer).value.data)]
        else if Arrived(e, DISCONNECT) then [Closed] else []);
    case AckCheckTimer(now) =>
      CheckTells(e, action);
      ToldIs(e, action,
        (if e.queue != [] && now - e.lastAckTime > ACK_TIMEOUT then [SocketClosed] else []) +
        (if e.queue != [] && now - e.queue[0].queuedAt > e.options.graceMs && !GivenUp(e) then [Closed] else []));
    case _ =>
      OthersTellNothing(e, action);
      ToldIs(e, action, []);
  }

  // -------------------------------------------------------------------------
  // What is kept and written
  // -------------------------------------------------------------------------

  /** An acknowledgement lets go of all it covers and of nothing else; nothing else lets go of anything. */
  lemma KeptExactly(e: Endpoint, action: Action)
    requires Accounted(e)
    ensures var e' := Act(e, action);
      && (action.SendBody? ==> |e'.queue| == |e.queue| + 1)
      && (!action.SendBody? && !(action.AckHead? && Head(e.buffer).Some?) ==> e'.queue == e.queue)
      && (action.AckHead? && Head(e.buffer).Some? ==>
            var ack, last := Head(e.buffer).value.ack, |e.sent|;
            |e'.queue| == if ack >= last then 0 else if last - ack < |e.queue| then last - ack else |e.queue|)
  {
    hide Head, PayloadBytes, Disconnects, EdgesAlternate, ToldToStop, Replay;
    if action.AckHead? && Head(e.buffer).Some? {
      var n := Acked(e.queue, Head(e.buffer).value.ack);
      if n > 0 {
        assert e.queue[n - 1].msg.id == |e.sent| - |e.queue| + n;
      }
      if n < |e.queue| {
        assert e.queue[n].msg.id == |e.sent| - |e.queue| + 1 + n;
      }
    }
  }

  /** What is acknowledged to the other end is the last message fired. */
  predicate AcknowledgesLast(e: Endpoint) {
    e.incomingAckId == LastFired(e.events)
  }

  /** The frames an action writes: a new message with its number, everything kept, or a sign of life; each with the acknowledgement due. */
  lemma WrittenExactly(e: Endpoint, action: Action)
    requires Accounted(e) && AcknowledgesLast(e)
    ensures var due := LastFired(e.events);
      Act(e, action).written == e.written +
        (if action.SendBody? then [Frame(REGULAR, |e.sent| + 1, due, action.body)]
         else if action.KeepAliveTimer? then [Frame(KEEP_ALIVE, 0, due, [])]
         else if action.NewSocket? then Replay(e.queue) else []) +
        (if GivesUp(e, action) then [Frame(DISCONNECT, 0, due, [])] else [])
  {
    hide Head, PayloadBytes, Disconnects, EdgesAlternate, ToldToStop, LastFired, Replay;
  }

  // -------------------------------------------------------------------------
  // Over runs
  // -------------------------------------------------------------------------

  /** The time of the last frame, or the given one. */
  function LastHeard(e: Endpoint, start: int, actions: seq<Action>): int
    decreases |actions|
  {
    if actions == [] then start
    else
      var heard := actions[0].DispatchHead? && Head(e.buffer).Some?;
      LastHeard(Act(e, actions[0]), if heard then actions[0].now else start, actions[1..])
  }

  function Bodies(actions: seq<Action>): seq<seq<byte>> {
    if actions == [] then []
    else (if actions[0].SendBody? then [actions[0].body] else []) + Bodies(actions[1..])
  }

  function SendTimes(actions: seq<Action>): seq<int> {
    if actions == [] then []
    else (if actions[0].SendBody? then [actions[0].now] else []) + SendTimes(actions[1..])
  }

  /** Of the last messages sent, those still kept, when the first was sent. */
  function OldestSentAt(times: seq<int>, kept: nat): int {
    if 0 < kept <= |times| then times[|times| - kept] else 0
  }

  /** The messages kept are dated as they were sent. */
  predicate Dated(e: Endpoint, times: seq<int>) {
    && |e.queue| <= |times| == |e.sent|
    && forall i :: 0 <= i < |e.queue| ==> e.queue[i].queuedAt == times[|times| - |e.queue| + i]
  }

  lemma ActKeepsDates(e: Endpoint, action: Action, times: seq<int>)
    requires Dated(e, times)
    ensures Dated(Act(e, action), times + if action.SendBody? then [action.now] else [])
    ensures Act(e, action).sent == e.sent + if action.SendBody? then [action.body] else []
  {
    hide Head, Replay, PayloadBytes, Acked;
    assert times + [] == times && e.sent + [] == e.sent;
  }

  lemma ActKeepsAcknowledging(e: Endpoint, action: Action)
    requires AcknowledgesLast(e)
    ensures AcknowledgesLast(Act(e, action))
    ensures Act(e, action).lastAckTime == if action.DispatchHead? && Head(e.buffer).Some? then action.now else e.lastAckTime
  {
    hide Head, LastFired, Replay, Acked, PayloadBytes;
    match action
    case SendBody(_, _) =>
      LastFiredSnoc(e.events, Closed);
      LastFiredSnoc(e.events, Saturated);
    case AckHead => LastFiredSnoc(e.events, Drained);
    case DispatchHead(_) =>
      LastFiredSnoc(e.events, Closed);
      if Head(e.buffer).Some? {
        LastFiredSnoc(e.events, Message(Head(e.buffer).value.id, Head(e.buffer).value.data));
      }
    case AckCheckTimer(_) =>
      LastFiredSnoc(e.events, Closed);
      LastFiredSnoc(e.events, SocketClosed);
      LastFiredSnoc(e.events + [SocketClosed], Closed);
    case _ =>
  }

  lemma {:induction false} RunKeepsBooks(e: Endpoint, actions: seq<Action>, times: seq<int>)
    requires Dated(e, times) && AcknowledgesLast(e)
    ensures var e' := Run(e, actions);
      && Dated(e', times + SendTimes(actions)) && AcknowledgesLast(e')
      && e'.sent == e.sent + Bodies(actions) && e'.lastAckTime == LastHeard(e, e.lastAckTime, actions)
    decreases |actions|
  {
    hide Act, Dated, AcknowledgesLast, Head;
    if actions == [] {
      assert times + [] == times && e.sent + [] == e.sent;
    } else {
      var action, rest := actions[0], actions[1..];
      ActKeepsDates(e, action, times);
      ActKeepsAcknowledging(e, action);
      var times1, sent1 := if action.SendBody? then [action.now] else [], if action.SendBody? then [action.body] else [];
      RunKeepsBooks(Act(e, action), rest, times + times1);
      Regroup(times, times1, SendTimes(rest));
      Regroup(e.sent, sent1, Bodies(rest));
    }
  }

  /** In every reachable state: what was sent, when what is kept was sent, what is acknowledged, and when the other end was last heard. */
  lemma BooksHold(options: Options, start: int, actions: seq<Action>)
    ensures var e := Run(Fresh(options, start), actions);
      && e.sent == Bodies(actions) && Dated(e, SendTimes(actions))
      && e.incomingAckId == LastFired(e.events) && e.lastAckTime == LastHeard(Fresh(options, start), start, actions)
  {
    RunKeepsBooks(Fresh(options, start), actions, []);
    assert [] + SendTimes(actions) == SendTimes(actions) && [] + Bodies(actions) == Bodies(actions);
  }

  /**
   Over every run: listeners are told to stop when, and only when, a message takes the unacknowledged
   bytes of an endpoint not told so above the high mark; and to go on when an acknowledgement brings
   those of one told to stop down to the low mark; and the session is given up when the bytes exceed
   the bound or the oldest message its time.
   */
  lemma SignalsOverRuns(options: Options, start: int, actions: seq<Action>, action: Action)
    ensures var e := Run(Fresh(options, start), actions);
      var bytes, told := PayloadBytes(Act(e, action).queue), Told(e, action);
      && e.events + told == Act(e, action).events
      && (Saturated in told <==> action.SendBody? && !ToldToStop(e.events) && options.highWater < bytes <= options.replayMax)
      && (Drained in told <==>
            action.AckHead? && Head(e.buffer).Some? && ToldToStop(e.events) && bytes <= options.lowWater)
      && (Closed in told <==>
            || (action.DispatchHead? && Arrived(e, DISCONNECT))
            || (!GivenUp(e) && action.SendBody? && bytes > options.replayMax)
            || (!GivenUp(e) && action.AckCheckTimer? && e.queue != []
                && action.now - OldestSentAt(SendTimes(actions), |e.queue|) > options.graceMs))
      && (SocketClosed in told <==>
            action.AckCheckTimer? && e.queue != []
            && action.now - LastHeard(Fresh(options, start), start, actions) > ACK_TIMEOUT)
  {
    hide Act, Run, Accounted, ToldToStop, PayloadBytes, Disconnects, Head, LastHeard, LastFired, SendTimes, Bodies, Told;
    var e := Run(Fresh(options, start), actions);
    AccountingHolds(options, start, actions);
    BooksHold(options, start, actions);
    ToldExactly(e, action);
    WhatIsTold(e, action);
    OldestIsDated(e, SendTimes(actions));
    if action.SendBody? {
      SentBytes(e, action);
    }
  }

  lemma WhatIsTold(e: Endpoint, action: Action)
    requires e.events <= Act(e, action).events
    ensures e.events + Told(e, action) == Act(e, action).events
  {
    hide Act;
  }

  lemma OldestIsDated(e: Endpoint, times: seq<int>)
    requires Dated(e, times)
    ensures e.queue != [] ==> e.queue[0].queuedAt == OldestSentAt(times, |e.queue|)
  {
  }

  lemma SentBytes(e: Endpoint, action: Action)
    requires action.SendBody?
    ensures PayloadBytes(Act(e, action).queue) == PayloadBytes(e.queue) + |action.body|
  {
    PayloadBytesSnoc(e.queue, Entry(Frame(REGULAR, e.outgoingMsgId + 1, e.incomingAckId, action.body), action.now));
    hide PayloadBytes;
  }
}
