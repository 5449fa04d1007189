/**
 Two `PersistentProtocol` endpoints joined by a sequence of connections.

 Each connection is a pair of FIFO byte streams. At any moment an endpoint is attached to one
 connection and writes to and reads from that one only; `replaceSocket` moves it to a later one,
 its peer following whenever it likes. A stream may break at any point: what is still on the way
 beyond that point, and all that is written afterwards, is lost.
 */
module ReliableDelivery {
  import opened Bytes
  import opened Framing
  import opened Endpoints
  import opened Backpressure
  import opened Prelude

  // -------------------------------------------------------------------------
  // The machine
  // -------------------------------------------------------------------------

  /**
   One stream: the bytes on the way and whether it broke; and, as history, the frames its writer
   put on it, how many of them its reader has dispatched, and the first id its writer had to offer.
   */
  datatype Stream = Stream(wire: seq<byte>, broken: bool, log: seq<Frame>, read: nat, first: nat)

  const UNUSED := Stream([], false, [], 0, 1)

  type Link = map<nat, Stream>

  function At(link: Link, connection: nat): Stream {
    if connection in link then link[connection] else UNUSED
  }

  /** An endpoint, the connection it is attached to, and the ids fired since it was attached. */
  datatype Node = Node(end: Endpoint, connection: nat, arrived: seq<nat>)

  /** What one side can touch: itself, the streams it writes and the streams it reads. */
  datatype Half = Half(node: Node, out: Link, inc: Link)

  datatype Move =
    | Do(action: Action)
    | Take(count: nat)
    | Reconnect(connection: nat)
    | Break(connection: nat, keep: nat)

  /** Ids and lengths stay within their 32-bit fields; streams only move forward. */
  predicate Enabled(h: Half, move: Move) {
    match move
    case Do(action) =>
      && !action.Arrive? && !action.NewSocket?
      && (action.SendBody? ==> |action.body| < WORD && h.node.end.outgoingMsgId + 1 < WORD)
    case Take(count) => count <= |At(h.inc, h.node.connection).wire|
    case Reconnect(connection) => h.node.connection < connection
    case Break(connection, keep) => keep <= |At(h.out, connection).wire|
  }

  function Write(stream: Stream, frames: seq<Frame>): Stream {
    stream.(log := stream.log + frames,
            wire := if stream.broken then stream.wire else stream.wire + EncodeAll(frames))
  }

  /** The frames an action of the endpoint writes. */
  function Written(e: Endpoint, action: Action): seq<Frame> {
    match action
    case SendBody(body, _) => SendFrames(e, body)
    case KeepAliveTimer => [Frame(KEEP_ALIVE, 0, e.incomingAckId, [])]
    case AckCheckTimer(now) =>
      if e.queue != [] && now - e.queue[0].queuedAt > e.options.graceMs && !e.overflowed
      then [Frame(DISCONNECT, 0, e.incomingAckId, [])] else []
    case NewSocket => Replay(e.queue)
    case _ => []
  }

  lemma WrittenIsWritten(e: Endpoint, action: Action)
    ensures Act(e, action).written == e.written + Written(e, action)
  {
    hide Head, Acked, FrameLength;
  }

  /** The id of the first frame a replay writes, or of the next message when nothing is unacknowledged. */
  function FirstToOffer(e: Endpoint): nat {
    if e.queue == [] then e.outgoingMsgId + 1 else e.queue[0].msg.id
  }

  function Make(h: Half, move: Move): Half
    requires Enabled(h, move)
  {
    var Node(e, c, arrived) := h.node;
    match move
    case Do(action) =>
      var out := h.out[c := Write(At(h.out, c), Written(e, action))];
      if action.DispatchHead? && Head(e.buffer).Some? then
        var frame, stream := Head(e.buffer).value, At(h.inc, c);
        Half(Node(Act(e, action), c, arrived + if frame.kind == REGULAR then [frame.id] else []),
             out, h.inc[c := stream.(read := stream.read + 1)])
      else
        Half(Node(Act(e, action), c, arrived), out, h.inc)
    case Take(count) =>
      var stream := At(h.inc, c);
      Half(Node(Act(e, Arrive(stream.wire[..count])), c, arrived),
           h.out, h.inc[c := stream.(wire := stream.wire[count..])])
    case Reconnect(next) =>
      var stream := At(h.out, next).(first := FirstToOffer(e));
      Half(Node(Act(e, NewSocket), next, []),
           h.out[next := Write(stream, Written(e, NewSocket))], h.inc)
    case Break(which, keep) =>
      var stream := At(h.out, which);
      Half(h.node, h.out[which := stream.(wire := stream.wire[..keep], broken := true)], h.inc)
  }

  datatype Side = Left | Right

  datatype System = System(left: Node, right: Node, toRight: Link, toLeft: Link)

  datatype Step = Step(side: Side, move: Move)

  function View(s: System, side: Side): Half {
    if side.Left? then Half(s.left, s.toRight, s.toLeft) else Half(s.right, s.toLeft, s.toRight)
  }

  function Next(s: System, step: Step): System
    requires Enabled(View(s, step.side), step.move)
  {
    var h := Make(View(s, step.side), step.move);
    if step.side.Left? then System(h.node, s.right, h.out, h.inc) else System(s.left, h.node, h.inc, h.out)
  }

  function Start(left: Options, right: Options, now: int): System {
    System(Node(Fresh(left, now), 0, []), Node(Fresh(right, now), 0, []), map[], map[])
  }

  /** Steps that are not possible when their turn comes are skipped. */
  function Perform(s: System, steps: seq<Step>): System
    decreases |steps|
  {
    if steps == [] then s
    else Perform(if Enabled(View(s, steps[0].side), steps[0].move) then Next(s, steps[0]) else s, steps[1..])
  }

  // -------------------------------------------------------------------------
  // The invariant of one direction
  // -------------------------------------------------------------------------

  function Regulars(frames: seq<Frame>): nat {
    if frames == [] then 0
    else Regulars(frames[..|frames| - 1]) + if frames[|frames| - 1].kind == REGULAR then 1 else 0
  }

  /** The Regular frames carry consecutive ids from `first`. */
  ghost predicate Consecutive(frames: seq<Frame>, first: nat) {
    forall i :: 0 <= i < |frames| && frames[i].kind == REGULAR ==> frames[i].id == first + Regulars(frames[..i])
  }

  /** The highest id a listener has been given. */
  function Peak(events: seq<Event>): nat {
    if events == [] then 0
    else
      var before, last := Peak(events[..|events| - 1]), events[|events| - 1];
      if last.Message? && last.id > before then last.id else before
  }

  function FiredIds(events: seq<Event>): set<nat> {
    set k | 0 <= k < |events| && events[k].Message? :: events[k].id
  }

  /** What was fired is 1..peak, each with the payload sent under that id. */
  ghost predicate FiredIsPrefix(events: seq<Event>, sent: seq<seq<byte>>) {
    && Peak(events) <= |sent|
    && (forall id: nat :: id in FiredIds(events) <==> 1 <= id <= Peak(events))
    && forall k :: 0 <= k < |events| && events[k].Message? ==>
         1 <= events[k].id <= |sent| && events[k].body == sent[events[k].id - 1]
  }

  ghost predicate FrameSound(frame: Frame, sent: seq<seq<byte>>) {
    && FitsWire(frame)
    && (frame.kind == REGULAR ==> 1 <= frame.id <= |sent| && frame.data == sent[frame.id - 1])
  }

  ghost predicate LogSound(stream: Stream, sent: seq<seq<byte>>) {
    && Consecutive(stream.log, stream.first)
    && forall i :: 0 <= i < |stream.log| ==> FrameSound(stream.log[i], sent)
  }

  /** What the reader holds, with what is on the way, begins the frames it has still to dispatch. */
  ghost predicate Holds(bytes: seq<byte>, frames: seq<Frame>, broken: bool) {
    && bytes <= EncodeAll(frames)
    && (!broken ==> bytes == EncodeAll(frames))
  }

  function Held(reader: Node, connection: nat): seq<byte> {
    if connection == reader.connection then reader.end.buffer else []
  }

  /** One stream, seen from the writer and the reader together. */
  ghost predicate StreamOk(s: Node, r: Node, stream: Stream, c: nat) {
    && LogSound(stream, s.end.sent)
    && (c > s.connection ==> stream.log == [] && stream.first == 1)
    && (c == s.connection ==> stream.first + Regulars(stream.log) == s.end.outgoingMsgId + 1)
    && stream.read <= |stream.log|
    && stream.first + Regulars(stream.log[..stream.read]) <= Peak(r.end.events) + 1
    && (c > r.connection ==> stream.read == 0)
    && (c >= r.connection ==> Holds(Held(r, c) + stream.wire, stream.log[stream.read..], stream.broken))
    && (c == r.connection ==>
          && |r.arrived| == Regulars(stream.log[..stream.read])
          && forall i :: 0 <= i < |r.arrived| ==> r.arrived[i] == stream.first + i)
  }

  ghost predicate StreamsOk(s: Node, r: Node, forth: Link) {
    forall c: nat :: StreamOk(s, r, At(forth, c), c)
  }

  ghost predicate SenderOk(s: Node) {
    && Accounted(s.end)
    && s.end.outgoingMsgId < WORD
    && forall i :: 0 <= i < |s.end.sent| ==> |s.end.sent[i]| < WORD
  }

  ghost predicate AcksBelow(frames: seq<Frame>, peak: nat) {
    forall i :: 0 <= i < |frames| ==> frames[i].ack <= peak
  }

  /** No acknowledgement the reader has given, or may yet give, covers what it has not fired. */
  ghost predicate AcksOk(r: Node, back: Link) {
    && r.end.incomingAckId <= Peak(r.end.events)
    && (forall i :: 0 <= i < |r.end.queue| ==> r.end.queue[i].msg.ack <= Peak(r.end.events))
    && forall c: nat :: AcksBelow(At(back, c).log, Peak(r.end.events))
  }

  ghost predicate Direction(s: Node, r: Node, forth: Link, back: Link) {
    && SenderOk(s)
    && FiredIsPrefix(r.end.events, s.end.sent)
    && s.end.outgoingMsgId - |s.end.queue| <= Peak(r.end.events)
    && AcksOk(r, back)
    && StreamsOk(s, r, forth)
  }

  ghost predicate Inv(s: System) {
    Direction(s.left, s.right, s.toRight, s.toLeft) && Direction(s.right, s.left, s.toLeft, s.toRight)
  }

  // -------------------------------------------------------------------------
  // Facts about logs, events and bytes
  // -------------------------------------------------------------------------

  lemma RegularsSnoc(frames: seq<Frame>, frame: Frame)
    ensures Regulars(frames + [frame]) == Regulars(frames) + if frame.kind == REGULAR then 1 else 0
  {
    assert (frames + [frame])[..|frames|] == frames;
  }

  lemma {:induction false} RegularsConcat(left: seq<Frame>, right: seq<Frame>)
    ensures Regulars(left + right) == Regulars(left) + Regulars(right)
    decreases |right|
  {
    if right == [] {
      assert left + right == left;
    } else {
      var last := |right| - 1;
      assert left + right == (left + right[..last]) + [right[last]];
      RegularsSnoc(left + right[..last], right[last]);
      RegularsConcat(left, right[..last]);
    }
  }

  lemma {:induction false} RegularsCount(frames: seq<Frame>)
    ensures (forall i :: 0 <= i < |frames| ==> frames[i].kind == REGULAR) ==> Regulars(frames) == |frames|
    ensures (forall i :: 0 <= i < |frames| ==> frames[i].kind != REGULAR) ==> Regulars(frames) == 0
    decreases |frames|
  {
    if frames != [] { RegularsCount(frames[..|frames| - 1]); }
  }

  /** Appending frames that go on counting where the log stopped. */
  lemma ConsecutiveConcat(log: seq<Frame>, more: seq<Frame>, first: nat)
    requires Consecutive(log, first) && Consecutive(more, first + Regulars(log))
    ensures Consecutive(log + more, first)
  {
    var all := log + more;
    forall i | 0 <= i < |all| && all[i].kind == REGULAR
      ensures all[i].id == first + Regulars(all[..i])
    {
      if i < |log| {
        assert all[..i] == log[..i];
      } else {
        assert all[..i] == log + more[..i - |log|];
        RegularsConcat(log, more[..i - |log|]);
      }
    }
  }

  lemma PeakSnoc(events: seq<Event>, event: Event)
    ensures Peak(events + [event]) ==
            if event.Message? && event.id > Peak(events) then event.id else Peak(events)
  {
    assert (events + [event])[..|events|] == events;
  }

  lemma FiredIdsSnoc(events: seq<Event>, event: Event)
    ensures FiredIds(events + [event]) == FiredIds(events) + if event.Message? then {event.id} else {}
  {
    var all := events + [event];
    forall id | id in FiredIds(events) + (if event.Message? then {event.id} else {})
      ensures id in FiredIds(all)
    {
      if id in FiredIds(events) {
        var k :| 0 <= k < |events| && events[k].Message? && events[k].id == id;
        assert all[k] == events[k];
      } else {
        assert all[|events|] == event;
      }
    }
  }

  /** The next id, or one fired before, with the payload sent under it, keeps the prefix. */
  lemma FiredSnoc(events: seq<Event>, event: Event, sent: seq<seq<byte>>)
    requires FiredIsPrefix(events, sent)
    requires event.Message? ==> 1 <= event.id <= Peak(events) + 1 && event.id <= |sent| && event.body == sent[event.id - 1]
    ensures FiredIsPrefix(events + [event], sent)
    ensures Peak(events) <= Peak(events + [event])
    ensures event.Message? ==> event.id <= Peak(events + [event])
    ensures !event.Message? ==> Peak(events + [event]) == Peak(events)
  {
    PeakSnoc(events, event);
    FiredIdsSnoc(events, event);
  }

  lemma HoldsWrite(bytes: seq<byte>, frames: seq<Frame>, more: seq<Frame>, broken: bool)
    requires Holds(bytes, frames, broken)
    ensures Holds(if broken then bytes else bytes + EncodeAll(more), frames + more, broken)
  {
    hide EncodeAll;
    EncodeAllConcat(frames, more);
  }

  lemma HoldsConsume(buffer: seq<byte>, wire: seq<byte>, frames: seq<Frame>, broken: bool)
    requires Holds(buffer + wire, frames, broken)
    requires forall i :: 0 <= i < |frames| ==> FitsWire(frames[i])
    requires Head(buffer).Some?
    ensures frames != [] && Head(buffer) == Some(frames[0])
    ensures Holds(buffer[FrameLength(frames[0])..] + wire, frames[1..], broken)
  {
    hide Head, Encode, EncodeAll;
    var all := EncodeAll(frames);
    var missing := all[|buffer + wire|..];
    assert buffer + (wire + missing) == all;
    HeadOfPrefix(buffer, wire + missing, frames);
    HeadIsEncoded(buffer);
    assert (buffer[FrameLength(frames[0])..] + wire) + missing == EncodeAll(frames[1..]);
  }
}
