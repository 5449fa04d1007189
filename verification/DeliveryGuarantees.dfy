/** What two `PersistentProtocol` endpoints guarantee over every run of the machine. */
module DeliveryGuarantees {
  import opened Bytes
  import opened Framing
  import opened Endpoints
  import opened Backpressure
  import opened ReliableDelivery
  import opened DeliveryProof
  import opened Prelude

  function Other(side: Side): Side {
    if side.Left? then Right else Left
  }

  lemma FreshDirection(s: Node, r: Node)
    requires s.end == Fresh(s.end.options, s.end.lastAckTime) && r.end == Fresh(r.end.options, r.end.lastAckTime)
    requires s.connection == r.connection == 0 && r.arrived == []
    ensures Direction(s, r, map[], map[])
  {
    FreshEnd(s.end);
    FreshEnd(r.end);
    FreshStreams(s, r);
    hide Accounted, FiredIsPrefix, StreamsOk;
  }

  lemma FreshEnd(e: Endpoint)
    requires e == Fresh(e.options, e.lastAckTime)
    ensures Accounted(e) && FiredIsPrefix(e.events, []) && Peak(e.events) == 0
  {
    assert FiredIds(e.events) == {};
  }

  lemma FreshStreams(s: Node, r: Node)
    requires s.end.outgoingMsgId == 0 && s.end.sent == []
    requires r.end.buffer == [] && r.arrived == [] && s.connection == r.connection == 0
    ensures StreamsOk(s, r, map[])
  {
    var unused := UNUSED.log;
    assert unused == [] && unused[0..] == [] && unused[..0] == [];
    assert EncodeAll([]) == [] && Regulars([]) == 0;
    hide Peak, EncodeAll, Regulars;
  }

  lemma StartHolds(left: Options, right: Options, now: int)
    ensures Inv(Start(left, right, now))
  {
    hide Direction;
    var s := Start(left, right, now);
    FreshDirection(s.left, s.right);
    FreshDirection(s.right, s.left);
  }

  lemma MoveKeeps(h: Half, move: Move, peer: Node)
    requires Enabled(h, move)
    requires Direction(h.node, peer, h.out, h.inc) && Direction(peer, h.node, h.inc, h.out)
    ensures var h' := Make(h, move);
      Direction(h'.node, peer, h'.out, h'.inc) && Direction(peer, h'.node, h'.inc, h'.out)
  {
    hide Direction, Make, Head;
    match move
    case Do(action) =>
      SenderDoes(h, action, peer);
      if action.DispatchHead? && Head(h.node.end.buffer).Some? {
        ReceiverDispatches(h, action.now, peer);
      } else {
        ReceiverDoes(h, action, peer);
      }
    case Take(count) =>
      SenderTakes(h, count, peer);
      ReceiverTakes(h, count, peer);
    case Reconnect(next) =>
      SenderReconnects(h, next, peer);
      ReceiverReconnects(h, next, peer);
    case Break(which, keep) =>
      SenderBreaks(h, which, keep, peer);
      ReceiverBreaks(h, which, keep, peer);
  }

  lemma StepKeeps(s: System, step: Step)
    requires Inv(s) && Enabled(View(s, step.side), step.move)
    ensures Inv(Next(s, step))
  {
    hide Direction, Make, Enabled;
    MoveKeeps(View(s, step.side), step.move, View(s, Other(step.side)).node);
  }

  lemma {:induction false} PerformKeeps(s: System, steps: seq<Step>)
    requires Inv(s)
    ensures Inv(Perform(s, steps))
    decreases |steps|
  {
    if steps != [] {
      hide Inv, Next, Enabled;
      if Enabled(View(s, steps[0].side), steps[0].move) {
        StepKeeps(s, steps[0]);
        PerformKeeps(Next(s, steps[0]), steps[1..]);
      } else {
        PerformKeeps(s, steps[1..]);
      }
    }
  }

  lemma Reachable(left: Options, right: Options, now: int, steps: seq<Step>, side: Side)
    ensures var s := Perform(Start(left, right, now), steps);
      && Inv(s)
      && var h := View(s, side);
         Direction(h.node, View(s, Other(side)).node, h.out, h.inc)
  {
    StartHolds(left, right, now);
    PerformKeeps(Start(left, right, now), steps);
  }

  // -------------------------------------------------------------------------
  // Guarantees
  // -------------------------------------------------------------------------

  /** The message is still kept for replay, with the payload it was sent with. */
  ghost predicate Kept(e: Endpoint, id: nat) {
    exists i :: 0 <= i < |e.queue| && e.queue[i].msg.id == id
      && 1 <= id <= |e.sent| && e.queue[i].msg.data == e.sent[id - 1] && e.queue[i].msg.kind == REGULAR
  }

  /**
   Reliable delivery. However often sockets are replaced and wherever streams break: the ids fired
   at the peer are exactly 1..m for some m, each with the payload sent under it; every id sent is at
   most m or still kept for replay; and since the peer's last socket the ids arrived consecutively.
   */
  lemma DeliveredOrKept(left: Options, right: Options, now: int, steps: seq<Step>, side: Side)
    ensures var s := Perform(Start(left, right, now), steps);
      var e, peer := View(s, side).node.end, View(s, Other(side)).node;
      var m := Peak(peer.end.events);
      && m <= e.outgoingMsgId == |e.sent|
      && (forall id: nat :: id in FiredIds(peer.end.events) <==> 1 <= id <= m)
      && (forall k :: 0 <= k < |peer.end.events| && peer.end.events[k].Message? ==>
            && 1 <= peer.end.events[k].id <= |e.sent|
            && peer.end.events[k].body == e.sent[peer.end.events[k].id - 1])
      && (forall id: nat :: 1 <= id <= e.outgoingMsgId ==> id <= m || Kept(e, id))
      && (forall i :: 0 <= i < |peer.arrived| ==> peer.arrived[i] == peer.arrived[0] + i)
  {
    var s := Perform(Start(left, right, now), steps);
    Reachable(left, right, now, steps, side);
    var h, peer := View(s, side), View(s, Other(side)).node;
    var e, m := h.node.end, Peak(peer.end.events);
    hide Peak, Accounted, Perform, StreamsOk, AcksOk;
    AccountedIsTail(e);
    forall id: nat | 1 <= id <= e.outgoingMsgId ensures id <= m || Kept(e, id) {
      if id > m {
        UnfiredIsKept(e, m, id);
      }
    }
    ArrivedInOrder(h.node, peer, h.out);
    hide QueueIsTail, Kept;
  }

  lemma UnfiredIsKept(e: Endpoint, m: nat, id: nat)
    requires QueueIsTail(e) && e.outgoingMsgId - |e.queue| <= m < id <= e.outgoingMsgId
    ensures Kept(e, id)
  {
    var i := id - (e.outgoingMsgId - |e.queue| + 1);
    assert e.queue[i].msg.id == id;
  }

  lemma ArrivedInOrder(s: Node, r: Node, forth: Link)
    requires StreamsOk(s, r, forth)
    ensures forall i :: 0 <= i < |r.arrived| ==> r.arrived[i] == r.arrived[0] + i
  {
    hide LogSound, Holds, Peak, Regulars;
    assert StreamOk(s, r, At(forth, r.connection), r.connection);
  }

  lemma AccountedIsTail(e: Endpoint)
    requires Accounted(e)
    ensures QueueIsTail(e)
  {
  }

  /** An acknowledgement only ever lets go of messages the peer has fired. */
  lemma AckDropsOnlyFired(left: Options, right: Options, now: int, steps: seq<Step>, side: Side, i: nat)
    requires var e := View(Perform(Start(left, right, now), steps), side).node.end;
      i < |e.queue| && e.queue[i] !in Act(e, AckHead).queue
    ensures var s := Perform(Start(left, right, now), steps);
      var e, peer := View(s, side).node.end, View(s, Other(side)).node.end;
      e.queue[i].msg.id in FiredIds(peer.events)
  {
    var s := Perform(Start(left, right, now), steps);
    Reachable(left, right, now, steps, side);
    var h, peer := View(s, side), View(s, Other(side)).node;
    var e := h.node.end;
    HeadAckIsFired(h.node, peer, h.out, h.inc);
    hide Peak, Accounted, Head, StreamOk;
    AccountedIsTail(e);
    var n := Acked(e.queue, Head(e.buffer).value.ack);
    StaysInTheQueue(e.queue, n, i);
  }

  lemma StaysInTheQueue(queue: seq<Entry>, n: nat, i: nat)
    requires n <= |queue| && i < |queue|
    ensures i >= n ==> queue[i] in queue[n..]
  {
    assert i >= n ==> queue[n..][i - n] == queue[i];
  }

  /** Nothing of one direction is on the way. */
  ghost predicate Quiet(s: System, side: Side) {
    var h, peer := View(s, side), View(s, Other(side)).node;
    var stream := At(h.out, h.node.connection);
    && h.node.connection == peer.connection
    && !stream.broken && stream.wire == [] && peer.end.buffer == []
  }

  lemma EncodedNothing(frames: seq<Frame>)
    requires EncodeAll(frames) == []
    ensures frames == []
  {
  }

  lemma QuietIsComplete(s: System, side: Side)
    requires Inv(s) && Quiet(s, side)
    ensures Peak(View(s, Other(side)).node.end.events) == View(s, side).node.end.outgoingMsgId
  {
    hide SenderOk, FiredIsPrefix, AcksOk, StreamOk, Peak;
    var h, peer := View(s, side), View(s, Other(side)).node;
    var c := peer.connection;
    assert StreamOk(h.node, peer, At(h.out, c), c);
    QuietStream(h.node, peer, At(h.out, c));
    NoneUnsent(h.node, peer);
  }

  lemma NoneUnsent(s: Node, r: Node)
    requires SenderOk(s) && FiredIsPrefix(r.end.events, s.end.sent)
    ensures Peak(r.end.events) <= s.end.outgoingMsgId
  {
    hide Peak, PayloadBytes;
  }

  /** A stream read to its end has brought everything sent. */
  lemma QuietStream(s: Node, r: Node, stream: Stream)
    requires StreamOk(s, r, stream, r.connection) && s.connection == r.connection
    requires !stream.broken && stream.wire == [] && r.end.buffer == []
    ensures s.end.outgoingMsgId <= Peak(r.end.events)
  {
    hide LogSound, EncodeAll, Regulars, Peak;
    EncodedNothing(stream.log[stream.read..]);
    assert stream.log[..stream.read] == stream.log;
  }

  /** When both ends share an unbroken connection and nothing is on the way, everything sent was fired. */
  lemma QuietMeansDelivered(left: Options, right: Options, now: int, steps: seq<Step>, side: Side)
    requires Quiet(Perform(Start(left, right, now), steps), side)
    ensures var s := Perform(Start(left, right, now), steps);
      var e, peer := View(s, side).node.end, View(s, Other(side)).node.end;
      forall id: nat :: id in FiredIds(peer.events) <==> 1 <= id <= |e.sent|
  {
    var s := Perform(Start(left, right, now), steps);
    Reachable(left, right, now, steps, side);
    QuietIsComplete(s, side);
    DeliveredOrKept(left, right, now, steps, side);
  }

  // -------------------------------------------------------------------------
  // From anywhere, one working connection is enough
  // -------------------------------------------------------------------------

  lemma {:induction false} PerformConcat(s: System, first: seq<Step>, second: seq<Step>)
    ensures Perform(s, first + second) == Perform(Perform(s, first), second)
    decreases |first|
  {
    hide Next, Enabled;
    if first == [] {
      assert first + second == second;
    } else {
      assert (first + second)[1..] == first[1..] + second && (first + second)[0] == first[0];
      PerformConcat(if Enabled(View(s, first[0].side), first[0].move) then Next(s, first[0]) else s, first[1..], second);
    }
  }

  lemma PerformOne(s: System, step: Step)
    requires Enabled(View(s, step.side), step.move)
    ensures Perform(s, [step]) == Next(s, step)
  {
    hide Next, Enabled;
    assert [step][1..] == [];
    assert Perform(Next(s, step), []) == Next(s, step);
  }

  /** All that a reader has still to dispatch is in its buffer, whole. */
  ghost predicate AllHeld(s: System, side: Side) {
    var h, peer := View(s, side), View(s, Other(side)).node;
    var stream := At(h.out, h.node.connection);
    && h.node.connection == peer.connection && !stream.broken && stream.wire == []
  }

  function Undispatched(s: System, side: Side): int {
    var h := View(s, side);
    |At(h.out, h.node.connection).log| - At(h.out, h.node.connection).read
  }

  /** Dispatching what is held, frame by frame, leaves nothing on the way. */
  lemma {:induction false} DispatchAll(s: System, side: Side, now: int) returns (steps: seq<Step>)
    requires Inv(s) && AllHeld(s, side)
    ensures Quiet(Perform(s, steps), side)
    ensures View(Perform(s, steps), side).node == View(s, side).node
    decreases Undispatched(s, side)
  {
    var h, peer := View(s, side), View(s, Other(side)).node;
    var c := peer.connection;
    var stream := At(h.out, c);
    hide Peak, Regulars, Accounted;
    assert StreamOk(h.node, peer, stream, c);
    assert peer.end.buffer + [] == peer.end.buffer;
    if stream.read == |stream.log| {
      assert stream.log[stream.read..] == [];
      steps := [];
    } else {
      var frames := stream.log[stream.read..];
      EncodeAllFirst(frames, []);
      assert EncodeAll(frames) + [] == peer.end.buffer;
      var step := Step(Other(side), Do(DispatchHead(now)));
      StepKeeps(s, step);
      DispatchShape(View(s, Other(side)), now);
      hide Inv, Make, Head, EncodeAll, StreamOk;
      var next := Next(s, step);
      assert Undispatched(next, side) == Undispatched(s, side) - 1 && AllHeld(next, side);
      var later := DispatchAll(next, side, now);
      PerformOne(s, step);
      PerformConcat(s, [step], later);
      steps := [step] + later;
    }
  }

  lemma FreshConnection(link: Link, low: nat) returns (n: nat)
    ensures n > low && n !in link
  {
    n := low + 1;
    var seen: set<nat> := {};
    while n in link
      invariant n > low && seen <= link.Keys && forall k :: k in seen ==> k < n
      decreases link.Keys - seen
    {
      seen := seen + {n};
      n := n + 1;
    }
  }

  /** One end moves to a connection nothing was ever written on. */
  lemma MovesOver(s: System, side: Side, n: nat) returns (step: Step)
    requires Inv(s) && View(s, side).node.connection < n && n !in View(s, side).out
    ensures step == Step(side, Reconnect(n)) && Enabled(View(s, side), step.move)
    ensures var s' := Next(s, step);
      && Inv(s') && View(s', side).node.connection == n
      && !At(View(s', side).out, n).broken
      && View(s', side).node.end.sent == View(s, side).node.end.sent
      && View(s', Other(side)).node == View(s, Other(side)).node
  {
    hide Act, Inv, Make, Replay, EncodeAll, FirstToOffer;
    step := Step(side, Reconnect(n));
    StepKeeps(s, step);
    ReconnectShape(View(s, side), n);
    SentGrows(View(s, side).node.end, NewSocket);
  }

  /** The other end follows, and all bytes of that connection reach it. */
  lemma Follows(s: System, side: Side) returns (steps: seq<Step>)
    requires Inv(s)
    requires var n := View(s, side).node.connection;
      View(s, Other(side)).node.connection < n && !At(View(s, side).out, n).broken
    ensures var s' := Perform(s, steps);
      Inv(s') && AllHeld(s', side) && View(s', side).node == View(s, side).node
  {
    hide Act, Inv, Replay, EncodeAll, FirstToOffer;
    var n := View(s, side).node.connection;
    var one := Step(Other(side), Reconnect(n));
    StepKeeps(s, one);
    ReconnectShape(View(s, Other(side)), n);
    var s1 := Next(s, one);
    assert View(s1, side).out == View(s, side).out && View(s1, side).node == View(s, side).node;
    var two := Step(Other(side), Take(|At(View(s, side).out, n).wire|));
    StepKeeps(s1, two);
    PerformOne(s, one);
    PerformOne(s1, two);
    PerformConcat(s, [one], [two]);
    steps := [one] + [two];
  }

  /**
   Nothing is ever beyond recovery: from every reachable state there are steps (both ends moving to
   a new connection, its bytes arriving and being read) after which everything sent has been fired.
   */
  lemma Recoverable(left: Options, right: Options, now: int, steps: seq<Step>, side: Side) returns (more: seq<Step>)
    ensures var s := Perform(Start(left, right, now), steps + more);
      var e, peer := View(s, side).node.end, View(s, Other(side)).node.end;
      && e.sent == View(Perform(Start(left, right, now), steps), side).node.end.sent
      && forall id: nat :: id in FiredIds(peer.events) <==> 1 <= id <= |e.sent|
  {
    var start := Start(left, right, now);
    var s := Perform(start, steps);
    Reachable(left, right, now, steps, side);
    var h, peer := View(s, side), View(s, Other(side)).node;
    var n := FreshConnection(h.out, if h.node.connection > peer.connection then h.node.connection else peer.connection);
    hide Inv, Next, Enabled, AllHeld, Quiet, FiredIds;
    var move := MovesOver(s, side, n);
    var s1 := Next(s, move);
    PerformOne(s, move);
    var follow := Follows(s1, side);
    var finish := DispatchAll(Perform(s1, follow), side, now);
    more := [move] + (follow + finish);
    PerformConcat(s1, follow, finish);
    PerformConcat(s, [move], follow + finish);
    PerformConcat(start, steps, more);
    QuietMeansDelivered(left, right, now, steps + more, side);
  }
}
