/** Delivery is at least once: when a reconnection offers a message again, and what that does to the reader. */
module Redelivery {
  import opened Bytes
  import opened Framing
  import opened Endpoints
  import opened Backpressure
  import opened ReliableDelivery
  import opened DeliveryProof
  import opened DeliveryGuarantees

  /** The frames a reconnection writes, of those of them the peer has fired already. */
  ghost predicate OffersFired(e: Endpoint, peer: Endpoint) {
    exists i :: 0 <= i < |Replay(e.queue)| && Replay(e.queue)[i].id in FiredIds(peer.events)
  }

  /**
   A reconnection writes what is unacknowledged behind all else on the new stream; it offers a message
   the peer has fired if and only if the oldest unacknowledged one was fired.
   */
  lemma ReconnectOffersFiredIff(left: Options, right: Options, now: int, steps: seq<Step>, side: Side, n: nat)
    requires Enabled(View(Perform(Start(left, right, now), steps), side), Reconnect(n))
    ensures var s := Perform(Start(left, right, now), steps);
      var e, peer := View(s, side).node.end, View(s, Other(side)).node.end;
      && At(View(Next(s, Step(side, Reconnect(n))), side).out, n).log == At(View(s, side).out, n).log + Replay(e.queue)
      && (OffersFired(e, peer) <==> e.queue != [] && e.queue[0].msg.id <= Peak(peer.events))
  {
    var s := Perform(Start(left, right, now), steps);
    Reachable(left, right, now, steps, side);
    DeliveredOrKept(left, right, now, steps, side);
    var e, peer := View(s, side).node.end, View(s, Other(side)).node.end;
    ReconnectShape(View(s, side), n);
    assert QueueIsTail(e) by { QueueOfReachable(s, side); }
    hide Inv, Perform, Accounted, Peak, Act, FiredIds, Make;
    OffersFiredIff(e, peer, Peak(peer.events));
  }

  lemma QueueOfReachable(s: System, side: Side)
    requires Inv(s)
    ensures QueueIsTail(View(s, side).node.end)
  {
  }

  lemma OffersFiredIff(e: Endpoint, peer: Endpoint, peak: nat)
    requires QueueIsTail(e) && forall id: nat :: id in FiredIds(peer.events) <==> 1 <= id <= peak
    ensures OffersFired(e, peer) <==> e.queue != [] && e.queue[0].msg.id <= peak
  {
    hide FiredIds;
    if e.queue != [] && e.queue[0].msg.id <= peak {
      assert Replay(e.queue)[0].id in FiredIds(peer.events);
    }
  }

  // -------------------------------------------------------------------------
  // A run that fires a message twice
  // -------------------------------------------------------------------------

  const FIRST := Frame(REGULAR, 1, 0, [])
  const SECOND := Frame(REGULAR, 2, 0, [])

  /** Two empty messages of the left end on the way to the right one, over one connection. */
  ghost predicate OnTheWay(s: System, c: nat, now: int) {
    && s.left.connection == s.right.connection == c && s.right.end.buffer == []
    && s.left.end.queue == [Entry(FIRST, now), Entry(SECOND, now)]
    && At(s.toRight, c).wire == Encode(FIRST) + Encode(SECOND)
  }

  lemma PerformTwo(s: System, one: Step, two: Step)
    requires Enabled(View(s, one.side), one.move)
    requires var s1 := Next(s, one); Enabled(View(s1, two.side), two.move)
    ensures Perform(s, [one, two]) == Next(Next(s, one), two)
  {
    hide Next, Enabled;
    PerformOne(s, one);
    PerformOne(Next(s, one), two);
    PerformConcat(s, [one], [two]);
    assert [one] + [two] == [one, two];
  }

  lemma SendsTwo(left: Options, right: Options, now: int) returns (steps: seq<Step>)
    ensures var s := Perform(Start(left, right, now), steps);
      OnTheWay(s, 0, now) && s.right == Node(Fresh(right, now), 0, []) && s.toRight.Keys == {0}
  {
    var send := Step(Left, Do(SendBody([], now)));
    var s := Start(left, right, now);
    var s1 := Next(s, send);
    hide Encode;
    EncodeAllTwo(FIRST, SECOND);
    assert s1.left.end.queue == [Entry(FIRST, now)] && At(s1.toRight, 0).wire == [] + Encode(FIRST) == Encode(FIRST) by {
      assert Written(s.left.end, SendBody([], now)) == [FIRST];
    }
    var s2 := Next(s1, send);
    assert s2.left.end.queue == [Entry(FIRST, now), Entry(SECOND, now)];
    assert At(s2.toRight, 0).wire == Encode(FIRST) + Encode(SECOND) by {
      assert Written(s1.left.end, SendBody([], now)) == [SECOND];
      assert EncodeAll([SECOND]) == Encode(SECOND) + EncodeAll([]);
    }
    PerformTwo(s, send, send);
    steps := [send, send];
  }

  /** The bytes arrive, and the first message is fired. */
  lemma FirstFired(s: System, c: nat, now: int) returns (steps: seq<Step>)
    requires OnTheWay(s, c, now)
    ensures var s' := Perform(s, steps + [Step(Right, Do(DispatchHead(now)))]);
      && s'.right.end.events == s.right.end.events + [Message(1, [])] && s'.right.end.incomingAckId == 1
      && s'.right.end.buffer == Encode(SECOND) && s'.left == s.left && s'.right.connection == c
      && s'.toRight.Keys == s.toRight.Keys + {c}
    ensures var s' := Perform(s, steps);
      s'.right.end.incomingAckId == s.right.end.incomingAckId && s'.right.end.events == s.right.end.events
  {
    var one, two := Step(Right, Take(|At(s.toRight, c).wire|)), Step(Right, Do(DispatchHead(now)));
    AllArrives(s, c, now);
    var s1 := Next(s, one);
    hide Encode, Head, Next;
    DispatchFirst(s1, now);
    assert Enabled(View(s1, two.side), two.move);
    hide Enabled;
    PerformOne(s, one);
    PerformTwo(s, one, two);
    assert [one] + [two] == [one, two];
    steps := [one];
  }

  lemma AllArrives(s: System, c: nat, now: int)
    requires OnTheWay(s, c, now)
    ensures var one := Step(Right, Take(|At(s.toRight, c).wire|));
      && Enabled(View(s, one.side), one.move)
      && var s1 := Next(s, one);
         && s1.right.end == s.right.end.(buffer := Encode(FIRST) + Encode(SECOND))
         && s1.left == s.left && s1.right.connection == c && s1.toRight.Keys == s.toRight.Keys + {c}
  {
    hide Encode, EncodeAll, Head, Dispatch;
    var wire := At(s.toRight, c).wire;
    assert wire[..|wire|] == wire && [] + wire == wire;
  }

  lemma DispatchFirst(s: System, now: int)
    requires s.right.end.buffer == Encode(FIRST) + Encode(SECOND)
    ensures var s' := Next(s, Step(Right, Do(DispatchHead(now))));
      && s'.right.end.events == s.right.end.events + [Message(1, [])] && s'.right.end.incomingAckId == 1
      && s'.right.end.buffer == Encode(SECOND) && s'.left == s.left && s'.right.connection == s.right.connection
      && s'.toRight.Keys == s.toRight.Keys + {s.right.connection}
  {
    HeadOfEncoded(FIRST, Encode(SECOND));
    hide Encode, EncodeAll, Head;
  }

  lemma SecondFired(s: System, now: int) returns (steps: seq<Step>)
    requires s.right.end.buffer == Encode(SECOND)
    ensures var s' := Perform(s, steps);
      && s'.right.end.events == s.right.end.events + [Message(2, [])] && s'.right.end.incomingAckId == 2
      && s'.right.end.buffer == [] && s'.left == s.left && s'.right.connection == s.right.connection
      && s'.toRight.Keys == s.toRight.Keys + {s.right.connection}
  {
    var step := Step(Right, Do(DispatchHead(now)));
    hide Encode, EncodeAll, Head;
    assert Encode(SECOND) + [] == Encode(SECOND);
    HeadOfEncoded(SECOND, []);
    PerformOne(s, step);
    steps := [step];
  }

  /** Both ends move to a connection that was never used; nothing was acknowledged meanwhile. */
  lemma BothReconnect(s: System, now: int) returns (steps: seq<Step>)
    requires s.left.connection == s.right.connection == 0 && 1 !in s.toRight
    requires s.left.end.queue == [Entry(FIRST, now), Entry(SECOND, now)]
    ensures var s' := Perform(s, steps);
      OnTheWay(s', 1, now) && s'.right.end.events == s.right.end.events && s'.right.end.incomingAckId == s.right.end.incomingAckId
  {
    var one, two := Step(Left, Reconnect(1)), Step(Right, Reconnect(1));
    var s1 := Next(s, one);
    hide Encode;
    EncodeAllTwo(FIRST, SECOND);
    assert Replay(s.left.end.queue) == [FIRST, SECOND];
    assert At(s1.toRight, 1).wire == [] + (Encode(FIRST) + Encode(SECOND)) == Encode(FIRST) + Encode(SECOND);
    PerformTwo(s, one, two);
    steps := [one, two];
  }

  /**
   Two messages are fired, the sockets are replaced before anything is acknowledged, and the first one
   is fired once more; the acknowledgement the reader will send steps back from 2 to 1 with it.
   */
  lemma FiredTwice(left: Options, right: Options, now: int) returns (steps: seq<Step>, last: Step)
    ensures var before, after := Perform(Start(left, right, now), steps), Perform(Start(left, right, now), steps + [last]);
      && before.right.end.events == [Message(1, []), Message(2, [])] && before.right.end.incomingAckId == 2
      && after.right.end.events == [Message(1, []), Message(2, []), Message(1, [])] && after.right.end.incomingAckId == 1
  {
    var s0 := Start(left, right, now);
    last := Step(Right, Do(DispatchHead(now)));
    hide Perform, Encode;
    var send := SendsTwo(left, right, now);
    var s1 := Perform(s0, send);
    var take := FirstFired(s1, 0, now);
    var s2 := Perform(s1, take + [last]);
    assert s2.toRight.Keys == {0};
    var dispatch := SecondFired(s2, now);
    var s3 := Perform(s2, dispatch);
    assert 1 !in s3.toRight.Keys;
    var reconnect := BothReconnect(s3, now);
    var s4 := Perform(s3, reconnect);
    var again := FirstFired(s4, 1, now);
    Chained(s0, send, take + [last], dispatch, reconnect, again);
    Chained(s0, send, take + [last], dispatch, reconnect, again + [last]);
    steps := send + (take + [last]) + dispatch + reconnect + again;
    assert steps + [last] == send + (take + [last]) + dispatch + reconnect + (again + [last]);
  }

  lemma Chained(s: System, a: seq<Step>, b: seq<Step>, c: seq<Step>, d: seq<Step>, e: seq<Step>)
    ensures Perform(s, a + b + c + d + e) == Perform(Perform(Perform(Perform(Perform(s, a), b), c), d), e)
  {
    hide Perform;
    PerformConcat(s, a, b);
    PerformConcat(s, a + b, c);
    PerformConcat(s, a + b + c, d);
    PerformConcat(s, a + b + c + d, e);
  }
}
