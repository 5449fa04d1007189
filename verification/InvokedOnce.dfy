/**
 How often a request is handed to its channel: as often as it arrived, once a channel is there. So
 exactly once on a transport that never delivers a message again, and not otherwise.
 */
module InvokedOnce {
  import opened Channels
  import opened Settlement

  function Requests(list: seq<Parked>): (requests: seq<Request>)
    ensures |requests| == |list|
    ensures forall i :: 0 <= i < |list| ==> requests[i] == list[i].request
  {
    seq(|list|, i requires 0 <= i < |list| => list[i].request)
  }

  /** How often the server holds an opening request: handed over already, or parked. */
  function Held(v: Server, r: Request): nat
    requires r.Opens()
  {
    multiset(v.invoked)[r] + multiset(Requests(ParkedFor(v, r.channel)))[r]
  }

  /** How often it arrived, for the first time and again. */
  function Arrivals(s: System, r: Request): nat {
    multiset(s.taken)[r] + multiset(s.again)[r]
  }

  ghost predicate HeldAsArrived(s: System) {
    forall r: Request :: r.Opens() ==> Held(s.server, r) == Arrivals(s, r)
  }

  /** What was asked is put on the wire once, and arrives for the first time once. */
  ghost predicate SentOnce(s: System) {
    forall r: Request :: r.Opens() ==>
      multiset(s.toServer)[r] + multiset(s.taken)[r] <= (if Sent(r, s.client) then 1 else 0)
  }

  ghost predicate Counted(s: System) {
    Inv(s) && HeldAsArrived(s) && SentOnce(s) && forall r :: r in s.again ==> r in s.taken
  }

  // -------------------------------------------------------------------------
  // Counting
  // -------------------------------------------------------------------------

  lemma OneMore<T>(list: seq<T>, last: T)
    ensures multiset(list + [last]) == multiset(list) + multiset{last}
  {
  }

  lemma ParkedOneMore(list: seq<Parked>, last: Parked)
    ensures multiset(Requests(list + [last])) == multiset(Requests(list)) + multiset{last.request}
  {
    assert Requests(list + [last]) == Requests(list) + [last.request];
  }

  lemma HandOverHolds(v: Server, request: Request, r: Request)
    requires request.Opens() && r.Opens()
    ensures Held(HandOver(v, request), r) == Held(v, r) + if r == request then 1 else 0
  {
    OneMore(v.invoked, request);
    hide Requests;
  }

  lemma ParkHolds(v: Server, request: Request, r: Request)
    requires request.Opens() && r.Opens()
    ensures Held(Park(v, request), r) == Held(v, r) + if r == request then 1 else 0
  {
    ParkedOneMore(ParkedFor(v, request.channel), Parked(request, true));
    hide Requests;
    assert r.channel != request.channel ==> ParkedFor(Park(v, request), r.channel) == ParkedFor(v, r.channel);
  }

  /** Opening a request makes the server hold it once more, and no other. */
  lemma OpenHolds(v: Server, request: Request, r: Request)
    requires request.Opens() && r.Opens()
    ensures Held(Open(v, request), r) == Held(v, r) + if r == request then 1 else 0
  {
    hide Held, HandOver, Park;
    HandOverHolds(v, request, r);
    ParkHolds(v, request, r);
  }

  lemma RequestHolds(v: Server, request: Request, r: Request)
    requires r.Opens()
    ensures Held(OnRequest(v, request), r) == Held(v, r) + if r == request then 1 else 0
  {
    if request.Opens() {
      OpenHolds(v, request, r);
    }
  }

  lemma {:induction false} HandOverAllHolds(v: Server, requests: seq<Parked>, channel: string)
    requires channel in v.channels
    requires forall i :: 0 <= i < |requests| ==> requests[i].request.Opens() && requests[i].request.channel == channel
    ensures var v' := HandOverAll(v, requests);
      v'.parked == v.parked && multiset(v'.invoked) == multiset(v.invoked) + multiset(Requests(requests))
    decreases |requests|
  {
    if requests != [] {
      var first, rest := requests[0], requests[1..];
      OpenAdds(v, first.request);
      RequestsFirst(requests);
      hide Open, Requests;
      HandOverAllHolds(Open(v, first.request), rest, channel);
    }
  }

  lemma OpenAdds(v: Server, request: Request)
    requires request.Opens() && request.channel in v.channels
    ensures var v' := Open(v, request);
      v'.channels == v.channels && v'.parked == v.parked && multiset(v'.invoked) == multiset(v.invoked) + multiset{request}
  {
    OneMore(v.invoked, request);
  }

  lemma RequestsFirst(list: seq<Parked>)
    requires list != []
    ensures multiset(Requests(list)) == multiset{list[0].request} + multiset(Requests(list[1..]))
  {
    assert Requests(list) == [list[0].request] + Requests(list[1..]);
  }

  // -------------------------------------------------------------------------
  // Every step
  // -------------------------------------------------------------------------

  lemma TakeCounts(s: System)
    requires Counted(s) && Enabled(s, Take)
    ensures Counted(Next(s, Take))
  {
    hide HeldAsArrived, SentOnce, Inv, OnRequest, Held;
    StepKeeps(s, Take);
    TakeHeld(s);
    TakeSent(s);
  }

  lemma TakeHeld(s: System)
    requires HeldAsArrived(s) && Enabled(s, Take)
    ensures HeldAsArrived(Next(s, Take))
  {
    hide OnRequest, Held;
    var first, s' := s.toServer[0], Next(s, Take);
    OneMore(s.taken, first);
    forall r: Request | r.Opens() ensures Held(s'.server, r) == Arrivals(s', r) {
      RequestHolds(s.server, first, r);
    }
  }

  lemma TakeSent(s: System)
    requires SentOnce(s) && Enabled(s, Take)
    ensures SentOnce(Next(s, Take))
  {
    hide OnRequest, Sent;
    var first, s' := s.toServer[0], Next(s, Take);
    OneMore(s.taken, first);
    assert s.toServer == [first] + s.toServer[1..];
    assert multiset(s.toServer) == multiset{first} + multiset(s'.toServer);
    forall r: Request | r.Opens()
      ensures multiset(s'.toServer)[r] + multiset(s'.taken)[r] == multiset(s.toServer)[r] + multiset(s.taken)[r]
    {
    }
  }

  lemma RetakeCounts(s: System, k: nat)
    requires Counted(s) && Enabled(s, Retake(k))
    ensures Counted(Next(s, Retake(k)))
  {
    StepKeeps(s, Retake(k));
    var s' := Next(s, Retake(k));
    hide Inv, OnRequest, Held;
    OneMore(s.again, s.taken[k]);
    forall r: Request | r.Opens() ensures Held(s'.server, r) == Arrivals(s', r) {
      RequestHolds(s.server, s.taken[k], r);
    }
  }

  lemma ClientCounts(s: System, step: Step)
    requires Counted(s) && Enabled(s, step)
    requires step.DoInvoke? || step.DoSubscribe? || step.DoUnsubscribe? || step.DoDeferred? || step.DoCancel?
    ensures Counted(Next(s, step))
  {
    hide Inv, Next, Enabled, Held, Sent;
    StepKeeps(s, step);
    var sent := SendsNew(s, step);
    var s' := Next(s, step);
    forall r: Request | r.Opens()
      ensures multiset(s'.toServer)[r] + multiset(s'.taken)[r] <= if Sent(r, s'.client) then 1 else 0
    {
      if sent != [] {
        OneMore(s.toServer, sent[0]);
        assert sent == [sent[0]];
      } else {
        assert s.toServer + [] == s.toServer;
      }
    }
  }

  /** A client step adds one request at most, and an opening one that was never sent before. */
  lemma SendsNew(s: System, step: Step) returns (sent: seq<Request>)
    requires Inv(s) && Enabled(s, step)
    requires step.DoInvoke? || step.DoSubscribe? || step.DoUnsubscribe? || step.DoDeferred? || step.DoCancel?
    ensures var s' := Next(s, step);
      && s' == s.(client := s'.client, toServer := s.toServer + sent)
      && (sent == [] || (|sent| == 1 && (sent[0].Opens() ==> !Sent(sent[0], s.client) && Sent(sent[0], s'.client))))
      && forall r: Request :: Sent(r, s.client) ==> Sent(r, s'.client)
  {
    var s' := Next(s, step);
    sent := s'.toServer[|s.toServer|..];
    assert s'.toServer == s.toServer + sent;
  }

  /** Steps that put nothing on the wire, take nothing off it, and leave what the server holds. */
  lemma Unmoved(s: System, s': System)
    requires Counted(s) && Inv(s')
    requires s'.toServer == s.toServer && s'.taken == s.taken && s'.again == s.again
    requires s'.client.asked == s.client.asked && s'.client.waiting == s.client.waiting
    requires forall r: Request :: r.Opens() ==> Held(s'.server, r) == Held(s.server, r)
    ensures Counted(s')
  {
    hide Inv, Held;
  }

  lemma FlushCounts(s: System, channel: string)
    requires Counted(s) && Enabled(s, DoFlush(channel))
    ensures Counted(Next(s, DoFlush(channel)))
  {
    hide HeldAsArrived, SentOnce, HandOverAll, Held;
    StepKeeps(s, DoFlush(channel));
    var v, entries, s' := s.server, ParkedFor(s.server, channel), Next(s, DoFlush(channel));
    assert forall i :: 0 <= i < |entries| ==> entries[i] in entries;
    HandOverAllHolds(v, entries, channel);
    hide Inv;
    forall r: Request | r.Opens() ensures Held(s'.server, r) == Held(v, r) {
      FlushedHolds(v, s'.server, channel, r);
    }
    Unmoved(s, s');
  }

  lemma FlushedHolds(v: Server, v': Server, channel: string, r: Request)
    requires r.Opens()
    requires forall i :: 0 <= i < |ParkedFor(v, channel)| ==>
      ParkedFor(v, channel)[i].request.Opens() && ParkedFor(v, channel)[i].request.channel == channel
    requires v'.parked == v.parked - {channel}
    requires multiset(v'.invoked) == multiset(v.invoked) + multiset(Requests(ParkedFor(v, channel)))
    ensures Held(v', r) == Held(v, r)
  {
    if r.channel == channel {
      assert Requests([]) == [];
    } else {
      assert r !in Requests(ParkedFor(v, channel));
      assert ParkedFor(v', r.channel) == ParkedFor(v, r.channel);
    }
  }

  lemma TimeoutCounts(s: System, channel: string, i: nat)
    requires Counted(s) && Enabled(s, DoTimeout(channel, i))
    ensures Counted(Next(s, DoTimeout(channel, i)))
  {
    hide HeldAsArrived, SentOnce, Held;
    StepKeeps(s, DoTimeout(channel, i));
    var s' := Next(s, DoTimeout(channel, i));
    hide Inv;
    forall r: Request | r.Opens() ensures Held(s'.server, r) == Held(s.server, r) {
      TimedOutHolds(s.server, channel, i, r);
    }
    Unmoved(s, s');
  }

  lemma TimedOutHolds(v: Server, channel: string, i: nat, r: Request)
    requires r.Opens() && i < |ParkedFor(v, channel)|
    ensures Held(Timeout(v, channel, i).0, r) == Held(v, r)
  {
    var list := v.parked[channel];
    assert Requests(list[i := list[i].(timer := false)]) == Requests(list);
  }

  lemma OtherCounts(s: System, step: Step)
    requires Counted(s) && Enabled(s, step)
    requires step.DoRegister? || step.DoFire? || step.Ready? || step.DoDisposeServer? || step.DoComplete?
    ensures Counted(Next(s, step))
  {
    hide HeldAsArrived, SentOnce;
    StepKeeps(s, step);
    hide Inv;
    var s' := Next(s, step);
    assert s'.server.invoked == s.server.invoked && s'.server.parked == s.server.parked;
    Unmoved(s, s');
  }

  lemma AnswerCounts(s: System, response: Response, s': System)
    requires Counted(s) && Inv(s')
    requires s' == s.(client := OnResponse(s.client, response), toClient := s'.toClient, delivered := s'.delivered)
    ensures Counted(s')
  {
    hide HeldAsArrived, SentOnce, Inv, Held, OnResponse;
    ResponseKeepsAsked(s.client, response);
    Unmoved(s, s');
  }

  lemma DeliverCounts(s: System, step: Step)
    requires Counted(s) && Enabled(s, step) && (step.Deliver? || step.Redeliver?)
    ensures Counted(Next(s, step))
  {
    hide HeldAsArrived, SentOnce, Inv, OnResponse;
    StepKeeps(s, step);
    AnswerCounts(s, if step.Deliver? then s.toClient[0] else s.delivered[step.index], Next(s, step));
  }

  lemma DisposeCounts(s: System)
    requires Counted(s)
    ensures Counted(Next(s, DoDisposeClient))
  {
    hide HeldAsArrived, SentOnce, Held, DisposeClient;
    StepKeeps(s, DoDisposeClient);
    InvClient(s);
    hide Inv, ClientOk;
    DisposeKeeps(s.client);
    Unmoved(s, Next(s, DoDisposeClient));
  }

  lemma StepCounts(s: System, step: Step)
    requires Counted(s) && Enabled(s, step)
    ensures Counted(Next(s, step))
  {
    hide Counted, Next, Enabled;
    match step
    case Take => TakeCounts(s);
    case Retake(k) => RetakeCounts(s, k);
    case DoFlush(channel) => FlushCounts(s, channel);
    case DoTimeout(channel, i) => TimeoutCounts(s, channel, i);
    case DoInvoke(_, _, _, _) => ClientCounts(s, step);
    case DoSubscribe(_, _, _) => ClientCounts(s, step);
    case DoUnsubscribe(_) => ClientCounts(s, step);
    case DoDeferred(_) => ClientCounts(s, step);
    case DoCancel(_) => ClientCounts(s, step);
    case Deliver => DeliverCounts(s, step);
    case Redeliver(_) => DeliverCounts(s, step);
    case DoDisposeClient => DisposeCounts(s);
    case _ => OtherCounts(s, step);
  }

  lemma {:induction false} RunCounts(s: System, steps: seq<Step>)
    requires Counted(s)
    ensures Counted(Run(s, steps))
    decreases |steps|
  {
    if steps != [] {
      hide Counted, Next, Enabled;
      if Enabled(s, steps[0]) {
        StepCounts(s, steps[0]);
        RunCounts(Next(s, steps[0]), steps[1..]);
      } else {
        RunCounts(s, steps[1..]);
      }
    }
  }

  // -------------------------------------------------------------------------
  // Over every run
  // -------------------------------------------------------------------------

  lemma Reachable(steps: seq<Step>)
    ensures Counted(Run(START, steps))
  {
    Settlement.Reachable([]);
    RunCounts(START, steps);
  }

  /** Some opening request arrived once more. */
  predicate Reopened(s: System) {
    exists r :: r in s.again && r.Opens()
  }

  /** Every opening request is held as often as it arrived; with none of its channel parked, it was handed over that often. */
  lemma HandedOverAsArrived(steps: seq<Step>, r: Request)
    requires r.Opens()
    ensures var s := Run(START, steps);
      && Held(s.server, r) == Arrivals(s, r)
      && (ParkedFor(s.server, r.channel) == [] ==> multiset(s.server.invoked)[r] == Arrivals(s, r))
  {
    Reachable(steps);
    hide Run, Inv;
  }

  /**
   No request is ever held twice, handed over or parked, if and only if no opening request was
   delivered again. Then no id is handed over twice; and only what the client asked is handed over.
   */
  lemma HandedOverOnce(steps: seq<Step>)
    ensures var s := Run(START, steps);
      && ((forall r: Request :: r.Opens() ==> Held(s.server, r) <= 1) <==> !Reopened(s))
      && (!Reopened(s) ==>
            forall i, j :: 0 <= i < j < |s.server.invoked| ==> s.server.invoked[i].id != s.server.invoked[j].id)
      && (forall i :: 0 <= i < |s.server.invoked| ==>
            var r := s.server.invoked[i]; r.id in s.client.asked && s.client.asked[r.id] == r)
  {
    Reachable(steps);
    var s := Run(START, steps);
    forall i | 0 <= i < |s.server.invoked| ensures Sent(s.server.invoked[i], s.client) {
      assert s.server.invoked[i] in s.server.invoked;
    }
    hide Run, Inv;
    if !Reopened(s) {
      forall r: Request | r.Opens() ensures Held(s.server, r) <= 1 {
        assert r !in s.again;
      }
      OnceIsDistinct(s.server.invoked);
    } else {
      var r :| r in s.again && r.Opens();
      assert r in s.taken;
      assert Held(s.server, r) == Arrivals(s, r) >= 2;
    }
  }

  lemma OnceIsDistinct(invoked: seq<Request>)
    ensures (forall r :: r in invoked ==> multiset(invoked)[r] <= 1) ==>
      forall i, j :: 0 <= i < j < |invoked| ==> invoked[i] != invoked[j]
  {
    forall i, j | 0 <= i < j < |invoked| && invoked[i] == invoked[j]
      ensures multiset(invoked)[invoked[i]] > 1
    {
      assert invoked == invoked[..j] + invoked[j..];
      assert invoked[i] in invoked[..j] && invoked[j] in invoked[j..];
    }
  }

  /** The other case is real: a call delivered again is handed to its channel twice. */
  lemma ReplayedCallIsInvokedTwice(channel: string, name: string, arg: string)
    ensures var call := Call(0, channel, name, arg);
      var s := Run(START, [Ready, Deliver, DoRegister(channel), DoInvoke(channel, name, arg, false), Take, Retake(0)]);
      s.server.invoked == [call, call]
  {
    var call, invoke, register := Call(0, channel, name, arg), DoInvoke(channel, name, arg, false), DoRegister(channel);
    var s1 := Next(START, Ready);
    assert s1.toClient == [Initialize];
    var s2 := Next(s1, Deliver);
    var s3 := Next(s2, register);
    var s4 := Next(s3, invoke);
    assert s4.toServer == [call];
    var s5 := Next(s4, Take);
    assert s5.taken == [call] && s5.server.invoked == [call];
    var s6 := Next(s5, Retake(0));
    hide Run, Next, Enabled;
    RunFirst(START, Ready, [Deliver, register, invoke, Take, Retake(0)]);
    RunFirst(s1, Deliver, [register, invoke, Take, Retake(0)]);
    RunFirst(s2, register, [invoke, Take, Retake(0)]);
    RunFirst(s3, invoke, [Take, Retake(0)]);
    RunFirst(s4, Take, [Retake(0)]);
    RunFirst(s5, Retake(0), []);
    RunNone(s6);
    assert [Ready, Deliver, register, invoke, Take, Retake(0)] == [Ready] + [Deliver, register, invoke, Take, Retake(0)];
    assert [Deliver, register, invoke, Take, Retake(0)] == [Deliver] + [register, invoke, Take, Retake(0)];
    assert [register, invoke, Take, Retake(0)] == [register] + [invoke, Take, Retake(0)];
    assert [invoke, Take, Retake(0)] == [invoke] + [Take, Retake(0)];
    assert [Take, Retake(0)] == [Take] + [Retake(0)] && [Retake(0)] == [Retake(0)] + [];
  }

  lemma RunFirst(s: System, first: Step, rest: seq<Step>)
    requires Enabled(s, first)
    ensures Run(s, [first] + rest) == Run(Next(s, first), rest)
  {
    assert ([first] + rest)[1..] == rest;
  }

  lemma RunNone(s: System)
    ensures Run(s, []) == s
  {
  }
}
