/** Which pending calls can still be answered: all of them as long as the server is there, and exactly which after that. */
module Answers {
  import opened Channels
  import opened Settled = Settlement

  predicate AnsweredIn(settled: seq<Settlement>, id: nat) {
    exists k :: 0 <= k < |settled| && settled[k].id == id && settled[k].means.ByResponse?
  }

  /** The call was settled by a response. */
  predicate Answered(c: Client, id: nat) {
    AnsweredIn(c.settled, id)
  }

  /** In some further run the call is answered. */
  ghost predicate Answerable(s: System, id: nat) {
    exists more :: Answered(Run(s, more).client, id)
  }

  /** The request is held for a channel, whether or not its timeout was already answered. */
  predicate IsParked(v: Server, request: Request)
    requires request.Opens()
  {
    exists timer :: Parked(request, timer) in ParkedFor(v, request.channel)
  }

  /** The server is there, or holds the request already, or has answered it. */
  predicate AnswerCanCome(s: System, id: nat)
    requires id in s.client.asked && s.client.asked[id].Opens()
  {
    var r := s.client.asked[id];
    !s.server.disposed || r in s.server.running || IsParked(s.server, r) || Answering(s.toClient, id)
  }

  // -------------------------------------------------------------------------
  // No response comes before its request has left
  // -------------------------------------------------------------------------

  /** Calls answered on the way have left the client, and calls whose answer was delivered are not pending. */
  predicate Timely(s: System) {
    && (forall r :: r in s.toClient && r.PromiseResult? ==> r.id !in s.client.waiting)
    && (forall r :: r in s.delivered && r.PromiseResult? ==> r.id !in s.client.pending)
  }

  predicate Known(s: System) {
    && (forall r :: r in s.toClient && r.PromiseResult? ==> r.id < s.client.nextId)
    && (forall r :: r in s.delivered && r.PromiseResult? ==> r.id < s.client.nextId)
  }

  lemma AllKnown(s: System)
    requires Inv(s)
    ensures Known(s)
  {
    hide Distinct, OncePerId, SettledIds, GoodMeans;
  }

  /** Only an id just given out becomes pending or waiting. */
  predicate OnlyNewHeld(c: Client, c': Client) {
    && c.nextId <= c'.nextId
    && (forall id :: id in c'.pending ==> id in c.pending || id >= c.nextId)
    && (forall id :: id in c'.waiting ==> id in c.waiting || id >= c.nextId)
  }

  lemma ClientMovesTimely(s: System, s': System)
    requires Timely(s) && Known(s) && OnlyNewHeld(s.client, s'.client)
    requires s'.toClient == s.toClient && s'.delivered == s.delivered
    ensures Timely(s')
  {
  }

  lemma {:induction false} RejectAllHolds(c: Client, ids: seq<nat>)
    ensures OnlyNewHeld(c, RejectAll(c, ids))
    ensures forall id :: AnsweredIn(RejectAll(c, ids).settled, id) ==> AnsweredIn(c.settled, id)
    decreases |ids|
  {
    if ids != [] {
      var next := Settle(c, ids[0], ByDispose);
      RejectAllHolds(next, ids[1..]);
      NotAnswered(c.settled, Settlement(ids[0], ByDispose));
      hide AnsweredIn, RejectAll;
    }
  }

  lemma NotAnswered(settled: seq<Settlement>, last: Settlement)
    ensures forall id :: AnsweredIn(settled + [last], id) <==> AnsweredIn(settled, id) || (last.id == id && last.means.ByResponse?)
  {
    var all := settled + [last];
    assert all[|settled|] == last;
    forall id | AnsweredIn(settled, id) ensures AnsweredIn(all, id) {
      var k :| 0 <= k < |settled| && settled[k].id == id && settled[k].means.ByResponse?;
      assert all[k] == settled[k];
    }
  }

  lemma ClientStepsHold(s: System, step: Step)
    requires Enabled(s, step)
    requires step.DoInvoke? || step.DoSubscribe? || step.DoUnsubscribe? || step.DoDeferred? || step.DoCancel? || step.DoDisposeClient?
    ensures OnlyNewHeld(s.client, Next(s, step).client)
    ensures Next(s, step).toClient == s.toClient && Next(s, step).delivered == s.delivered
    ensures Next(s, step).server == s.server
  {
    if step.DoDisposeClient? {
      RejectAllHolds(s.client.(disposed := true), s.client.pending);
    }
  }

  lemma DeliveredTimely(s: System)
    requires Inv(s) && Timely(s) && Enabled(s, Deliver)
    ensures Timely(Next(s, Deliver))
  {
    var response, s' := s.toClient[0], Next(s, Deliver);
    assert response in s.toClient;
    hide Distinct, OncePerId, SettledIds, GoodMeans, SettledOk, AllAccounted, ServerOk, NobodyOrphaned;
    if response.PromiseResult? {
      assert ResponseOk(response, s.client.asked);
      assert response.id !in s'.client.pending;
    }
  }

  lemma ServerStepsTimely(s: System, step: Step)
    requires Inv(s) && Timely(s) && Enabled(s, step)
    requires step.DoTimeout? || step.DoComplete? || step.DoFire? || step.Ready?
    ensures Timely(Next(s, step))
  {
    hide ClientOk, WireOk, NobodyOrphaned;
    if step.DoTimeout? {
      assert s.server.parked[step.channel][step.index] in s.server.parked[step.channel];
    }
    if step.DoComplete? {
      assert s.server.running[step.index] in s.server.running;
    }
  }

  lemma StepTimely(s: System, step: Step)
    requires Inv(s) && Timely(s) && Enabled(s, step)
    ensures Timely(Next(s, step))
  {
    match step
    case Deliver => DeliveredTimely(s);
    case Redeliver(_) =>
    case Take =>
    case Retake(_) =>
    case DoFlush(_) =>
    case DoRegister(_) =>
    case DoDisposeServer =>
    case DoTimeout(_, _) => ServerStepsTimely(s, step);
    case DoComplete(_, _) => ServerStepsTimely(s, step);
    case DoFire(_, _) => ServerStepsTimely(s, step);
    case Ready => ServerStepsTimely(s, step);
    case _ =>
      hide Inv, Timely, Enabled, Next;
      AllKnown(s);
      ClientStepsHold(s, step);
      ClientMovesTimely(s, Next(s, step));
  }

  lemma {:induction false} RunTimely(s: System, steps: seq<Step>)
    requires Inv(s) && Timely(s)
    ensures Inv(Run(s, steps)) && Timely(Run(s, steps))
    decreases |steps|
  {
    if steps != [] {
      hide Inv, Timely, Next, Enabled;
      if Enabled(s, steps[0]) {
        StepKeeps(s, steps[0]);
        StepTimely(s, steps[0]);
        RunTimely(Next(s, steps[0]), steps[1..]);
      } else {
        RunTimely(s, steps[1..]);
      }
    }
  }

  // -------------------------------------------------------------------------
  // How the answer comes
  // -------------------------------------------------------------------------

  lemma RunStep(s: System, step: Step, rest: seq<Step>)
    requires Enabled(s, step)
    ensures Run(s, [step] + rest) == Run(Next(s, step), rest)
  {
    hide Enabled, Next;
    assert ([step] + rest)[1..] == rest;
  }

  /** A call that is pending, its request no longer held by the client. */
  predicate Outstanding(s: System, id: nat) {
    Inv(s) && id in s.client.pending && id !in s.client.waiting
  }

  /** The response is delivered, behind all those in front of it. */
  lemma {:induction false} FromTheWire(s: System, id: nat) returns (more: seq<Step>)
    requires Outstanding(s, id) && Answering(s.toClient, id)
    ensures Answered(Run(s, more).client, id)
    decreases |s.toClient|
  {
    var s', response := Next(s, Deliver), s.toClient[0];
    if response.PromiseResult? && response.id == id {
      Settles(s, id);
      RunStep(s, Deliver, []);
      assert [Deliver] + [] == [Deliver];
      more := [Deliver];
    } else {
      Waits(s, id);
      more := FromTheWire(s', id);
      RunStep(s, Deliver, more);
      more := [Deliver] + more;
    }
  }

  lemma Settles(s: System, id: nat)
    requires Outstanding(s, id) && s.toClient != [] && s.toClient[0].PromiseResult? && s.toClient[0].id == id
    ensures Enabled(s, Deliver) && Answered(Next(s, Deliver).client, id)
  {
    hide Distinct, OncePerId, SettledIds, GoodMeans, SettledOk, AllAccounted, ServerOk, WireOk, NobodyOrphaned;
    NotAnswered(s.client.settled, Settlement(id, ByResponse(s.toClient[0])));
  }

  lemma Waits(s: System, id: nat)
    requires Outstanding(s, id) && Answering(s.toClient, id) && !(s.toClient[0].PromiseResult? && s.toClient[0].id == id)
    ensures Enabled(s, Deliver) && Outstanding(Next(s, Deliver), id) && Answering(Next(s, Deliver).toClient, id)
  {
    StepKeeps(s, Deliver);
    var k :| 0 <= k < |s.toClient| && s.toClient[k].PromiseResult? && s.toClient[k].id == id;
    assert s.toClient[1..][k - 1] == s.toClient[k];
    hide Inv;
  }

  /** The channel returns. */
  lemma FromRunning(s: System, id: nat) returns (more: seq<Step>)
    requires Outstanding(s, id) && id in s.client.asked && s.client.asked[id] in s.server.running
    ensures Answered(Run(s, more).client, id)
  {
    var r := s.client.asked[id];
    PendingIsCall(s, id);
    var i :| 0 <= i < |s.server.running| && s.server.running[i] == r;
    var step := DoComplete(i, Returned(""));
    StepKeeps(s, step);
    hide Inv;
    var s' := Next(s, step);
    assert s'.toClient[|s.toClient|] == PromiseResult(id, Returned(""), r);
    more := FromTheWire(s', id);
    RunStep(s, step, more);
    more := [step] + more;
  }

  lemma ParkedOpens(v: Server, c: Client, channel: string)
    requires ServerOk(v, c)
    ensures forall p :: p in ParkedFor(v, channel) ==> Sent(p.request, c) && p.request.channel == channel
    ensures forall i :: 0 <= i < |ParkedFor(v, channel)| ==> ParkedFor(v, channel)[i].request.Opens()
  {
    forall i | 0 <= i < |ParkedFor(v, channel)| ensures ParkedFor(v, channel)[i].request.Opens() {
      assert ParkedFor(v, channel)[i] in ParkedFor(v, channel);
    }
  }

  lemma Flushed(s: System, channel: string)
    requires Inv(s) && channel in s.server.flushes
    ensures Enabled(s, DoFlush(channel))
    ensures var s' := Next(s, DoFlush(channel));
      && s'.client == s.client
      && forall p :: p in ParkedFor(s.server, channel) && p.request.Call? ==> p.request in s'.server.running
  {
    ParkedOpens(s.server, s.client, channel);
    HandOverAllKeeps(s.server, ParkedFor(s.server, channel), channel, s.client);
    hide ClientOk, WireOk, NobodyOrphaned, HandOverAll;
  }

  /** The channel is registered, the parked requests are handed over, and the channel returns. */
  lemma FromParked(s: System, id: nat) returns (more: seq<Step>)
    requires Outstanding(s, id) && id in s.client.asked && s.client.asked[id].Opens() && IsParked(s.server, s.client.asked[id])
    ensures Answered(Run(s, more).client, id)
  {
    PendingIsCall(s, id);
    var r := s.client.asked[id];
    var timer :| Parked(r, timer) in ParkedFor(s.server, r.channel);
    var register, flush := DoRegister(r.channel), DoFlush(r.channel);
    var s1 := Next(s, register);
    assert r.channel in s1.server.flushes && s1.client == s.client;
    assert Parked(r, timer) in ParkedFor(s1.server, r.channel);
    StepKeeps(s, register);
    Flushed(s1, r.channel);
    var s2 := Next(s1, flush);
    StepKeeps(s1, flush);
    assert Outstanding(s2, id);
    hide Outstanding, Inv, Next, Answered;
    more := FromRunning(s2, id);
    assert Enabled(s, register);
    RunStep(s1, flush, more);
    RunStep(s, register, [flush] + more);
    more := [register] + ([flush] + more);
  }

  /** The server takes what was sent before the request, and then the request. */
  lemma {:induction false} FromTheClient(s: System, id: nat) returns (more: seq<Step>)
    requires Outstanding(s, id) && id in s.client.asked && s.client.asked[id] in s.toServer && !s.server.disposed
    ensures Answered(Run(s, more).client, id)
    decreases |s.toServer|
  {
    PendingIsCall(s, id);
    StepKeeps(s, Take);
    RequestTaken(s, s.client.asked[id]);
    var s', r := Next(s, Take), s.client.asked[id];
    assert Outstanding(s', id) && s'.client == s.client;
    if r in s'.server.running {
      more := FromRunning(s', id);
    } else if IsParked(s'.server, r) {
      more := FromParked(s', id);
    } else {
      more := FromTheClient(s', id);
    }
    hide Outstanding, Inv, Next, Answered;
    RunStep(s, Take, more);
    more := [Take] + more;
  }

  lemma RequestTaken(s: System, r: Request)
    requires Inv(s) && r in s.toServer && !s.server.disposed && r.Call?
    ensures Enabled(s, Take)
    ensures var s' := Next(s, Take);
      && s'.client == s.client && !s'.server.disposed && |s'.toServer| < |s.toServer|
      && (r in s'.server.running || IsParked(s'.server, r) || r in s'.toServer)
  {
    assert s.toServer == [s.toServer[0]] + s.toServer[1..];
    assert s.toServer[0] in s.toServer;
    if s.toServer[0] == r {
      OpenKeeps(s.server, r, s.client);
    }
    hide ClientOk, NobodyOrphaned, ServerOk;
  }

  predicate Held(s: System, id: nat) {
    Inv(s) && id in s.client.pending && id in s.client.waiting
  }

  /** The client is told that the server is ready, and sends the request. */
  lemma {:induction false} FromHeld(s: System, id: nat) returns (more: seq<Step>)
    requires Held(s, id) && !s.server.disposed
    ensures Answered(Run(s, more).client, id)
    decreases if s.client.initialized then 0 else if Initialize in s.toClient then 1 else 2, |s.toClient|
  {
    var step := if s.client.initialized then DoDeferred(id) else if Initialize in s.toClient then Deliver else Ready;
    HeldGoesOn(s, id, step);
    StepKeeps(s, step);
    var s' := Next(s, step);
    if s.client.initialized {
      assert Outstanding(s', id);
      more := FromTheClient(s', id);
    } else {
      assert Held(s', id);
      more := FromHeld(s', id);
    }
    hide Held, Inv, Next, Answered, Enabled;
    RunStep(s, step, more);
    more := [step] + more;
  }

  lemma HeldGoesOn(s: System, id: nat, step: Step)
    requires Held(s, id) && !s.server.disposed
    requires step == if s.client.initialized then DoDeferred(id) else if Initialize in s.toClient then Deliver else Ready
    ensures Enabled(s, step) && !Next(s, step).server.disposed
    ensures var s' := Next(s, step);
      && id in s'.client.pending && id in s'.client.asked
      && (s.client.initialized ==> id !in s'.client.waiting && s'.client.asked[id] in s'.toServer)
      && (!s.client.initialized ==> id in s'.client.waiting)
      && (step.Ready? ==> Initialize in s'.toClient && s'.client == s.client)
      && (step.Deliver? ==> s'.client.initialized || (Initialize in s'.toClient && |s'.toClient| < |s.toClient|))
  {
    hide Distinct, OncePerId, SettledIds, GoodMeans, SettledOk, AllAccounted, ServerOk, WireOk, NobodyOrphaned;
    if step.Ready? {
      assert Next(s, step).toClient[|s.toClient|] == Initialize;
    }
    if step.Deliver? {
      assert s.toClient == [s.toClient[0]] + s.toClient[1..];
    }
  }

  /** From everywhere an answer can come from, it can come. */
  lemma CanBeAnswered(s: System, id: nat) returns (more: seq<Step>)
    requires Inv(s) && Timely(s) && id in s.client.pending && id in s.client.asked && s.client.asked[id].Call? && AnswerCanCome(s, id)
    ensures Answered(Run(s, more).client, id)
  {
    var r := s.client.asked[id];
    assert Located(s, id);
    if id in s.client.waiting {
      HeldIsNowhereElse(s, id);
      more := FromHeld(s, id);
    } else if Answering(s.toClient, id) {
      more := FromTheWire(s, id);
    } else if r in s.server.running {
      more := FromRunning(s, id);
    } else if IsParked(s.server, r) {
      more := FromParked(s, id);
    } else {
      more := FromTheClient(s, id);
    }
  }

  /** A request the client holds is nowhere else. */
  lemma HeldIsNowhereElse(s: System, id: nat)
    requires Inv(s) && Timely(s) && id in s.client.waiting && id in s.client.asked && s.client.asked[id].Opens()
    ensures var r := s.client.asked[id]; r !in s.server.running && !IsParked(s.server, r) && !Answering(s.toClient, id)
  {
    ParkedOpens(s.server, s.client, s.client.asked[id].channel);
    hide NobodyOrphaned, Distinct, OncePerId, SettledIds, GoodMeans, SettledOk, AllAccounted;
  }

  // -------------------------------------------------------------------------
  // When none can come
  // -------------------------------------------------------------------------

  predicate NoResponse(responses: seq<Response>, id: nat) {
    forall r :: r in responses && r.PromiseResult? ==> r.id != id
  }

  predicate NoneRuns(v: Server, id: nat) {
    && (forall r :: r in v.running ==> r.id != id)
    && (forall channel :: channel in v.parked ==> forall p :: p in v.parked[channel] ==> p.request.id != id)
  }

  /** The server takes nothing any more, holds nothing under the id, and no response to it is anywhere. */
  predicate NothingComes(s: System, id: nat) {
    && s.server.disposed && NoneRuns(s.server, id)
    && NoResponse(s.toClient, id) && NoResponse(s.delivered, id)
    && !Answered(s.client, id)
  }

  lemma OpenOther(v: Server, request: Request, id: nat)
    requires request.Opens() && request.id != id && NoneRuns(v, id)
    ensures NoneRuns(Channels.Open(v, request), id) && Channels.Open(v, request).disposed == v.disposed
  {
  }

  lemma {:induction false} HandOverOthers(v: Server, requests: seq<Parked>, id: nat)
    requires forall i :: 0 <= i < |requests| ==> requests[i].request.Opens()
    requires NoneRuns(v, id) && forall p :: p in requests ==> p.request.id != id
    ensures NoneRuns(HandOverAll(v, requests), id) && HandOverAll(v, requests).disposed == v.disposed
    decreases |requests|
  {
    if requests != [] {
      assert requests[0] in requests;
      OpenOther(v, requests[0].request, id);
      hide NoneRuns, Channels.Open;
      HandOverOthers(Channels.Open(v, requests[0].request), requests[1..], id);
    }
  }

  lemma OtherResponse(c: Client, response: Response, id: nat)
    requires !Answered(c, id) && (response.PromiseResult? ==> response.id != id)
    ensures !Answered(OnResponse(c, response), id)
  {
    if response.PromiseResult? {
      NotAnswered(c.settled, Channels.Settlement.Settlement(response.id, ByResponse(response)));
    }
    hide AnsweredIn;
  }

  lemma ClientStepsAnswerNobody(s: System, step: Step, id: nat)
    requires Enabled(s, step) && !Answered(s.client, id)
    requires step.DoInvoke? || step.DoSubscribe? || step.DoUnsubscribe? || step.DoDeferred? || step.DoCancel? || step.DoDisposeClient?
    ensures !Answered(Next(s, step).client, id)
  {
    hide AnsweredIn;
    match step
    case DoInvoke(_, _, _, _) => NotAnswered(s.client.settled, Channels.Settlement.Settlement(s.client.nextId, CancelledBefore));
    case DoCancel(i) => NotAnswered(s.client.settled, Channels.Settlement.Settlement(i, ByCancel));
    case DoDisposeClient => RejectAllHolds(s.client.(disposed := true), s.client.pending);
    case _ =>
  }

  lemma ServerStepsAnswerNobody(s: System, step: Step, id: nat)
    requires Enabled(s, step) && NothingComes(s, id)
    requires step.DoRegister? || step.DoFlush? || step.DoTimeout? || step.DoComplete? || step.DoFire? || step.Ready? || step.DoDisposeServer?
    ensures NothingComes(Next(s, step), id)
  {
    hide Answered;
    match step
    case DoFlush(channel) =>
      HandOverOthers(s.server, ParkedFor(s.server, channel), id);
      hide HandOverAll;
    case DoTimeout(channel, i) => assert s.server.parked[channel][i] in s.server.parked[channel];
    case DoComplete(i, _) => assert s.server.running[i] in s.server.running;
    case _ =>
  }

  lemma StillNothingComes(s: System, step: Step, id: nat)
    requires Enabled(s, step) && NothingComes(s, id)
    ensures NothingComes(Next(s, step), id)
  {
    hide Answered, OnResponse, NoneRuns;
    match step
    case Deliver =>
      assert s.toClient[0] in s.toClient;
      OtherResponse(s.client, s.toClient[0], id);
    case Redeliver(k) =>
      assert s.delivered[k] in s.delivered;
      OtherResponse(s.client, s.delivered[k], id);
    case Take =>
    case Retake(_) =>
    case DoRegister(_) => ServerStepsAnswerNobody(s, step, id);
    case DoFlush(_) => ServerStepsAnswerNobody(s, step, id);
    case DoTimeout(_, _) => ServerStepsAnswerNobody(s, step, id);
    case DoComplete(_, _) => ServerStepsAnswerNobody(s, step, id);
    case DoFire(_, _) => ServerStepsAnswerNobody(s, step, id);
    case Ready => ServerStepsAnswerNobody(s, step, id);
    case DoDisposeServer => ServerStepsAnswerNobody(s, step, id);
    case _ =>
      ClientStepsHold(s, step);
      ClientStepsAnswerNobody(s, step, id);
  }

  lemma {:induction false} NeverAnswered(s: System, more: seq<Step>, id: nat)
    requires NothingComes(s, id)
    ensures !Answered(Run(s, more).client, id)
    decreases |more|
  {
    hide Next, Enabled, Answered;
    if more != [] {
      if Enabled(s, more[0]) {
        StillNothingComes(s, more[0], id);
        NeverAnswered(Next(s, more[0]), more[1..], id);
      } else {
        NeverAnswered(s, more[1..], id);
      }
    }
  }

  lemma NoneCanCome(s: System, id: nat)
    requires Inv(s) && Timely(s) && id in s.client.pending && id in s.client.asked && s.client.asked[id].Call? && !AnswerCanCome(s, id)
    ensures NothingComes(s, id)
  {
    var r := s.client.asked[id];
    hide NobodyOrphaned, Distinct, OncePerId, GoodMeans, AllAccounted, WireOk;
    forall channel, p | channel in s.server.parked && p in s.server.parked[channel] ensures p.request.id != id {
      assert Sent(p.request, s.client) && p.request.channel == channel;
      assert p == Parked(p.request, p.timer);
    }
    forall k | 0 <= k < |s.toClient| && s.toClient[k].PromiseResult? ensures s.toClient[k].id != id {}
  }

  lemma AnswerableIff(s: System, id: nat)
    requires Inv(s) && Timely(s) && id in s.client.pending && id in s.client.asked && s.client.asked[id].Call?
    ensures Answerable(s, id) <==> AnswerCanCome(s, id)
  {
    hide Inv, Timely, Answered, AnswerCanCome, NothingComes;
    if AnswerCanCome(s, id) {
      var more := CanBeAnswered(s, id);
      assert Answered(Run(s, more).client, id);
    } else {
      NoneCanCome(s, id);
      forall more ensures !Answered(Run(s, more).client, id) {
        NeverAnswered(s, more, id);
      }
    }
  }

  /**
   Over every run, a pending call can still be answered by a response if and only if the server is not
   disposed, or has the request running or parked, or has answered it.
   */
  lemma AnswerableExactly(steps: seq<Step>, id: nat)
    requires id in Run(START, steps).client.pending
    ensures var s := Run(START, steps);
      && id in s.client.asked && s.client.asked[id].Call?
      && (Answerable(s, id) <==> AnswerCanCome(s, id))
  {
    Reachable([]);
    RunTimely(START, steps);
    hide Run, Inv, Timely, Answerable, AnswerCanCome;
    PendingIsCall(Run(START, steps), id);
    AnswerableIff(Run(START, steps), id);
  }
}
