/**
 What a caller gets is what the channel gave for that very call, or the timeout's error if the call
 timed out; what a listener hears is what was fired for its subscription.
 */
module Outcomes {
  import opened Channels
  import opened Settled = Settlement
  import opened Answers
  import opened Prelude

  /** Something that happened at the server and the client is told of. */
  datatype Happened = Gave(request: Request, outcome: Outcome) | TimedOut(request: Request) | Fired(request: Request, data: string)

  const UNKNOWN_CHANNEL := Threw("Unknown channel")

  /** What one step brings, as the step says. */
  function HappensAt(s: System, step: Step): seq<Happened> {
    if !Enabled(s, step) then []
    else
      match step
      case DoComplete(i, outcome) => [Gave(s.server.running[i], outcome)]
      case DoTimeout(channel, i) =>
        if s.server.parked[channel][i].request.Call? then [TimedOut(s.server.parked[channel][i].request)] else []
      case DoFire(i, data) => [Fired(s.server.listening[i], data)]
      case _ => []
  }

  /** Everything of the kind in a run, in order. */
  function History(s: System, steps: seq<Step>): seq<Happened>
    decreases |steps|
  {
    if steps == [] then []
    else HappensAt(s, steps[0]) + History(if Enabled(s, steps[0]) then Next(s, steps[0]) else s, steps[1..])
  }

  /** The response that says so. */
  function Answer(h: Happened): Response {
    match h
    case Gave(request, outcome) => PromiseResult(request.id, outcome, request)
    case TimedOut(request) => PromiseResult(request.id, UNKNOWN_CHANNEL, request)
    case Fired(request, data) => EventFire(request.id, data, request)
  }

  function AnswersTo(history: seq<Happened>): seq<Response> {
    if history == [] then [] else AnswersTo(history[..|history| - 1]) + [Answer(history[|history| - 1])]
  }

  /** The responses but for `Initialize`. */
  function Replies(responses: seq<Response>): seq<Response> {
    if responses == [] then []
    else
      var before, last := Replies(responses[..|responses| - 1]), responses[|responses| - 1];
      if last.Initialize? then before else before + [last]
  }

  lemma {:induction false} RepliesConcat(left: seq<Response>, right: seq<Response>)
    ensures Replies(left + right) == Replies(left) + Replies(right)
    decreases |right|
  {
    if right == [] {
      assert left + right == left;
      assert Replies(left) + [] == Replies(left);
    } else {
      var rest, last := right[..|right| - 1], right[|right| - 1];
      assert left + right == (left + rest) + [last];
      assert (left + right)[..|left + right| - 1] == left + rest;
      RepliesConcat(left, rest);
      if !last.Initialize? {
        Regroup(Replies(left), Replies(rest), [last]);
      }
    }
  }

  lemma {:induction false} AnswersToConcat(left: seq<Happened>, right: seq<Happened>)
    ensures AnswersTo(left + right) == AnswersTo(left) + AnswersTo(right)
    decreases |right|
  {
    if right == [] {
      assert left + right == left;
      assert AnswersTo(left) + [] == AnswersTo(left);
    } else {
      var rest, last := right[..|right| - 1], right[|right| - 1];
      assert left + right == (left + rest) + [last];
      assert (left + right)[..|left + right| - 1] == left + rest;
      AnswersToConcat(left, rest);
      Regroup(AnswersTo(left), AnswersTo(rest), [Answer(last)]);
    }
  }

  // -------------------------------------------------------------------------
  // The wire back carries exactly the answers
  // -------------------------------------------------------------------------

  /** What was delivered and what is on the way, in the order the server sent it. */
  function SentBack(s: System): seq<Response> {
    s.delivered + s.toClient
  }

  lemma Appended(s: System, s': System, more: seq<Response>)
    requires s'.delivered == s.delivered && s'.toClient == s.toClient + more
    ensures Replies(SentBack(s')) == Replies(SentBack(s)) + Replies(more)
  {
    assert SentBack(s') == SentBack(s) + more;
    RepliesConcat(SentBack(s), more);
  }

  lemma OneReply(response: Response)
    ensures Replies([response]) == if response.Initialize? then [] else [response]
    ensures Replies([]) == []
  {
    assert [response][..0] == [];
  }

  lemma OneAnswer(h: Happened)
    ensures AnswersTo([h]) == [Answer(h)] && AnswersTo([]) == []
  {
    assert [h][..0] == [];
  }

  lemma OneMore(s: System, step: Step)
    requires Enabled(s, step)
    ensures Replies(SentBack(Next(s, step))) == Replies(SentBack(s)) + AnswersTo(HappensAt(s, step))
  {
    hide Replies, AnswersTo, OnRequest, Flush, OnResponse, Invoke, Subscribe, Deferred, Cancel, DisposeClient, DisposeServer, Register;
    var s' := Next(s, step);
    OneAnswer(TimedOut(PromiseCancel(0)));
    OneReply(Initialize);
    assert Replies(SentBack(s)) + [] == Replies(SentBack(s));
    match step
    case Deliver => assert SentBack(s') == SentBack(s);
    case DoComplete(i, outcome) =>
      var h := Gave(s.server.running[i], outcome);
      OneAnswer(h);
      OneReply(Answer(h));
      Appended(s, s', [Answer(h)]);
    case DoTimeout(channel, i) =>
      var h := TimedOut(s.server.parked[channel][i].request);
      OneAnswer(h);
      OneReply(Answer(h));
      Appended(s, s', if h.request.Call? then [Answer(h)] else []);
    case DoFire(i, data) =>
      var h := Fired(s.server.listening[i], data);
      OneAnswer(h);
      OneReply(Answer(h));
      Appended(s, s', [Answer(h)]);
    case Ready => Appended(s, s', [Initialize]);
    case _ => Appended(s, s', []);
  }

  lemma {:induction false} RepliesAreAnswers(s: System, steps: seq<Step>)
    ensures Replies(SentBack(Run(s, steps))) == Replies(SentBack(s)) + AnswersTo(History(s, steps))
    decreases |steps|
  {
    hide Replies, AnswersTo, Enabled, Next, SentBack, HappensAt;
    if steps == [] {
      OneAnswer(TimedOut(PromiseCancel(0)));
      assert Replies(SentBack(s)) + [] == Replies(SentBack(s));
    } else {
      var s' := if Enabled(s, steps[0]) then Next(s, steps[0]) else s;
      var here, later := HappensAt(s, steps[0]), History(s', steps[1..]);
      if Enabled(s, steps[0]) {
        OneMore(s, steps[0]);
      } else {
        NothingHappens(s, steps[0]);
      }
      RepliesAreAnswers(s', steps[1..]);
      AnswersToConcat(here, later);
      Regroup(Replies(SentBack(s)), AnswersTo(here), AnswersTo(later));
    }
  }

  lemma NothingHappens(s: System, step: Step)
    requires !Enabled(s, step)
    ensures Replies(SentBack(s)) == Replies(SentBack(s)) + AnswersTo(HappensAt(s, step))
  {
    hide Replies;
    OneAnswer(TimedOut(PromiseCancel(0)));
  }

  // -------------------------------------------------------------------------
  // The client settles with the first answer delivered
  // -------------------------------------------------------------------------

  /** The first answer to a call among some responses. */
  function FirstAnswer(responses: seq<Response>, id: nat): Option<Response> {
    if responses == [] then None
    else
      var before, last := FirstAnswer(responses[..|responses| - 1], id), responses[|responses| - 1];
      if before.Some? then before else if last.PromiseResult? && last.id == id then Some(last) else None
  }

  lemma FirstAnswerSnoc(responses: seq<Response>, last: Response, id: nat)
    ensures FirstAnswer(responses + [last], id) ==
      if FirstAnswer(responses, id).Some? then FirstAnswer(responses, id)
      else if last.PromiseResult? && last.id == id then Some(last) else None
  {
    assert (responses + [last])[..|responses|] == responses;
  }

  lemma {:induction false} FirstAnswerIn(responses: seq<Response>, id: nat)
    ensures FirstAnswer(responses, id).Some? ==>
      FirstAnswer(responses, id).value in responses
      && FirstAnswer(responses, id).value.PromiseResult? && FirstAnswer(responses, id).value.id == id
  {
    if responses != [] {
      FirstAnswerIn(responses[..|responses| - 1], id);
    }
  }

  /** Every settlement by a response used the first answer that was delivered. */
  predicate FirstSettles(s: System) {
    forall k :: 0 <= k < |s.client.settled| && s.client.settled[k].means.ByResponse? ==>
      FirstAnswer(s.delivered, s.client.settled[k].id) == Some(s.client.settled[k].means.response)
  }

  lemma {:induction false} RejectAllSettles(c: Client, ids: seq<nat>)
    ensures var settled := RejectAll(c, ids).settled;
      && c.settled <= settled
      && (forall k :: |c.settled| <= k < |settled| ==> settled[k].means.ByDispose?)
    ensures RejectAll(c, ids).heard == c.heard
    decreases |ids|
  {
    if ids != [] {
      RejectAllSettles(Settle(c, ids[0], ByDispose), ids[1..]);
    }
  }

  /** What a delivery does: an answer to a pending call settles it, and nothing else settles anything. */
  lemma OneResponse(c: Client, response: Response)
    requires ClientOk(c) && ResponseOk(response, c.asked)
    requires response.PromiseResult? ==> response.id !in c.waiting
    ensures OnResponse(c, response).settled == c.settled +
      if response.PromiseResult? && response.id in c.pending
      then [Channels.Settlement.Settlement(response.id, ByResponse(response))] else []
  {
    hide Distinct, OncePerId, SettledIds, GoodMeans, SettledOk, AllAccounted;
  }

  lemma NoneYet(s: System, id: nat)
    requires Timely(s) && id in s.client.pending
    ensures FirstAnswer(s.delivered, id).None?
  {
    FirstAnswerIn(s.delivered, id);
    hide FirstAnswer;
  }

  lemma DeliverSettlesFirst(s: System)
    requires Inv(s) && Timely(s) && FirstSettles(s) && Enabled(s, Deliver)
    ensures FirstSettles(Next(s, Deliver))
  {
    var response, s' := s.toClient[0], Next(s, Deliver);
    assert response in s.toClient;
    assert ResponseOk(response, s.client.asked);
    OneResponse(s.client, response);
    hide Inv, ClientOk, FirstAnswer, OnResponse;
    forall k | 0 <= k < |s'.client.settled| && s'.client.settled[k].means.ByResponse?
      ensures FirstAnswer(s'.delivered, s'.client.settled[k].id) == Some(s'.client.settled[k].means.response)
    {
      FirstAnswerSnoc(s.delivered, response, s'.client.settled[k].id);
      if k == |s.client.settled| {
        NoneYet(s, response.id);
      }
    }
  }

  lemma RedeliverSettlesNothing(s: System, k: nat)
    requires Inv(s) && Timely(s) && Enabled(s, Redeliver(k))
    ensures Next(s, Redeliver(k)).client.settled == s.client.settled
  {
    assert s.delivered[k] in s.delivered;
    hide Distinct, OncePerId, SettledIds, GoodMeans, SettledOk, AllAccounted, ServerOk, NobodyOrphaned;
  }

  lemma ClientStepsSettle(s: System, step: Step)
    requires FirstSettles(s) && Enabled(s, step)
    requires step.DoInvoke? || step.DoSubscribe? || step.DoUnsubscribe? || step.DoDeferred? || step.DoCancel? || step.DoDisposeClient?
    ensures FirstSettles(Next(s, step))
  {
    hide FirstAnswer;
    match step
    case DoInvoke(_, _, _, _) =>
    case DoCancel(_) =>
    case DoDisposeClient =>
      RejectAllSettles(s.client.(disposed := true), s.client.pending);
      hide RejectAll;
    case _ =>
  }

  lemma StepSettlesFirst(s: System, step: Step)
    requires Inv(s) && Timely(s) && FirstSettles(s) && Enabled(s, step)
    ensures FirstSettles(Next(s, step))
  {
    hide Inv, Timely, FirstAnswer;
    match step
    case Deliver => DeliverSettlesFirst(s);
    case Redeliver(k) => RedeliverSettlesNothing(s, k);
    case Take =>
    case Retake(_) =>
    case DoFlush(_) =>
    case DoRegister(_) =>
    case DoDisposeServer =>
    case DoTimeout(_, _) =>
    case DoComplete(_, _) =>
    case DoFire(_, _) =>
    case Ready =>
    case _ => ClientStepsSettle(s, step);
  }

  lemma {:induction false} RunSettlesFirst(s: System, steps: seq<Step>)
    requires Inv(s) && Timely(s) && FirstSettles(s)
    ensures var s' := Run(s, steps); Inv(s') && FirstSettles(s')
    decreases |steps|
  {
    if steps != [] {
      hide Inv, Timely, FirstSettles, Next, Enabled;
      if Enabled(s, steps[0]) {
        StepKeeps(s, steps[0]);
        StepTimely(s, steps[0]);
        StepSettlesFirst(s, steps[0]);
        RunSettlesFirst(Next(s, steps[0]), steps[1..]);
      } else {
        RunSettlesFirst(s, steps[1..]);
      }
    }
  }

  // -------------------------------------------------------------------------
  // Over every run
  // -------------------------------------------------------------------------

  lemma {:induction false} InReplies(responses: seq<Response>, response: Response)
    requires response in responses && !response.Initialize?
    ensures response in Replies(responses)
  {
    var before, last := responses[..|responses| - 1], responses[|responses| - 1];
    if response in before {
      InReplies(before, response);
    }
  }

  lemma {:induction false} AnsweredFor(history: seq<Happened>, response: Response) returns (h: Happened)
    requires response in AnswersTo(history)
    ensures h in history && Answer(h) == response
  {
    var before, last := history[..|history| - 1], history[|history| - 1];
    if response in AnswersTo(before) {
      h := AnsweredFor(before, response);
    } else {
      h := last;
    }
  }

  lemma StartSendsNothing()
    ensures Replies(SentBack(START)) == []
  {
    OneReply(Initialize);
    assert SentBack(START) == [];
  }

  /** What was delivered to the client happened. */
  lemma DeliveredHappened(steps: seq<Step>, response: Response) returns (h: Happened)
    requires response in Run(START, steps).delivered && !response.Initialize?
    ensures h in History(START, steps) && Answer(h) == response
  {
    hide Run, Replies, AnswersTo, History;
    var s := Run(START, steps);
    RepliesAreAnswers(START, steps);
    StartSendsNothing();
    assert response in SentBack(s);
    InReplies(SentBack(s), response);
    assert [] + AnswersTo(History(START, steps)) == AnswersTo(History(START, steps));
    h := AnsweredFor(History(START, steps), response);
  }

  /**
   Over every run, whatever is delivered again: all the server sends are the completions, timeouts and
   events of the run, in order; and a call settled by a response got what a completion of its own
   request was given, or the timeout's error if its request timed out, and of several the first that
   was delivered.
   */
  lemma OutcomesAreGiven(steps: seq<Step>)
    ensures var s, history := Run(START, steps), History(START, steps);
      && Replies(s.delivered + s.toClient) == AnswersTo(history)
      && forall k :: 0 <= k < |s.client.settled| && s.client.settled[k].means.ByResponse? ==>
           var id, response := s.client.settled[k].id, s.client.settled[k].means.response;
           && FirstAnswer(s.delivered, id) == Some(response)
           && id in s.client.asked && s.client.asked[id].Call? && response.PromiseResult?
           && (|| Gave(s.client.asked[id], response.outcome) in history
               || (response.outcome == UNKNOWN_CHANNEL && TimedOut(s.client.asked[id]) in history))
  {
    var s, history := Run(START, steps), History(START, steps);
    Reachable([]);
    RunSettlesFirst(START, steps);
    RepliesAreAnswers(START, steps);
    StartSendsNothing();
    assert [] + AnswersTo(history) == AnswersTo(history);
    hide Run, Replies, AnswersTo, History, FirstAnswer, ClientOk;
    forall k | 0 <= k < |s.client.settled| && s.client.settled[k].means.ByResponse?
      ensures var id, response := s.client.settled[k].id, s.client.settled[k].means.response;
        && FirstAnswer(s.delivered, id) == Some(response)
        && id in s.client.asked && s.client.asked[id].Call? && response.PromiseResult?
        && (|| Gave(s.client.asked[id], response.outcome) in history
            || (response.outcome == UNKNOWN_CHANNEL && TimedOut(s.client.asked[id]) in history))
    {
      var id, response := s.client.settled[k].id, s.client.settled[k].means.response;
      FirstAnswerIn(s.delivered, id);
      assert response in s.delivered;
      assert ResponseOk(response, s.client.asked);
      var h := DeliveredHappened(steps, response);
    }
  }

  // -------------------------------------------------------------------------
  // Events
  // -------------------------------------------------------------------------

  /** Who listens, by id: from the subscription on until it is given up. */
  function ListenersAfter(s: System, step: Step, on: set<nat>): set<nat> {
    if !Enabled(s, step) then on
    else if step.DoSubscribe? then on + {s.client.nextId}
    else if step.DoUnsubscribe? then on - {step.id}
    else on
  }

  /** What a step delivers to those who listen. */
  function HearsAt(s: System, step: Step, on: set<nat>): seq<Heard> {
    if !Enabled(s, step) || !(step.Deliver? || step.Redeliver?) then []
    else
      var response := if step.Deliver? then s.toClient[0] else s.delivered[step.index];
      if response.EventFire? && response.id in on then [Heard(response.id, response.data)] else []
  }

  function Hears(s: System, steps: seq<Step>, on: set<nat>): seq<Heard>
    decreases |steps|
  {
    if steps == [] then []
    else
      var next := if Enabled(s, steps[0]) then Next(s, steps[0]) else s;
      HearsAt(s, steps[0], on) + Hears(next, steps[1..], ListenersAfter(s, steps[0], on))
  }

  ghost predicate AreListeners(c: Client, on: set<nat>) {
    forall id :: id in on <==> id in c.handlers && c.handlers[id].ForEvent?
  }

  lemma OnlyCallsSettle(c: Client, id: nat, means: Means, on: set<nat>)
    requires ClientCore(c) && AreListeners(c, on) && id in c.pending
    ensures AreListeners(Settle(c, id, means), on) && Settle(c, id, means).heard == c.heard
  {
    hide Distinct, OncePerId, SettledIds, GoodMeans, SettledOk, AllAccounted;
  }

  lemma {:induction false} RejectAllKeepsListeners(c: Client, on: set<nat>)
    requires ClientCore(c) && c.disposed && AreListeners(c, on)
    ensures AreListeners(RejectAll(c, c.pending), on) && RejectAll(c, c.pending).heard == c.heard
    decreases |c.pending|
  {
    if c.pending != [] {
      RemoveFirst(c.pending);
      OnlyCallsSettle(c, c.pending[0], ByDispose, on);
      SettleKeeps(c, c.pending[0], ByDispose);
      hide AreListeners, ClientCore;
      RejectAllKeepsListeners(Settle(c, c.pending[0], ByDispose), on);
    }
  }

  lemma ResponseIsHeard(c: Client, response: Response, on: set<nat>)
    requires ClientOk(c) && AreListeners(c, on) && ResponseOk(response, c.asked)
    ensures var c' := OnResponse(c, response);
      && AreListeners(c', on)
      && c'.heard == c.heard + if response.EventFire? && response.id in on then [Heard(response.id, response.data)] else []
  {
    hide Distinct, OncePerId, SettledIds, GoodMeans, SettledOk, AllAccounted;
  }

  lemma ClientStepsListen(s: System, step: Step, on: set<nat>)
    requires ClientOk(s.client) && AreListeners(s.client, on) && Enabled(s, step)
    requires step.DoInvoke? || step.DoSubscribe? || step.DoUnsubscribe? || step.DoDeferred? || step.DoCancel? || step.DoDisposeClient?
    ensures AreListeners(Next(s, step).client, ListenersAfter(s, step, on)) && Next(s, step).client.heard == s.client.heard
  {
    if step.DoCancel? && step.id in s.client.pending {
      OnlyCallsSettle(s.client, step.id, ByCancel, on);
    }
    if step.DoDisposeClient? && !s.client.disposed {
      RejectAllKeepsListeners(s.client.(disposed := true), on);
    }
    hide Distinct, OncePerId, SettledIds, GoodMeans, SettledOk, AllAccounted, RejectAll, PendingOk;
  }

  lemma StepListens(s: System, step: Step, on: set<nat>)
    requires Inv(s) && AreListeners(s.client, on) && Enabled(s, step)
    ensures AreListeners(Next(s, step).client, ListenersAfter(s, step, on))
    ensures Next(s, step).client.heard == s.client.heard + HearsAt(s, step, on)
  {
    hide ClientOk, ServerOk, NobodyOrphaned, AreListeners, OnResponse;
    match step
    case Deliver =>
      assert s.toClient[0] in s.toClient;
      ResponseIsHeard(s.client, s.toClient[0], on);
    case Redeliver(k) =>
      assert s.delivered[k] in s.delivered;
      ResponseIsHeard(s.client, s.delivered[k], on);
    case DoInvoke(_, _, _, _) => ClientStepsListen(s, step, on);
    case DoSubscribe(_, _, _) => ClientStepsListen(s, step, on);
    case DoUnsubscribe(_) => ClientStepsListen(s, step, on);
    case DoDeferred(_) => ClientStepsListen(s, step, on);
    case DoCancel(_) => ClientStepsListen(s, step, on);
    case DoDisposeClient => ClientStepsListen(s, step, on);
    case _ =>
  }

  lemma {:induction false} RunListens(s: System, steps: seq<Step>, on: set<nat>)
    requires Inv(s) && AreListeners(s.client, on)
    ensures Run(s, steps).client.heard == s.client.heard + Hears(s, steps, on)
    decreases |steps|
  {
    hide Inv, AreListeners, Next, Enabled, HearsAt, ListenersAfter;
    if steps == [] {
      assert s.client.heard + [] == s.client.heard;
    } else {
      var step, rest := steps[0], steps[1..];
      var s' := if Enabled(s, step) then Next(s, step) else s;
      if Enabled(s, step) {
        StepKeeps(s, step);
        StepListens(s, step, on);
      } else {
        NothingHeard(s, step, on);
      }
      RunListens(s', rest, ListenersAfter(s, step, on));
      Regroup(s.client.heard, HearsAt(s, step, on), Hears(s', rest, ListenersAfter(s, step, on)));
    }
  }

  lemma NothingHeard(s: System, step: Step, on: set<nat>)
    requires !Enabled(s, step)
    ensures ListenersAfter(s, step, on) == on && s.client.heard + HearsAt(s, step, on) == s.client.heard
  {
  }

  lemma {:induction false} HeardWasDelivered(s: System, steps: seq<Step>, on: set<nat>, heard: Heard) returns (response: Response)
    requires heard in Hears(s, steps, on)
    ensures response in Run(s, steps).delivered && response.EventFire? && response.id == heard.id && response.data == heard.data
    decreases |steps|
  {
    var step, rest := steps[0], steps[1..];
    var s' := if Enabled(s, step) then Next(s, step) else s;
    if heard in HearsAt(s, step, on) {
      response := if step.Deliver? then s.toClient[0] else s.delivered[step.index];
      assert response in s'.delivered by {
        if step.Deliver? { assert s'.delivered[|s.delivered|] == response; }
      }
      DeliveredStays(s', rest, response);
    } else {
      response := HeardWasDelivered(s', rest, ListenersAfter(s, step, on), heard);
    }
  }

  lemma {:induction false} DeliveredStays(s: System, steps: seq<Step>, response: Response)
    requires response in s.delivered
    ensures response in Run(s, steps).delivered
    decreases |steps|
  {
    if steps != [] {
      var s' := if Enabled(s, steps[0]) then Next(s, steps[0]) else s;
      assert s.delivered <= s'.delivered;
      hide Next, Enabled;
      DeliveredStays(s', steps[1..], response);
    }
  }

  /**
   Over every run: what listeners hear is what is delivered for their subscription while they listen,
   in order; and all of it was fired for that very subscription.
   */
  lemma HeardIsFired(steps: seq<Step>)
    ensures var s, history := Run(START, steps), History(START, steps);
      && s.client.heard == Hears(START, steps, {})
      && forall heard :: heard in s.client.heard ==>
           heard.id in s.client.asked && s.client.asked[heard.id].Listen? && Fired(s.client.asked[heard.id], heard.data) in history
  {
    hide Run, History, Hears, Inv, AreListeners;
    var s, history := Run(START, steps), History(START, steps);
    Reachable(steps);
    HeardFromTheStart(steps);
    forall heard | heard in s.client.heard
      ensures heard.id in s.client.asked && s.client.asked[heard.id].Listen? && Fired(s.client.asked[heard.id], heard.data) in history
    {
      var response := HeardWasDelivered(START, steps, {}, heard);
      DeliveredIsOk(s, response);
      var h := DeliveredHappened(steps, response);
    }
  }

  lemma HeardFromTheStart(steps: seq<Step>)
    ensures Run(START, steps).client.heard == Hears(START, steps, {})
  {
    Reachable([]);
    RunListens(START, steps, {});
    assert [] + Hears(START, steps, {}) == Hears(START, steps, {});
    hide Run, Hears;
  }

  lemma DeliveredIsOk(s: System, response: Response)
    requires Inv(s) && response in s.delivered
    ensures ResponseOk(response, s.client.asked)
  {
    hide ClientOk, ServerOk, NobodyOrphaned;
  }

  // -------------------------------------------------------------------------
  // Every call handed to a channel is answered once
  // -------------------------------------------------------------------------

  /** How often a call was completed. */
  function Completions(history: seq<Happened>, r: Request): nat {
    if history == [] then 0
    else
      var last := history[|history| - 1];
      Completions(history[..|history| - 1], r) + if last.Gave? && last.request == r then 1 else 0
  }

  lemma {:induction false} CompletionsConcat(left: seq<Happened>, right: seq<Happened>, r: Request)
    ensures Completions(left + right, r) == Completions(left, r) + Completions(right, r)
    decreases |right|
  {
    if right == [] {
      assert left + right == left;
    } else {
      assert (left + right)[..|left + right| - 1] == left + right[..|right| - 1];
      CompletionsConcat(left, right[..|right| - 1], r);
    }
  }

  /** Calls handed over and not running, less those of the state before. */
  predicate Balanced(v: Server, v': Server, r: Request, completed: nat) {
    multiset(v'.invoked)[r] + multiset(v.running)[r] == multiset(v.invoked)[r] + multiset(v'.running)[r] + completed
  }

  lemma OpenBalances(v: Server, request: Request, r: Request)
    requires request.Opens() && r.Call?
    ensures Balanced(v, Open(v, request), r, 0)
  {
    assert multiset(v.invoked + [request]) == multiset(v.invoked) + multiset{request};
    assert multiset(v.running + [request]) == multiset(v.running) + multiset{request};
  }

  lemma {:induction false} HandOverAllBalances(v: Server, requests: seq<Parked>, r: Request)
    requires r.Call? && forall i :: 0 <= i < |requests| ==> requests[i].request.Opens()
    ensures Balanced(v, HandOverAll(v, requests), r, 0)
    decreases |requests|
  {
    if requests != [] {
      OpenBalances(v, requests[0].request, r);
      hide Open;
      HandOverAllBalances(Open(v, requests[0].request), requests[1..], r);
    }
  }

  lemma CompleteBalances(v: Server, i: nat, outcome: Outcome, r: Request)
    requires i < |v.running|
    ensures Balanced(v, Complete(v, i, outcome).0, r, if v.running[i] == r then 1 else 0)
  {
    assert v.running == v.running[..i] + [v.running[i]] + v.running[i + 1..];
  }

  lemma OneCompletion(h: Happened, r: Request)
    ensures Completions([h], r) == (if h.Gave? && h.request == r then 1 else 0) && Completions([], r) == 0
  {
    assert [h][..0] == [];
  }

  lemma StepBalances(s: System, step: Step, r: Request)
    requires Enabled(s, step) && r.Call?
    ensures Balanced(s.server, Next(s, step).server, r, Completions(HappensAt(s, step), r))
  {
    hide Open, Balanced, Completions, Complete;
    OneCompletion(TimedOut(r), r);
    var v' := Next(s, step).server;
    match step
    case Take => RequestBalances(s.server, s.toServer[0], r);
    case Retake(k) => RequestBalances(s.server, s.taken[k], r);
    case DoFlush(channel) =>
      HandOverAllBalances(s.server, ParkedFor(s.server, channel), r);
      SameCalls(s.server, HandOverAll(s.server, ParkedFor(s.server, channel)), v', r);
    case DoComplete(i, outcome) =>
      OneCompletion(Gave(s.server.running[i], outcome), r);
      CompleteBalances(s.server, i, outcome, r);
    case DoTimeout(channel, i) =>
      OneCompletion(TimedOut(s.server.parked[channel][i].request), r);
      Unchanged(s.server, v', r);
    case DoFire(i, data) =>
      OneCompletion(Fired(s.server.listening[i], data), r);
      Unchanged(s.server, v', r);
    case _ => Unchanged(s.server, v', r);
  }

  lemma Unchanged(v: Server, v': Server, r: Request)
    requires v'.invoked == v.invoked && v'.running == v.running
    ensures Balanced(v, v', r, 0)
  {
  }

  lemma SameCalls(v: Server, v': Server, v'': Server, r: Request)
    requires Balanced(v, v', r, 0) && v''.invoked == v'.invoked && v''.running == v'.running
    ensures Balanced(v, v'', r, 0)
  {
  }

  lemma RequestBalances(v: Server, request: Request, r: Request)
    requires r.Call?
    ensures Balanced(v, OnRequest(v, request), r, 0)
  {
    if request.Opens() {
      OpenBalances(v, request, r);
    }
  }

  lemma {:induction false} RunBalances(s: System, steps: seq<Step>, r: Request)
    requires r.Call?
    ensures Balanced(s.server, Run(s, steps).server, r, Completions(History(s, steps), r))
    decreases |steps|
  {
    hide Next, Enabled, HappensAt;
    if steps != [] {
      var s' := if Enabled(s, steps[0]) then Next(s, steps[0]) else s;
      if Enabled(s, steps[0]) {
        StepBalances(s, steps[0], r);
      } else {
        NotHappening(s, steps[0], r);
      }
      RunBalances(s', steps[1..], r);
      CompletionsConcat(HappensAt(s, steps[0]), History(s', steps[1..]), r);
    }
  }

  lemma NotHappening(s: System, step: Step, r: Request)
    requires !Enabled(s, step)
    ensures Completions(HappensAt(s, step), r) == 0
  {
  }

  /** Over every run a call is running as often as it was handed to its channel and has not been completed. */
  lemma CompletedOncePerInvocation(steps: seq<Step>, r: Request)
    requires r.Call?
    ensures var v := Run(START, steps).server;
      multiset(v.invoked)[r] == multiset(v.running)[r] + Completions(History(START, steps), r)
  {
    RunBalances(START, steps, r);
    hide Run, History;
  }

  // -------------------------------------------------------------------------
  // What lasts
  // -------------------------------------------------------------------------

  lemma {:induction false} HandOverAllKeepsFlags(v: Server, requests: seq<Parked>)
    requires forall i :: 0 <= i < |requests| ==> requests[i].request.Opens()
    ensures HandOverAll(v, requests).disposed == v.disposed && HandOverAll(v, requests).channels == v.channels
    decreases |requests|
  {
    if requests != [] {
      HandOverAllKeepsFlags(Open(v, requests[0].request), requests[1..]);
    }
  }

  lemma {:induction false} RejectAllKeepsFlags(c: Client, ids: seq<nat>)
    ensures RejectAll(c, ids).disposed == c.disposed && RejectAll(c, ids).initialized == c.initialized
    decreases |ids|
  {
    if ids != [] {
      RejectAllKeepsFlags(Settle(c, ids[0], ByDispose), ids[1..]);
    }
  }

  lemma StepFlags(s: System, step: Step)
    requires Enabled(s, step)
    ensures var s' := Next(s, step);
      && s'.server.disposed == (s.server.disposed || step.DoDisposeServer?)
      && s'.client.disposed == (s.client.disposed || step.DoDisposeClient?)
      && s'.server.channels == s.server.channels + (if step.DoRegister? then {step.channel} else {})
      && (s'.client.initialized <==>
            || s.client.initialized
            || (step.Deliver? && s.toClient[0].Initialize?)
            || (step.Redeliver? && s.delivered[step.index].Initialize?))
  {
    if step.DoFlush? {
      HandOverAllKeepsFlags(s.server, ParkedFor(s.server, step.channel));
    }
    if step.DoDisposeClient? {
      RejectAllKeepsFlags(s.client.(disposed := true), s.client.pending);
    }
    hide HandOverAll, RejectAll, Unlistened, AllUnlistened;
  }

  lemma {:induction false} RunFlags(s: System, steps: seq<Step>)
    requires s.client.initialized <==> Initialize in s.delivered
    ensures var s' := Run(s, steps);
      && (s'.server.disposed <==> s.server.disposed || DoDisposeServer in steps)
      && (s'.client.disposed <==> s.client.disposed || DoDisposeClient in steps)
      && (forall channel :: channel in s'.server.channels <==> channel in s.server.channels || DoRegister(channel) in steps)
      && (s'.client.initialized <==> Initialize in s'.delivered)
    decreases |steps|
  {
    if steps != [] {
      var step, s' := steps[0], if Enabled(s, steps[0]) then Next(s, steps[0]) else s;
      assert steps == [step] + steps[1..];
      if Enabled(s, step) {
        StepFlags(s, step);
        DeliveredGrows(s, step);
      } else {
        assert step.DoDisposeServer? || step.DoDisposeClient? || step.DoRegister? ==> Enabled(s, step);
      }
      hide Next, Enabled;
      RunFlags(s', steps[1..]);
    }
  }

  lemma DeliveredGrows(s: System, step: Step)
    requires Enabled(s, step)
    ensures Next(s, step).delivered == s.delivered + (if step.Deliver? then [s.toClient[0]] else [])
  {
    hide OnResponse, OnRequest, Flush, DisposeClient, DisposeServer;
  }

  /** Each end is disposed exactly if it was told to, a channel there exactly if it was registered, and the client ready exactly if it was told so. */
  lemma FlagsAreWhatHappened(steps: seq<Step>)
    ensures var s := Run(START, steps);
      && (s.server.disposed <==> DoDisposeServer in steps)
      && (s.client.disposed <==> DoDisposeClient in steps)
      && (forall channel :: channel in s.server.channels <==> DoRegister(channel) in steps)
      && (s.client.initialized <==> Initialize in s.delivered)
  {
    RunFlags(START, steps);
  }

  // -------------------------------------------------------------------------
  // Every subscription is sent
  // -------------------------------------------------------------------------

  /** A subscription asked for waits for the server to be ready, or is on the wire, or has been taken. */
  predicate SubscriptionsSent(s: System) {
    forall id :: id in s.client.asked && s.client.asked[id].Listen? ==>
      id in s.client.waiting || s.client.asked[id] in s.toServer || s.client.asked[id] in s.taken
  }

  lemma ClientStepSends(s: System, step: Step)
    requires Inv(s) && SubscriptionsSent(s) && Enabled(s, step)
    requires step.DoInvoke? || step.DoSubscribe? || step.DoUnsubscribe? || step.DoDeferred? || step.DoCancel?
    ensures SubscriptionsSent(Next(s, step))
  {
    hide Distinct, OncePerId, SettledIds, GoodMeans, SettledOk, AllAccounted, ServerOk, WireOk, NobodyOrphaned, HandlersOk, PendingOk;
  }

  lemma StepSends(s: System, step: Step)
    requires Inv(s) && SubscriptionsSent(s) && Enabled(s, step)
    ensures SubscriptionsSent(Next(s, step))
  {
    match step
    case DoInvoke(_, _, _, _) => ClientStepSends(s, step);
    case DoSubscribe(_, _, _) => ClientStepSends(s, step);
    case DoUnsubscribe(_) => ClientStepSends(s, step);
    case DoDeferred(_) => ClientStepSends(s, step);
    case DoCancel(_) => ClientStepSends(s, step);
    case Take =>
      hide Inv, OnRequest;
      assert s.toServer == [s.toServer[0]] + s.toServer[1..];
    case DoDisposeClient =>
      DisposeKeeps(s.client);
      hide Inv, RejectAll, ClientOk;
    case Deliver => ResponseKeepsAsked(s.client, s.toClient[0]);
      hide Inv, OnResponse;
    case Redeliver(k) => ResponseKeepsAsked(s.client, s.delivered[k]);
      hide Inv, OnResponse;
    case _ => hide Inv, OnRequest, Flush;
  }

  lemma {:induction false} RunSends(s: System, steps: seq<Step>)
    requires Inv(s) && SubscriptionsSent(s)
    ensures SubscriptionsSent(Run(s, steps))
    decreases |steps|
  {
    hide Inv, SubscriptionsSent, Next, Enabled;
    if steps != [] {
      if Enabled(s, steps[0]) {
        StepKeeps(s, steps[0]);
        StepSends(s, steps[0]);
        RunSends(Next(s, steps[0]), steps[1..]);
      } else {
        RunSends(s, steps[1..]);
      }
    }
  }

  /** Over every run no subscription is dropped on its way to the server. */
  lemma EverySubscriptionIsSent(steps: seq<Step>)
    ensures SubscriptionsSent(Run(START, steps))
  {
    Reachable([]);
    RunSends(START, steps);
  }

  // -------------------------------------------------------------------------
  // No request before the server is ready
  // -------------------------------------------------------------------------

  /** Before the client is told that the server is ready, it opens nothing. */
  predicate OpensNothingYet(s: System) {
    !s.client.initialized ==> forall r :: r in s.toServer + s.taken ==> !r.Opens()
  }

  lemma StepOpensNothing(s: System, step: Step)
    requires OpensNothingYet(s) && Enabled(s, step)
    ensures OpensNothingYet(Next(s, step))
  {
    hide OnRequest, Flush;
    match step
    case Take => assert s.toServer == [s.toServer[0]] + s.toServer[1..];
    case Deliver => hide Settle;
    case Redeliver(_) => hide Settle;
    case DoDisposeClient =>
      RejectAllKeepsFlags(s.client.(disposed := true), s.client.pending);
      hide RejectAll;
    case _ =>
  }

  lemma {:induction false} RunOpensNothing(s: System, steps: seq<Step>)
    requires OpensNothingYet(s)
    ensures OpensNothingYet(Run(s, steps))
    decreases |steps|
  {
    hide OpensNothingYet, Next, Enabled;
    if steps != [] {
      if Enabled(s, steps[0]) {
        StepOpensNothing(s, steps[0]);
        RunOpensNothing(Next(s, steps[0]), steps[1..]);
      } else {
        RunOpensNothing(s, steps[1..]);
      }
    }
  }

  /** Over every run the client opens nothing before it is told that the server is ready; once told, it holds no new request back. */
  lemma RequestsWaitForReady(steps: seq<Step>, step: Step)
    ensures var s := Run(START, steps);
      && OpensNothingYet(s)
      && (Enabled(s, step) && s.client.initialized ==> Next(s, step).client.waiting <= s.client.waiting)
  {
    RunOpensNothing(START, steps);
    var s := Run(START, steps);
    hide Run;
    if Enabled(s, step) && s.client.initialized {
      NothingHeldBack(s, step);
    }
  }

  lemma NothingHeldBack(s: System, step: Step)
    requires Enabled(s, step) && s.client.initialized
    ensures Next(s, step).client.waiting <= s.client.waiting
  {
    hide OnRequest, Flush;
    if step.DoDisposeClient? {
      RejectAllWaits(s.client.(disposed := true), s.client.pending);
      hide RejectAll;
    }
  }

  lemma {:induction false} RejectAllWaits(c: Client, ids: seq<nat>)
    ensures RejectAll(c, ids).waiting == c.waiting
    decreases |ids|
  {
    if ids != [] {
      RejectAllWaits(Settle(c, ids[0], ByDispose), ids[1..]);
    }
  }
}
