/**
 When a subscription fires: from the moment it is handed to its channel until the server, having it,
 takes its disposal, or is itself disposed. Handed over again, it fires more often than disposals end.
 */
module Subscriptions {
  import opened Channels
  import opened Settled = Settlement
  import opened Once = InvokedOnce

  function HandedOver(v: Server): set<nat> {
    set r | r in v.invoked :: r.id
  }

  /** A disposal ends what the server has handed over by then; one that comes earlier is lost. */
  function EndedBy(v: Server, request: Request): set<nat> {
    if request.Opens() then {} else {request.id} * HandedOver(v)
  }

  function EndsAt(s: System, step: Step): set<nat> {
    if !Enabled(s, step) then {}
    else
      match step
      case Take => EndedBy(s.server, s.toServer[0])
      case Retake(k) => EndedBy(s.server, s.taken[k])
      case DoDisposeServer => HandedOver(s.server)
      case _ => {}
  }

  /** The ids ended in a run. */
  function Ended(s: System, steps: seq<Step>): set<nat>
    decreases |steps|
  {
    if steps == [] then {}
    else EndsAt(s, steps[0]) + Ended(if Enabled(s, steps[0]) then Next(s, steps[0]) else s, steps[1..])
  }

  predicate DistinctIds(requests: seq<Request>) {
    forall i, j :: 0 <= i < j < |requests| ==> requests[i].id != requests[j].id
  }

  /** The server fires for what was handed over and not ended, each once and under an active id. */
  ghost predicate Listens(v: Server, ended: set<nat>) {
    && (forall r :: r in v.listening <==> r in v.invoked && r.Listen? && r.id !in ended)
    && DistinctIds(v.listening)
    && (forall r :: r in v.listening ==> r.id in v.active)
    && ended <= HandedOver(v)
  }

  // -------------------------------------------------------------------------
  // What the server does
  // -------------------------------------------------------------------------

  lemma HandOverListens(v: Server, request: Request, ended: set<nat>)
    requires Listens(v, ended) && request.Opens() && request.id !in HandedOver(v)
    ensures Listens(HandOver(v, request), ended)
    ensures HandedOver(HandOver(v, request)) == HandedOver(v) + {request.id}
  {
    var v' := HandOver(v, request);
    assert v'.invoked[|v.invoked|] == request;
    forall r | r in v.listening ensures r.id != request.id {
      assert r in v.invoked;
    }
    assert forall r :: r in v'.invoked <==> r in v.invoked || r == request;
    if request.Listen? {
      assert v'.listening[|v.listening|] == request;
      assert forall r :: r in v'.listening <==> r in v.listening || r == request;
    }
  }

  lemma {:induction false} HandOverAllListens(v: Server, requests: seq<Parked>, ended: set<nat>)
    requires Listens(v, ended)
    requires forall i :: 0 <= i < |requests| ==> requests[i].request.Opens() && requests[i].request.channel in v.channels
    requires forall i :: 0 <= i < |requests| ==> requests[i].request.id !in HandedOver(v)
    requires DistinctIds(Requests(requests))
    ensures Listens(HandOverAll(v, requests), ended)
    decreases |requests|
  {
    if requests != [] {
      HandOverListens(v, requests[0].request, ended);
      assert Requests(requests)[1..] == Requests(requests[1..]);
      hide Listens, HandedOver;
      HandOverAllListens(Open(v, requests[0].request), requests[1..], ended);
    }
  }

  lemma {:induction false} UnlistenedExactly(listening: seq<Request>, id: nat)
    requires DistinctIds(listening)
    ensures DistinctIds(Unlistened(listening, id))
    ensures forall r :: r in Unlistened(listening, id) <==> r in listening && r.id != id
  {
    if listening != [] {
      var before, last := listening[..|listening| - 1], listening[|listening| - 1];
      UnlistenedExactly(before, id);
      assert forall r :: r in listening <==> r in before || r == last;
      if last.id != id {
        var rest := Unlistened(before, id);
        forall i | 0 <= i < |rest| ensures rest[i].id != last.id {
          assert rest[i] in before;
        }
      }
    }
  }

  lemma DisposeListens(v: Server, request: Request, ended: set<nat>)
    requires Listens(v, ended) && !request.Opens()
    ensures Listens(DisposeActive(v, request.id), ended + EndedBy(v, request))
  {
    var id, v' := request.id, DisposeActive(v, request.id);
    UnlistenedExactly(v.listening, id);
    hide Unlistened;
    forall r ensures r in v'.listening <==> r in v'.invoked && r.Listen? && r.id !in ended + EndedBy(v, request) {
      if r in v.invoked && r.id == id {
        assert id in HandedOver(v);
      }
    }
  }

  lemma {:induction false} AllUnlistenedIsNone(listening: seq<Request>, active: set<nat>)
    requires DistinctIds(listening) && forall r :: r in listening ==> r.id in active
    ensures AllUnlistened(listening, active) == []
  {
    if listening != [] {
      var before, last := listening[..|listening| - 1], listening[|listening| - 1];
      assert last in listening;
      forall r | r in before ensures r.id in active - {last.id} {
        assert r in listening;
      }
      AllUnlistenedIsNone(before, active - {last.id});
    }
  }

  lemma DisposeServerListens(v: Server, ended: set<nat>)
    requires Listens(v, ended)
    ensures Listens(DisposeServer(v), ended + HandedOver(v))
  {
    AllUnlistenedIsNone(v.listening, v.active);
  }

  lemma CompleteListens(v: Server, i: nat, outcome: Outcome, ended: set<nat>)
    requires Listens(v, ended) && i < |v.running| && forall r :: r in v.listening ==> r.id != v.running[i].id
    ensures Listens(Complete(v, i, outcome).0, ended)
  {
  }

  // -------------------------------------------------------------------------
  // Every step
  // -------------------------------------------------------------------------

  /** Nothing is held twice. */
  ghost predicate HeldOnce(v: Server) {
    forall r: Request :: r.Opens() ==> Held(v, r) <= 1
  }

  lemma NeverReopened(s: System)
    requires Counted(s) && !Reopened(s)
    ensures HeldOnce(s.server)
  {
    hide Inv, Held;
    forall r: Request | r.Opens() ensures Held(s.server, r) <= 1 {
      assert r !in s.again;
    }
  }

  lemma NotHandedOver(v: Server, c: Client, request: Request)
    requires ServerOk(v, c) && Sent(request, c) && multiset(v.invoked)[request] == 0
    ensures request.id !in HandedOver(v)
  {
    forall r | r in v.invoked ensures r.id != request.id {
      assert Sent(r, c);
    }
  }

  lemma TakenListens(v: Server, c: Client, request: Request, ended: set<nat>)
    requires Listens(v, ended) && ServerOk(v, c) && (request.Opens() ==> Sent(request, c) && HeldOnce(OnRequest(v, request)))
    ensures Listens(OnRequest(v, request), ended + EndedBy(v, request))
  {
    assert ended + {} == ended;
    if request.Opens() {
      assert Held(OnRequest(v, request), request) <= 1;
      RequestHolds(v, request, request);
      hide OnRequest;
      assert multiset(v.invoked)[request] == 0;
      NotHandedOver(v, c, request);
      hide HeldOnce, Held, ServerOk, Sent;
      OpenListens(v, request, ended);
    } else {
      DisposeListens(v, request, ended);
    }
  }

  lemma OpenListens(v: Server, request: Request, ended: set<nat>)
    requires Listens(v, ended) && request.Opens() && request.id !in HandedOver(v)
    ensures Listens(OnRequest(v, request), ended)
  {
    HandOverListens(v, request, ended);
  }

  lemma FlushListens(s: System, channel: string, ended: set<nat>)
    requires Counted(s) && HeldOnce(s.server) && Listens(s.server, ended) && Enabled(s, DoFlush(channel))
    ensures Listens(Next(s, DoFlush(channel)).server, ended)
  {
    hide Listens, HeldOnce, HandOverAll, HeldAsArrived, SentOnce, HandedOver, Requests, ClientOk, WireOk, NobodyOrphaned;
    var v, list := s.server, ParkedFor(s.server, channel);
    assert channel in v.channels;
    ParkedOnce(v, s.client, channel);
    hide ServerOk;
    HandOverAllListens(v, list, ended);
    SameListening(HandOverAll(v, list), Next(s, DoFlush(channel)).server, ended);
  }

  lemma ParkedOnce(v: Server, c: Client, channel: string)
    requires ServerOk(v, c) && HeldOnce(v)
    ensures var list := ParkedFor(v, channel);
      && (forall i :: 0 <= i < |list| ==> list[i].request.id !in HandedOver(v) && list[i].request.channel == channel)
      && DistinctIds(Requests(list))
  {
    var list := ParkedFor(v, channel);
    var requests := Requests(list);
    forall i | 0 <= i < |list| ensures Sent(list[i].request, c) && list[i].request.channel == channel {
      assert list[i] in list;
    }
    forall i | 0 <= i < |list| ensures list[i].request.id !in HandedOver(v) {
      var r := list[i].request;
      assert requests[i] == r && r in requests;
      assert Held(v, r) <= 1;
      NotHandedOver(v, c, r);
    }
    forall i, j | 0 <= i < j < |requests| ensures requests[i].id != requests[j].id {
      assert Sent(list[i].request, c) && Sent(list[j].request, c);
      OnceInList(requests, i, j);
      assert Held(v, requests[i]) <= 1;
    }
  }

  lemma OnceInList(requests: seq<Request>, i: nat, j: nat)
    requires i < j < |requests|
    ensures requests[i] == requests[j] ==> multiset(requests)[requests[i]] >= 2
  {
    assert requests == requests[..j] + requests[j..];
    assert requests[i] in requests[..j] && requests[j] in requests[j..];
  }

  lemma CompletedListens(s: System, i: nat, outcome: Outcome, ended: set<nat>)
    requires Inv(s) && Listens(s.server, ended) && i < |s.server.running|
    ensures Listens(Next(s, DoComplete(i, outcome)).server, ended)
  {
    assert s.server.running[i] in s.server.running;
    CompleteListens(s.server, i, outcome, ended);
    hide Listens, Complete;
  }

  lemma StepListens(s: System, step: Step, ended: set<nat>)
    requires Counted(s) && Enabled(s, step) && Counted(Next(s, step)) && !Reopened(Next(s, step))
    requires Listens(s.server, ended)
    ensures Listens(Next(s, step).server, ended + EndsAt(s, step))
  {
    hide Listens, HeldAsArrived, SentOnce, OnRequest;
    NeverReopened(Next(s, step));
    assert ended + {} == ended;
    match step
    case Take =>
      assert s.toServer[0] in s.toServer;
      TakenListens(s.server, s.client, s.toServer[0], ended);
    case Retake(k) =>
      assert s.taken[k] in s.taken && Next(s, step).again[|s.again|] == s.taken[k];
      TakenListens(s.server, s.client, s.taken[k], ended);
    case DoDisposeServer => DisposeServerListens(s.server, ended);
    case DoFlush(channel) =>
      NeverReopened(s);
      FlushListens(s, channel, ended);
    case DoComplete(i, outcome) => CompletedListens(s, i, outcome, ended);
    case DoRegister(_) => SameListening(s.server, Next(s, step).server, ended);
    case DoTimeout(_, _) => SameListening(s.server, Next(s, step).server, ended);
    case _ =>
  }

  lemma SameListening(v: Server, v': Server, ended: set<nat>)
    requires v'.listening == v.listening && v'.invoked == v.invoked && v'.active == v.active
    ensures Listens(v, ended) ==> Listens(v', ended)
  {
  }

  lemma {:induction false} AgainOnlyGrows(s: System, steps: seq<Step>)
    ensures forall r :: r in s.again ==> r in Run(s, steps).again
    decreases |steps|
  {
    if steps != [] {
      var s' := if Enabled(s, steps[0]) then Next(s, steps[0]) else s;
      assert s.again <= s'.again;
      hide Next, Enabled;
      AgainOnlyGrows(s', steps[1..]);
    }
  }

  lemma {:induction false} RunListens(s: System, steps: seq<Step>, ended: set<nat>)
    requires Counted(s) && Listens(s.server, ended) && !Reopened(Run(s, steps))
    ensures Listens(Run(s, steps).server, ended + Ended(s, steps))
    decreases |steps|
  {
    hide Counted, Listens, Next, Enabled, EndsAt;
    assert ended + {} == ended;
    if steps != [] {
      var s' := if Enabled(s, steps[0]) then Next(s, steps[0]) else s;
      AgainOnlyGrows(s', steps[1..]);
      if Enabled(s, steps[0]) {
        StepCounts(s, steps[0]);
        StepListens(s, steps[0], ended);
      } else {
        NothingEnds(s, steps[0]);
      }
      RunListens(s', steps[1..], ended + EndsAt(s, steps[0]));
      assert ended + EndsAt(s, steps[0]) + Ended(s', steps[1..]) == ended + Ended(s, steps);
    }
  }

  lemma NothingEnds(s: System, step: Step)
    requires !Enabled(s, step)
    ensures EndsAt(s, step) == {}
  {
  }

  /**
   Over every run in which no opening request is delivered again, the server fires for exactly the
   subscriptions handed to their channels and not ended since, each once. A disposal taken while the
   subscription is parked, or before it, does not end it.
   */
  lemma SubscribedExactly(steps: seq<Step>)
    requires !Reopened(Run(START, steps))
    ensures var v := Run(START, steps).server;
      && DistinctIds(v.listening)
      && forall r :: r in v.listening <==> r in v.invoked && r.Listen? && r.id !in Ended(START, steps)
  {
    Once.Reachable([]);
    RunListens(START, steps, {});
    assert {} + Ended(START, steps) == Ended(START, steps);
    hide Run, Ended;
  }

  /** The disposal of a parked subscription is lost: once the channel is there, it fires for nobody. */
  lemma ParkedDisposalIsLost(channel: string, name: string, arg: string)
    ensures var listen := Listen(0, channel, name, arg);
      var s := Run(START, [Ready, Deliver, DoSubscribe(channel, name, arg), DoUnsubscribe(0), Take, Take, DoRegister(channel), DoFlush(channel)]);
      s.toServer == [] && s.client.handlers == map[] && s.server.listening == [listen]
  {
    hide Run, OnRequest, Flush, Register, Park, Subscribe, Unsubscribe, Next, Enabled;
    var listen, subscribe, register, flush := Listen(0, channel, name, arg), DoSubscribe(channel, name, arg), DoRegister(channel), DoFlush(channel);
    var s1, s2, s3, s4 := GivenUp(channel, name, arg);
    var s5, s6, s7 := ParkedInVain(s4, listen);
    ParkedAndFlushed(listen);
    CanFlush(s7, channel, listen);
    RunEight(START, s1, s2, s3, s4, s5, s6, s7, [Ready, Deliver, subscribe, DoUnsubscribe(0), Take, Take, register, flush]);
    FlushedServer(s7, channel);
  }

  /** The server takes both, and then the channel is registered. */
  lemma ParkedInVain(s4: System, listen: Request) returns (s5: System, s6: System, s7: System)
    requires listen.Listen? && s4.server == NEW_SERVER && s4.toServer == [listen, EventDispose(listen.id)] && s4.taken == []
    ensures var register := DoRegister(listen.channel);
      && Enabled(s4, Take) && s5 == Next(s4, Take) && Enabled(s5, Take) && s6 == Next(s5, Take)
      && Enabled(s6, register) && s7 == Next(s6, register)
      && s7.client == s4.client && s7.toServer == [] && s7.server == Register(Park(NEW_SERVER, listen), listen.channel)
  {
    ParkedAndFlushed(listen);
    hide OnRequest, Flush, Park;
    s5 := Next(s4, Take);
    assert s5.server == Park(NEW_SERVER, listen) && s5.toServer == [EventDispose(listen.id)];
    assert !Park(NEW_SERVER, listen).disposed by { ParkStays(listen); }
    s6 := Next(s5, Take);
    assert s6.server == Park(NEW_SERVER, listen);
    s7 := Next(s6, DoRegister(listen.channel));
  }

  lemma ParkStays(listen: Request)
    requires listen.Listen?
    ensures !Park(NEW_SERVER, listen).disposed
  {
  }

  /** The client subscribes and gives the subscription up before anything is taken. */
  lemma GivenUp(channel: string, name: string, arg: string) returns (s1: System, s2: System, s3: System, s4: System)
    ensures var listen, subscribe := Listen(0, channel, name, arg), DoSubscribe(channel, name, arg);
      && Enabled(START, Ready) && s1 == Next(START, Ready) && Enabled(s1, Deliver) && s2 == Next(s1, Deliver)
      && Enabled(s2, subscribe) && s3 == Next(s2, subscribe) && Enabled(s3, DoUnsubscribe(0)) && s4 == Next(s3, DoUnsubscribe(0))
      && s4.client.handlers == map[] && s4.server == NEW_SERVER && s4.toServer == [listen, EventDispose(0)] && s4.taken == []
  {
    var listen := Listen(0, channel, name, arg);
    s1 := Next(START, Ready);
    assert s1 == START.(toClient := [Initialize]);
    s2 := Next(s1, Deliver);
    assert s2 == START.(client := NEW_CLIENT.(initialized := true), delivered := [Initialize]);
    s3 := Next(s2, DoSubscribe(channel, name, arg));
    assert s3.client.handlers == map[0 := ForEvent] && s3.toServer == [listen];
    s4 := Next(s3, DoUnsubscribe(0));
    assert s4.client.handlers == map[];
  }

  lemma FlushedServer(s: System, channel: string)
    requires Enabled(s, DoFlush(channel))
    ensures Next(s, DoFlush(channel)) == s.(server := Flush(s.server, channel))
  {
  }

  lemma CanFlush(s: System, channel: string, listen: Request)
    requires listen.Listen? && listen.channel == channel && s.server == Register(Park(NEW_SERVER, listen), channel)
    ensures Enabled(s, DoFlush(channel))
  {
  }

  lemma ParkedAndFlushed(listen: Request)
    requires listen.Listen?
    ensures var parked := Park(NEW_SERVER, listen);
      && OnRequest(NEW_SERVER, listen) == parked && OnRequest(parked, EventDispose(listen.id)) == parked
      && var v := Register(parked, listen.channel);
         && ParkedFor(v, listen.channel) == [Parked(listen, true)]
         && Flush(v, listen.channel).listening == [listen]
  {
    var v := Register(Park(NEW_SERVER, listen), listen.channel);
    assert [Parked(listen, true)][1..] == [];
    assert HandOverAll(v, [Parked(listen, true)]) == HandOverAll(HandOver(v, listen), []) == HandOver(v, listen);
  }

  lemma RunEight(s0: System, s1: System, s2: System, s3: System, s4: System, s5: System, s6: System, s7: System, steps: seq<Step>)
    requires |steps| == 8
    requires Enabled(s0, steps[0]) && s1 == Next(s0, steps[0]) && Enabled(s1, steps[1]) && s2 == Next(s1, steps[1])
    requires Enabled(s2, steps[2]) && s3 == Next(s2, steps[2]) && Enabled(s3, steps[3]) && s4 == Next(s3, steps[3])
    requires Enabled(s4, steps[4]) && s5 == Next(s4, steps[4]) && Enabled(s5, steps[5]) && s6 == Next(s5, steps[5])
    requires Enabled(s6, steps[6]) && s7 == Next(s6, steps[6]) && Enabled(s7, steps[7])
    ensures Run(s0, steps) == Next(s7, steps[7])
  {
    hide Run, Next, Enabled;
    RunOne(s0, steps);
    RunOne(s1, steps[1..]);
    RunOne(s2, steps[2..]);
    RunOne(s3, steps[3..]);
    RunOne(s4, steps[4..]);
    RunOne(s5, steps[5..]);
    RunOne(s6, steps[6..]);
    RunOne(s7, steps[7..]);
    Once.RunNone(Next(s7, steps[7]));
  }

  lemma RunOne(s: System, steps: seq<Step>)
    requires steps != [] && Enabled(s, steps[0])
    ensures Run(s, steps) == Run(Next(s, steps[0]), steps[1..])
  {
    hide Next, Enabled;
  }

  // -------------------------------------------------------------------------
  // How often, whatever is delivered again
  // -------------------------------------------------------------------------

  /** The ids a step hands over. */
  function HandsOver(s: System, step: Step): set<nat> {
    if !Enabled(s, step) then {}
    else set i | |s.server.invoked| <= i < |Next(s, step).server.invoked| :: Next(s, step).server.invoked[i].id
  }

  /** The ids a step may end: that of a disposal, or all. */
  predicate MayEnd(s: System, step: Step, id: nat) {
    && Enabled(s, step)
    && match step
       case Take => !s.toServer[0].Opens() && s.toServer[0].id == id
       case Retake(k) => !s.taken[k].Opens() && s.taken[k].id == id
       case DoDisposeServer => true
       case _ => false
  }

  /** Whether an id was handed over and not ended since. */
  function OnAfter(s: System, step: Step, id: nat, on: bool): bool {
    id in HandsOver(s, step) || (on && !MayEnd(s, step, id))
  }

  /** How often an id was ended in a run, when it was on. */
  function Stops(s: System, steps: seq<Step>, id: nat, on: bool): nat
    decreases |steps|
  {
    if steps == [] then 0
    else
      var next := if Enabled(s, steps[0]) then Next(s, steps[0]) else s;
      (if on && MayEnd(s, steps[0], id) then 1 else 0) + Stops(next, steps[1..], id, OnAfter(s, steps[0], id, on))
  }

  /** Nothing else of that id is or will be at the server. */
  predicate Own(c: Client, r: Request) {
    r.id in c.asked ==> c.asked[r.id] == r
  }

  predicate Alone(v: Server, r: Request) {
    && (forall q :: q in v.invoked && q.id == r.id ==> q == r)
    && (forall q :: q in v.listening && q.id == r.id ==> q == r)
    && (forall q :: q in v.running ==> q.id != r.id)
  }

  lemma OwnIsAlone(v: Server, c: Client, r: Request)
    requires ServerOk(v, c) && r.Listen? && Own(c, r)
    ensures Alone(v, r)
  {
    forall q | q in v.invoked && q.id == r.id ensures q == r {
      assert Sent(q, c);
    }
    forall q | q in v.listening && q.id == r.id ensures q == r {
      assert Sent(q, c);
    }
    forall q | q in v.running ensures q.id != r.id {
      assert Sent(q, c) && q.Call?;
    }
  }

  /** The subscription is listened to as often as it was handed over, less the stops; and the id is on if it is active. */
  predicate Tallies(v: Server, r: Request, on: bool, stops: nat) {
    && multiset(v.listening)[r] + stops == multiset(v.invoked)[r]
    && (on <==> r.id in v.active)
    && (on ==> r in v.listening)
  }

  lemma HandOverTallies(v: Server, request: Request, r: Request, on: bool, stops: nat)
    requires Tallies(v, r, on, stops) && request.Opens() && r.Listen? && (request.id == r.id ==> request == r)
    ensures Tallies(HandOver(v, request), r, on || request == r, stops)
  {
    var v' := HandOver(v, request);
    assert multiset(v'.invoked) == multiset(v.invoked) + multiset{request};
    assert request.Listen? ==> multiset(v'.listening) == multiset(v.listening) + multiset{request};
    assert request.Listen? ==> v'.listening[|v.listening|] == request;
  }

  lemma {:induction false} HandOverAllTallies(v: Server, requests: seq<Parked>, r: Request, on: bool, stops: nat)
    requires Tallies(v, r, on, stops) && r.Listen?
    requires forall i :: 0 <= i < |requests| ==> requests[i].request.Opens() && requests[i].request.channel in v.channels
    requires forall i :: 0 <= i < |requests| ==> (requests[i].request.id == r.id ==> requests[i].request == r)
    ensures Tallies(HandOverAll(v, requests), r, on || r in Requests(requests), stops)
    ensures HandOverAll(v, requests).invoked == v.invoked + Requests(requests)
    decreases |requests|
  {
    hide Tallies, HandOver, Requests;
    if requests == [] {
      assert Requests(requests) == [] && v.invoked + [] == v.invoked;
    } else {
      var first, rest := requests[0].request, requests[1..];
      HandOverTallies(v, first, r, on, stops);
      HandedFirst(v, requests, r);
      HandOverAllTallies(Open(v, first), rest, r, on || first == r, stops);
      assert (v.invoked + [first]) + Requests(rest) == v.invoked + ([first] + Requests(rest));
    }
  }

  lemma HandedFirst(v: Server, requests: seq<Parked>, r: Request)
    requires requests != [] && requests[0].request.Opens() && requests[0].request.channel in v.channels
    ensures var first := requests[0].request;
      && Open(v, first) == HandOver(v, first) && Open(v, first).channels == v.channels
      && Open(v, first).invoked == v.invoked + [first]
      && Requests(requests) == [first] + Requests(requests[1..])
      && (r in Requests(requests) <==> r == first || r in Requests(requests[1..]))
  {
    var first, rest := requests[0].request, Requests(requests[1..]);
    assert Requests(requests) == [first] + rest;
    assert r in [first] + rest <==> r == first || r in rest;
  }

  lemma {:induction false} UnlistenedOnce(listening: seq<Request>, r: Request)
    requires r in listening && forall q :: q in listening && q.id == r.id ==> q == r
    ensures multiset(Unlistened(listening, r.id)) == multiset(listening) - multiset{r}
  {
    var before, last := listening[..|listening| - 1], listening[|listening| - 1];
    assert listening == before + [last];
    if last.id != r.id {
      assert r in before;
      UnlistenedOnce(before, r);
    }
  }

  lemma {:induction false} UnlistenedOthers(listening: seq<Request>, id: nat, r: Request)
    requires r.id != id
    ensures multiset(Unlistened(listening, id))[r] == multiset(listening)[r]
  {
    if listening != [] {
      var before, last := listening[..|listening| - 1], listening[|listening| - 1];
      assert listening == before + [last];
      UnlistenedOthers(before, id, r);
    }
  }

  lemma DisposeTallies(v: Server, id: nat, r: Request, on: bool, stops: nat)
    requires Tallies(v, r, on, stops) && Alone(v, r)
    ensures Tallies(DisposeActive(v, id), r, on && id != r.id, stops + if on && id == r.id then 1 else 0)
  {
    if id != r.id {
      UnlistenedOthers(v.listening, id, r);
      hide Unlistened;
      if r in v.listening {
        assert multiset(v.listening)[r] > 0;
        assert id in v.active ==> r in DisposeActive(v, id).listening;
      }
    } else if on {
      UnlistenedOnce(v.listening, r);
    }
  }

  /** Of the requests under one id, disposing of everything takes one away, if the id is active. */
  lemma {:induction false} AllUnlistenedOnce(listening: seq<Request>, active: set<nat>, r: Request)
    requires forall q :: q in listening && q.id == r.id ==> q == r
    ensures multiset(AllUnlistened(listening, active))[r] == multiset(listening)[r] - if r.id in active && r in listening then 1 else 0
  {
    if listening != [] {
      var before, last := listening[..|listening| - 1], listening[|listening| - 1];
      assert listening == before + [last];
      assert last in listening && forall q :: q in before ==> q in listening;
      AllUnlistenedOnce(before, active - {last.id}, r);
      AllUnlistenedOnce(before, active, r);
    }
  }

  lemma DisposeServerTallies(v: Server, r: Request, on: bool, stops: nat)
    requires Tallies(v, r, on, stops) && Alone(v, r)
    ensures Tallies(DisposeServer(v), r, false, stops + if on then 1 else 0)
  {
    AllUnlistenedOnce(v.listening, v.active, r);
  }

  lemma CompleteTallies(v: Server, i: nat, outcome: Outcome, r: Request, on: bool, stops: nat)
    requires Tallies(v, r, on, stops) && Alone(v, r) && i < |v.running|
    ensures Tallies(Complete(v, i, outcome).0, r, on, stops)
  {
    assert v.running[i] in v.running;
  }

  lemma RequestTallies(s: System, step: Step, request: Request, r: Request, on: bool, stops: nat)
    requires r.Listen? && Tallies(s.server, r, on, stops) && Alone(s.server, r) && Enabled(s, step)
    requires (step.Take? && request == s.toServer[0]) || (step.Retake? && request == s.taken[step.index])
    requires request.Opens() && request.id == r.id ==> request == r
    ensures Tallies(Next(s, step).server, r, OnAfter(s, step, r.id, on), stops + if on && MayEnd(s, step, r.id) then 1 else 0)
  {
    var v, v' := s.server, Next(s, step).server;
    if request.Opens() {
      if request.channel in v.channels {
        HandOverTallies(v, request, r, on, stops);
        assert v'.invoked == v.invoked + [request] && v'.invoked[|v.invoked|] == request;
        assert HandsOver(s, step) == {request.id};
      } else {
        assert HandsOver(s, step) == {};
        SameTallies(v, v', r, on, stops);
      }
    } else {
      assert HandsOver(s, step) == {};
      DisposeTallies(v, request.id, r, on, stops);
    }
    hide Tallies, HandsOver;
  }

  lemma FlushTallies(s: System, channel: string, r: Request, on: bool, stops: nat)
    requires r.Listen? && Tallies(s.server, r, on, stops) && Enabled(s, DoFlush(channel)) && ServerOk(s.server, s.client) && Own(s.client, r)
    ensures Tallies(Next(s, DoFlush(channel)).server, r, OnAfter(s, DoFlush(channel), r.id, on), stops)
  {
    var v, list, step := s.server, ParkedFor(s.server, channel), DoFlush(channel);
    forall i | 0 <= i < |list|
      ensures list[i].request.channel == channel && (list[i].request.id == r.id ==> list[i].request == r)
    {
      assert list[i] in list && Sent(list[i].request, s.client);
    }
    HandOverAllTallies(v, list, r, on, stops);
    hide HandOverAll;
    var after := HandOverAll(v, list);
    SameTallies(after, Next(s, step).server, r, on || r in Requests(list), stops);
    FlushHandsOver(s, channel, r);
  }

  lemma FlushHandsOver(s: System, channel: string, r: Request)
    requires Enabled(s, DoFlush(channel))
    requires HandOverAll(s.server, ParkedFor(s.server, channel)).invoked == s.server.invoked + Requests(ParkedFor(s.server, channel))
    requires var list := ParkedFor(s.server, channel); forall i :: 0 <= i < |list| ==> (list[i].request.id == r.id ==> list[i].request == r)
    ensures r.id in HandsOver(s, DoFlush(channel)) <==> r in Requests(ParkedFor(s.server, channel))
  {
    var requests, n := Requests(ParkedFor(s.server, channel)), |s.server.invoked|;
    var invoked' := Next(s, DoFlush(channel)).server.invoked;
    assert invoked' == s.server.invoked + requests;
    if r in requests {
      var i :| 0 <= i < |requests| && requests[i] == r;
      assert invoked'[n + i] == r;
    }
    if r.id in HandsOver(s, DoFlush(channel)) {
      var i :| n <= i < |invoked'| && invoked'[i].id == r.id;
      assert invoked'[i] == requests[i - n];
    }
  }

  lemma SameTallies(v: Server, v': Server, r: Request, on: bool, stops: nat)
    requires Tallies(v, r, on, stops) && v'.listening == v.listening && v'.invoked == v.invoked && v'.active == v.active
    ensures Tallies(v', r, on, stops)
  {
  }

  lemma StepTallies(s: System, step: Step, r: Request, on: bool, stops: nat)
    requires Inv(s) && Enabled(s, step) && r.Listen? && Own(s.client, r) && Tallies(s.server, r, on, stops)
    ensures Tallies(Next(s, step).server, r, OnAfter(s, step, r.id, on), stops + if on && MayEnd(s, step, r.id) then 1 else 0)
  {
    OwnIsAlone(s.server, s.client, r);
    hide ClientOk, NobodyOrphaned, Tallies, OnRequest, Alone;
    var v, v' := s.server, Next(s, step).server;
    match step
    case Take =>
      assert s.toServer[0] in s.toServer;
      RequestTallies(s, step, s.toServer[0], r, on, stops);
    case Retake(k) =>
      assert s.taken[k] in s.taken;
      RequestTallies(s, step, s.taken[k], r, on, stops);
    case DoFlush(channel) => FlushTallies(s, channel, r, on, stops);
    case DoDisposeServer => DisposeServerTallies(v, r, on, stops);
    case DoComplete(i, outcome) => CompleteTallies(v, i, outcome, r, on, stops);
    case DoRegister(_) => SameTallies(v, v', r, on, stops);
    case DoTimeout(_, _) => SameTallies(v, v', r, on, stops);
    case _ => SameTallies(v, v', r, on, stops);
  }

  lemma StepKeepsAsked(s: System, step: Step, id: nat)
    requires Inv(s) && Enabled(s, step) && id in s.client.asked
    ensures id in Next(s, step).client.asked && Next(s, step).client.asked[id] == s.client.asked[id]
  {
    hide WireOk, ServerOk, NobodyOrphaned, SettledOk, AllAccounted, HandlersOk, PendingOk;
    if step.DoDisposeClient? {
      DisposeKeeps(s.client);
      hide RejectAll;
    }
  }

  lemma {:induction false} OwnBefore(s: System, steps: seq<Step>, r: Request)
    requires Inv(s) && Own(Run(s, steps).client, r)
    ensures Own(s.client, r)
    decreases |steps|
  {
    hide Inv, Next, Enabled;
    if steps != [] {
      if Enabled(s, steps[0]) {
        StepKeeps(s, steps[0]);
        if r.id in s.client.asked {
          StepKeepsAsked(s, steps[0], r.id);
        }
        OwnBefore(Next(s, steps[0]), steps[1..], r);
      } else {
        OwnBefore(s, steps[1..], r);
      }
    }
  }

  lemma {:induction false} RunTallies(s: System, steps: seq<Step>, r: Request, on: bool, stops: nat)
    requires Inv(s) && r.Listen? && Own(Run(s, steps).client, r) && Tallies(s.server, r, on, stops)
    ensures var v := Run(s, steps).server;
      multiset(v.listening)[r] + (stops + Stops(s, steps, r.id, on)) == multiset(v.invoked)[r]
    decreases |steps|
  {
    hide Inv, Next, Enabled, MayEnd, OnAfter;
    OwnBefore(s, steps, r);
    if steps != [] {
      var s' := if Enabled(s, steps[0]) then Next(s, steps[0]) else s;
      if Enabled(s, steps[0]) {
        StepKeeps(s, steps[0]);
        hide Tallies, Own;
        StepTallies(s, steps[0], r, on, stops);
      } else {
        NothingStops(s, steps[0], r.id, on);
      }
      RunTallies(s', steps[1..], r, OnAfter(s, steps[0], r.id, on), stops + if on && MayEnd(s, steps[0], r.id) then 1 else 0);
    }
  }

  lemma NothingStops(s: System, step: Step, id: nat, on: bool)
    requires !Enabled(s, step)
    ensures !MayEnd(s, step, id) && OnAfter(s, step, id, on) == on
  {
  }

  /**
   Over every run, whatever is delivered again: a subscription is listened to as often as it was handed
   over, less the times its id was ended while it was on. Handed over twice, it was on once.
   */
  lemma ListensAsOften(steps: seq<Step>, r: Request)
    requires r in Run(START, steps).server.invoked && r.Listen?
    ensures var v := Run(START, steps).server;
      multiset(v.listening)[r] + Stops(START, steps, r.id, false) == multiset(v.invoked)[r]
  {
    Settled.Reachable([]);
    Settled.Reachable(steps);
    assert Sent(r, Run(START, steps).client);
    RunTallies(START, steps, r, false, 0);
    hide Run, Stops;
  }
}
