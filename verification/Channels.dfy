/**
 `ChannelClient` and `ChannelServer`: requests matched with responses by id.

 Both ends as functions on values, and the two joined by a FIFO of requests and a FIFO of responses.
 A transport that replays what may have been lost delivers messages again: any message delivered
 before may come once more at any time. Arguments and results are opaque. A response also records, as
 history, the request it was made for; the client goes by the id alone.
 */
module Channels {
  datatype Request =
    | Call(id: nat, channel: string, name: string, arg: string)
    | Listen(id: nat, channel: string, name: string, arg: string)
    | PromiseCancel(id: nat)
    | EventDispose(id: nat)
  {
    predicate Opens() { Call? || Listen? }
  }

  /** What a channel made of a call. */
  datatype Outcome = Returned(data: string) | Threw(payload: string) | ThrewObject(data: string)

  datatype Response =
    | Initialize
    | PromiseResult(id: nat, outcome: Outcome, cause: Request)
    | EventFire(id: nat, data: string, cause: Request)

  // -------------------------------------------------------------------------
  // Client
  // -------------------------------------------------------------------------

  datatype Handler = ForCall | ForEvent

  datatype Means = ByResponse(response: Response) | ByCancel | ByDispose | CancelledBefore

  /** A promise handed out was settled. */
  datatype Settlement = Settlement(id: nat, means: Means)

  /** What the listeners of a subscription were given. */
  datatype Heard = Heard(id: nat, data: string)

  /** `pending` are the keys of the rejection table in insertion order; `waiting` the requests held for Initialize. */
  datatype Client = Client(
    initialized: bool,
    disposed: bool,
    nextId: nat,
    handlers: map<nat, Handler>,
    pending: seq<nat>,
    waiting: set<nat>,
    asked: map<nat, Request>,
    settled: seq<Settlement>,
    heard: seq<Heard>)

  const NEW_CLIENT := Client(false, false, 0, map[], [], {}, map[], [], [])

  function Remove(ids: seq<nat>, id: nat): (rest: seq<nat>)
    ensures forall x :: x in rest <==> x in ids && x != id
  {
    if ids == [] then []
    else if ids[0] == id then Remove(ids[1..], id)
    else [ids[0]] + Remove(ids[1..], id)
  }

  function Settle(c: Client, id: nat, means: Means): Client {
    c.(handlers := c.handlers - {id},
       pending := Remove(c.pending, id),
       settled := c.settled + [Settlement(id, means)])
  }

  /** `doRequest` of a call: nothing is sent for a call already settled. */
  function SendCall(c: Client, id: nat): (Client, seq<Request>)
    requires id in c.asked
  {
    if c.disposed || id !in c.pending then (c, [])
    else (c.(handlers := c.handlers[id := ForCall]), [c.asked[id]])
  }

  function Invoke(c: Client, channel: string, name: string, arg: string, cancelled: bool): (Client, seq<Request>) {
    var id := c.nextId;
    if cancelled then
      (c.(nextId := id + 1, settled := c.settled + [Settlement(id, CancelledBefore)]), [])
    else
      var c' := c.(nextId := id + 1, pending := c.pending + [id], asked := c.asked[id := Call(id, channel, name, arg)]);
      if c.initialized then SendCall(c', id) else (c'.(waiting := c'.waiting + {id}), [])
  }

  function Subscribe(c: Client, channel: string, name: string, arg: string): (Client, seq<Request>) {
    var id := c.nextId;
    var request := Listen(id, channel, name, arg);
    var c' := c.(nextId := id + 1, handlers := c.handlers[id := ForEvent], asked := c.asked[id := request]);
    if c.initialized then (c', [request]) else (c'.(waiting := c'.waiting + {id}), [])
  }

  function Unsubscribe(c: Client, id: nat): (Client, seq<Request>) {
    (c.(handlers := c.handlers - {id}), [EventDispose(id)])
  }

  /** A request held for Initialize gets its turn. */
  function Deferred(c: Client, id: nat): (Client, seq<Request>)
    requires id in c.asked
  {
    var c' := c.(waiting := c.waiting - {id});
    if c.asked[id].Call? then SendCall(c', id) else (c', [c.asked[id]])
  }

  function Cancel(c: Client, id: nat): (Client, seq<Request>) {
    if id !in c.pending then (c, []) else (Settle(c, id, ByCancel), [PromiseCancel(id)])
  }

  function RejectAll(c: Client, ids: seq<nat>): Client
    decreases |ids|
  {
    if ids == [] then c else RejectAll(Settle(c, ids[0], ByDispose), ids[1..])
  }

  function DisposeClient(c: Client): Client {
    if c.disposed then c else RejectAll(c.(disposed := true), c.pending)
  }

  function OnResponse(c: Client, response: Response): Client {
    if response.Initialize? then c.(initialized := true)
    else if response.id in c.handlers && c.handlers[response.id].ForCall? && response.PromiseResult?
    then Settle(c, response.id, ByResponse(response))
    else if response.id in c.handlers && c.handlers[response.id].ForEvent? && response.EventFire?
    then c.(heard := c.heard + [Heard(response.id, response.data)])
    else c
  }

  // -------------------------------------------------------------------------
  // Server
  // -------------------------------------------------------------------------

  /** A request for a channel not registered yet, and whether its timer is still to fire. */
  datatype Parked = Parked(request: Request, timer: bool)

  /** `flushes` are the channels registered whose flush has not run; `invoked` the requests handed to a channel. */
  datatype Server = Server(
    disposed: bool,
    channels: set<string>,
    active: set<nat>,
    running: seq<Request>,
    listening: seq<Request>,
    parked: map<string, seq<Parked>>,
    flushes: set<string>,
    invoked: seq<Request>)

  const NEW_SERVER := Server(false, {}, {}, [], [], map[], {}, [])

  function ParkedFor(v: Server, channel: string): seq<Parked> {
    if channel in v.parked then v.parked[channel] else []
  }

  function Park(v: Server, request: Request): Server
    requires request.Opens()
  {
    v.(parked := v.parked[request.channel := ParkedFor(v, request.channel) + [Parked(request, true)]])
  }

  /** `onPromise` and `onEventListen` once the channel is there. */
  function HandOver(v: Server, request: Request): Server
    requires request.Opens()
  {
    var v' := v.(active := v.active + {request.id}, invoked := v.invoked + [request]);
    if request.Call? then v'.(running := v.running + [request]) else v'.(listening := v.listening + [request])
  }

  function Open(v: Server, request: Request): Server
    requires request.Opens()
  {
    if request.channel in v.channels then HandOver(v, request) else Park(v, request)
  }

  /** The subscription an id is active for is the last one made under it; an earlier one is no longer reached. */
  function Unlistened(listening: seq<Request>, id: nat): (rest: seq<Request>)
    ensures forall r :: r in rest ==> r in listening
  {
    if listening == [] then []
    else
      var before, last := listening[..|listening| - 1], listening[|listening| - 1];
      if last.id == id then before else Unlistened(before, id) + [last]
  }

  function DisposeActive(v: Server, id: nat): Server {
    if id in v.active then v.(active := v.active - {id}, listening := Unlistened(v.listening, id)) else v
  }

  /** The subscriptions that stay when every active id is disposed. */
  function AllUnlistened(listening: seq<Request>, active: set<nat>): (rest: seq<Request>)
    ensures forall r :: r in rest ==> r in listening
  {
    if listening == [] then []
    else
      var before, last := listening[..|listening| - 1], listening[|listening| - 1];
      if last.id in active then AllUnlistened(before, active - {last.id}) else AllUnlistened(before, active) + [last]
  }

  function OnRequest(v: Server, request: Request): Server {
    if request.Opens() then Open(v, request) else DisposeActive(v, request.id)
  }

  function Register(v: Server, channel: string): Server {
    v.(channels := v.channels + {channel}, flushes := v.flushes + {channel})
  }

  function HandOverAll(v: Server, requests: seq<Parked>): Server
    requires forall i :: 0 <= i < |requests| ==> requests[i].request.Opens()
    decreases |requests|
  {
    if requests == [] then v else HandOverAll(Open(v, requests[0].request), requests[1..])
  }

  /** `flushPendingRequests`: every parked request is handed over, whether or not it was already answered for. */
  function Flush(v: Server, channel: string): Server
    requires forall i :: 0 <= i < |ParkedFor(v, channel)| ==> ParkedFor(v, channel)[i].request.Opens()
  {
    var done := HandOverAll(v, ParkedFor(v, channel));
    done.(parked := done.parked - {channel}, flushes := v.flushes - {channel})
  }

  /** The timer of a parked request: the reply goes out, the request stays parked. */
  function Timeout(v: Server, channel: string, i: nat): (Server, seq<Response>)
    requires i < |ParkedFor(v, channel)|
  {
    var entry := v.parked[channel][i];
    (v.(parked := v.parked[channel := v.parked[channel][i := entry.(timer := false)]]),
     if entry.request.Call? then [PromiseResult(entry.request.id, Threw("Unknown channel"), entry.request)] else [])
  }

  function Complete(v: Server, i: nat, outcome: Outcome): (Server, seq<Response>)
    requires i < |v.running|
  {
    var request := v.running[i];
    (v.(running := v.running[..i] + v.running[i + 1..], active := v.active - {request.id}),
     [PromiseResult(request.id, outcome, request)])
  }

  function DisposeServer(v: Server): Server {
    v.(disposed := true, active := {}, listening := AllUnlistened(v.listening, v.active))
  }

  // -------------------------------------------------------------------------
  // The two together
  // -------------------------------------------------------------------------

  /** `taken` and `delivered` are what arrived for the first time, `again` the requests that arrived once more. */
  datatype System = System(
    client: Client,
    server: Server,
    toServer: seq<Request>,
    toClient: seq<Response>,
    taken: seq<Request>,
    delivered: seq<Response>,
    again: seq<Request>)

  const START := System(NEW_CLIENT, NEW_SERVER, [], [], [], [], [])

  datatype Step =
    | DoInvoke(channel: string, name: string, arg: string, cancelled: bool)
    | DoSubscribe(channel: string, name: string, arg: string)
    | DoUnsubscribe(id: nat)
    | DoDeferred(id: nat)
    | DoCancel(id: nat)
    | DoDisposeClient
    | Deliver
    | Take
    | Redeliver(index: nat)
    | Retake(index: nat)
    | DoRegister(channel: string)
    | DoFlush(channel: string)
    | DoTimeout(channel: string, index: nat)
    | DoComplete(index: nat, outcome: Outcome)
    | DoFire(index: nat, data: string)
    | Ready
    | DoDisposeServer

  predicate Enabled(s: System, step: Step) {
    match step
    case DoInvoke(_, _, _, _) => !s.client.disposed
    case DoSubscribe(_, _, _) => !s.client.disposed
    case DoUnsubscribe(id) => id in s.client.handlers && s.client.handlers[id].ForEvent?
    case DoDeferred(id) => s.client.initialized && id in s.client.waiting && id in s.client.asked
    case DoCancel(_) => true
    case DoDisposeClient => true
    case Deliver => s.toClient != [] && !s.client.disposed
    case Take => s.toServer != [] && !s.server.disposed
    case Redeliver(k) => k < |s.delivered| && !s.client.disposed
    case Retake(k) => k < |s.taken| && !s.server.disposed
    case DoRegister(_) => true
    case DoFlush(channel) =>
      channel in s.server.flushes
      && forall i :: 0 <= i < |ParkedFor(s.server, channel)| ==> ParkedFor(s.server, channel)[i].request.Opens()
    case DoTimeout(channel, i) => i < |ParkedFor(s.server, channel)| && s.server.parked[channel][i].timer
    case DoComplete(i, _) => i < |s.server.running|
    case DoFire(i, _) => i < |s.server.listening|
    case Ready => true
    case DoDisposeServer => true
  }

  function ClientMoves(s: System, move: (Client, seq<Request>)): System {
    s.(client := move.0, toServer := s.toServer + move.1)
  }

  function ServerMoves(s: System, move: (Server, seq<Response>)): System {
    s.(server := move.0, toClient := s.toClient + move.1)
  }

  function Next(s: System, step: Step): System
    requires Enabled(s, step)
  {
    match step
    case DoInvoke(channel, name, arg, cancelled) => ClientMoves(s, Invoke(s.client, channel, name, arg, cancelled))
    case DoSubscribe(channel, name, arg) => ClientMoves(s, Subscribe(s.client, channel, name, arg))
    case DoUnsubscribe(id) => ClientMoves(s, Unsubscribe(s.client, id))
    case DoDeferred(id) => ClientMoves(s, Deferred(s.client, id))
    case DoCancel(id) => ClientMoves(s, Cancel(s.client, id))
    case DoDisposeClient => s.(client := DisposeClient(s.client))
    case Deliver =>
      s.(client := OnResponse(s.client, s.toClient[0]), toClient := s.toClient[1..], delivered := s.delivered + [s.toClient[0]])
    case Take =>
      s.(server := OnRequest(s.server, s.toServer[0]), toServer := s.toServer[1..], taken := s.taken + [s.toServer[0]])
    case Redeliver(k) => s.(client := OnResponse(s.client, s.delivered[k]))
    case Retake(k) => s.(server := OnRequest(s.server, s.taken[k]), again := s.again + [s.taken[k]])
    case DoRegister(channel) => s.(server := Register(s.server, channel))
    case DoFlush(channel) => s.(server := Flush(s.server, channel))
    case DoTimeout(channel, i) => ServerMoves(s, Timeout(s.server, channel, i))
    case DoComplete(i, outcome) => ServerMoves(s, Complete(s.server, i, outcome))
    case DoFire(i, data) =>
      ServerMoves(s, (s.server, [EventFire(s.server.listening[i].id, data, s.server.listening[i])]))
    case Ready => ServerMoves(s, (s.server, [Initialize]))
    case DoDisposeServer => s.(server := DisposeServer(s.server))
  }

  function Run(s: System, steps: seq<Step>): System
    decreases |steps|
  {
    if steps == [] then s
    else Run(if Enabled(s, steps[0]) then Next(s, steps[0]) else s, steps[1..])
  }
}
