/** Every promise of a client is settled at most once, for a good reason, and none is ever orphaned. */
module Settlement {
  import opened Channels

  // -------------------------------------------------------------------------
  // The client alone
  // -------------------------------------------------------------------------

  function SettledIds(settled: seq<Settlement>): set<nat> {
    set s | s in settled :: s.id
  }

  predicate OncePerId(settled: seq<Settlement>) {
    forall i, j :: 0 <= i < j < |settled| ==> settled[i].id != settled[j].id
  }

  predicate Distinct(ids: seq<nat>) {
    forall i, j :: 0 <= i < j < |ids| ==> ids[i] != ids[j]
  }

  /** A settlement by response used a response made for that very call. */
  predicate GoodMeans(settlement: Settlement, asked: map<nat, Request>) {
    settlement.means.ByResponse? ==>
      var response := settlement.means.response;
      && response.PromiseResult? && response.id == settlement.id
      && settlement.id in asked && asked[settlement.id].Call? && response.cause == asked[settlement.id]
  }

  predicate AskedOk(c: Client) {
    && (forall id :: id in c.asked ==> id < c.nextId && c.asked[id].id == id && c.asked[id].Opens())
    && c.waiting <= c.asked.Keys
  }

  predicate HandlersOk(c: Client) {
    forall id :: id in c.handlers ==>
      && id in c.asked
      && (c.handlers[id].ForCall? ==> id in c.pending && id !in c.waiting)
      && (c.handlers[id].ForEvent? ==> c.asked[id].Listen?)
  }

  predicate PendingOk(c: Client) {
    && Distinct(c.pending)
    && forall id :: id in c.pending ==> id in c.asked && c.asked[id].Call? && (id in c.waiting || id in c.handlers)
  }

  predicate SettledOk(c: Client) {
    && OncePerId(c.settled)
    && (forall s :: s in c.settled ==> s.id < c.nextId && s.id !in c.pending && GoodMeans(s, c.asked))
  }

  /** Every id given out is an event's, or a call's that is pending or settled. */
  predicate AllAccounted(c: Client) {
    forall id: nat :: id < c.nextId ==>
      (id in c.asked && c.asked[id].Listen?) || id in c.pending || id in SettledIds(c.settled)
  }

  predicate ClientCore(c: Client) {
    AskedOk(c) && HandlersOk(c) && PendingOk(c) && SettledOk(c) && AllAccounted(c)
  }

  predicate ClientOk(c: Client) {
    ClientCore(c) && (c.disposed ==> c.pending == [])
  }

  lemma {:induction false} RemoveDistinct(ids: seq<nat>, id: nat)
    requires Distinct(ids)
    ensures Distinct(Remove(ids, id))
  {
    if ids != [] {
      RemoveDistinct(ids[1..], id);
      if ids[0] != id {
        var rest := Remove(ids[1..], id);
        forall j | 0 <= j < |rest| ensures rest[j] != ids[0] {
          assert rest[j] in rest;
        }
      }
    }
  }

  lemma {:induction false} RemoveFirst(ids: seq<nat>)
    requires ids != [] && Distinct(ids)
    ensures Remove(ids, ids[0]) == ids[1..]
  {
    RemoveAbsent(ids[1..], ids[0]);
  }

  lemma {:induction false} RemoveAbsent(ids: seq<nat>, id: nat)
    requires id !in ids
    ensures Remove(ids, id) == ids
  {
    if ids != [] {
      RemoveAbsent(ids[1..], id);
      assert ids == [ids[0]] + ids[1..];
    }
  }

  lemma SettledSnoc(settled: seq<Settlement>, last: Settlement)
    ensures SettledIds(settled + [last]) == SettledIds(settled) + {last.id}
    ensures OncePerId(settled) && last.id !in SettledIds(settled) ==> OncePerId(settled + [last])
  {
    var all := settled + [last];
    forall id | id in SettledIds(settled) ensures id in SettledIds(all) {
      var s :| s in settled && s.id == id;
      assert s in all;
    }
    assert last in all;
    forall i | 0 <= i < |settled| ensures settled[i].id in SettledIds(settled) {
      assert settled[i] in settled;
    }
  }

  lemma SettleKeeps(c: Client, id: nat, means: Means)
    requires ClientCore(c) && id in c.pending && GoodMeans(Settlement(id, means), c.asked)
    ensures ClientCore(Settle(c, id, means))
  {
    RemoveDistinct(c.pending, id);
    SettledSnoc(c.settled, Settlement(id, means));
    hide Distinct, OncePerId, GoodMeans;
  }

  lemma {:induction false} RejectAllKeeps(c: Client)
    requires ClientCore(c) && c.disposed
    ensures ClientOk(RejectAll(c, c.pending))
    ensures RejectAll(c, c.pending).asked == c.asked && RejectAll(c, c.pending).waiting == c.waiting
    decreases |c.pending|
  {
    if c.pending != [] {
      RemoveFirst(c.pending);
      SettleKeeps(c, c.pending[0], ByDispose);
      RejectAllKeeps(Settle(c, c.pending[0], ByDispose));
    }
  }

  lemma SendCallKeeps(c: Client, id: nat, c0: Client)
    requires ClientOk(c0) && id in c0.asked && c0.asked[id].Call? && id !in c0.handlers
    requires c == c0.(waiting := c.waiting) && c.waiting == c0.waiting - {id}
    ensures ClientCore(SendCall(c, id).0)
  {
    hide Distinct, OncePerId, GoodMeans, SettledIds;
  }

  lemma InvokeKeeps(c: Client, channel: string, name: string, arg: string, cancelled: bool)
    requires ClientOk(c) && !c.disposed
    ensures ClientOk(Invoke(c, channel, name, arg, cancelled).0)
  {
    var id := c.nextId;
    if cancelled {
      SettledSnoc(c.settled, Settlement(id, CancelledBefore));
      assert id !in SettledIds(c.settled);
      hide Distinct, OncePerId, SettledIds;
    } else {
      var c1 := c.(nextId := id + 1, pending := c.pending + [id], asked := c.asked[id := Call(id, channel, name, arg)],
                   waiting := c.waiting + {id});
      assert id !in c.pending && id !in c.handlers && id !in c.waiting;
      assert ClientCore(c1) by { CallAsked(c, c1, Call(id, channel, name, arg)); }
      assert c1.waiting - {id} == c.waiting;
      SendCallKeeps(c1.(waiting := c.waiting), id, c1);
    }
  }

  /** A new call, held for Initialize. */
  lemma CallAsked(c: Client, c1: Client, request: Request)
    requires ClientCore(c) && request.Call? && request.id == c.nextId
    requires c1 == c.(nextId := c.nextId + 1, pending := c.pending + [c.nextId], asked := c.asked[c.nextId := request],
                      waiting := c.waiting + {c.nextId})
    ensures ClientCore(c1)
  {
    assert c.nextId !in c.pending;
    assert Distinct(c1.pending);
    hide Distinct, OncePerId, SettledIds;
    forall s | s in c.settled ensures GoodMeans(s, c1.asked) {
      assert GoodMeans(s, c.asked);
    }
  }

  lemma SubscribeKeeps(c: Client, channel: string, name: string, arg: string)
    requires ClientOk(c)
    ensures ClientOk(Subscribe(c, channel, name, arg).0)
  {
    hide Distinct, OncePerId, SettledIds;
    var c' := Subscribe(c, channel, name, arg).0;
    assert c.nextId !in c.pending;
    forall s | s in c.settled ensures GoodMeans(s, c'.asked) {
      assert GoodMeans(s, c.asked);
    }
  }

  lemma UnsubscribeKeeps(c: Client, id: nat)
    requires ClientOk(c) && id in c.handlers && c.handlers[id].ForEvent?
    ensures ClientOk(Unsubscribe(c, id).0)
  {
    hide Distinct, OncePerId, SettledIds, GoodMeans;
  }

  lemma DeferredKeeps(c: Client, id: nat)
    requires ClientOk(c) && id in c.waiting && id in c.asked
    ensures ClientOk(Deferred(c, id).0)
  {
    hide Distinct, OncePerId, SettledIds, GoodMeans;
    if c.asked[id].Call? {
      assert id !in c.handlers;
      SendCallKeeps(c.(waiting := c.waiting - {id}), id, c);
    }
  }

  lemma CancelKeeps(c: Client, id: nat)
    requires ClientOk(c)
    ensures ClientOk(Cancel(c, id).0)
  {
    if id in c.pending { SettleKeeps(c, id, ByCancel); }
  }

  lemma DisposeKeeps(c: Client)
    requires ClientOk(c)
    ensures ClientOk(DisposeClient(c)) && DisposeClient(c).pending == []
    ensures DisposeClient(c).asked == c.asked && DisposeClient(c).waiting == c.waiting
  {
    if !c.disposed {
      RejectAllKeeps(c.(disposed := true));
      DisposedStays(c.(disposed := true), c.pending);
    }
  }

  lemma {:induction false} DisposedStays(c: Client, ids: seq<nat>)
    ensures RejectAll(c, ids).disposed == c.disposed
    decreases |ids|
  {
    if ids != [] { DisposedStays(Settle(c, ids[0], ByDispose), ids[1..]); }
  }

  /** A response on its way: made for the request it will be matched with. */
  predicate ResponseOk(response: Response, asked: map<nat, Request>) {
    && (response.PromiseResult? ==>
          response.id in asked && asked[response.id].Call? && response.cause == asked[response.id])
    && (response.EventFire? ==>
          response.id in asked && asked[response.id].Listen? && response.cause == asked[response.id])
  }

  lemma OnResponseKeeps(c: Client, response: Response)
    requires ClientOk(c) && !c.disposed && ResponseOk(response, c.asked)
    ensures ClientOk(OnResponse(c, response))
  {
    if response.PromiseResult? && response.id in c.handlers && c.handlers[response.id].ForCall? {
      SettleKeeps(c, response.id, ByResponse(response));
    }
  }

  // -------------------------------------------------------------------------
  // The server and the wires
  // -------------------------------------------------------------------------

  /** An opening request is the one the client asked under its id, and has left the client. */
  predicate Sent(request: Request, c: Client) {
    request.Opens() && request.id in c.asked && c.asked[request.id] == request && request.id !in c.waiting
  }

  predicate WireOk(s: System) {
    && (forall r :: r in s.toServer && r.Opens() ==> Sent(r, s.client))
    && (forall r :: r in s.toClient ==> ResponseOk(r, s.client.asked))
    && (forall r :: r in s.taken && r.Opens() ==> Sent(r, s.client))
    && (forall r :: r in s.delivered ==> ResponseOk(r, s.client.asked))
  }

  predicate ServerOk(v: Server, c: Client) {
    && (forall r :: r in v.running ==> Sent(r, c) && r.Call?)
    && (forall r :: r in v.listening ==> Sent(r, c) && r.Listen?)
    && (forall r :: r in v.invoked ==> Sent(r, c))
    && (forall ch :: ch in v.parked ==> forall p :: p in v.parked[ch] ==> Sent(p.request, c) && p.request.channel == ch)
    && v.flushes <= v.channels
  }

  /** A response that will settle the call is on its way. */
  predicate Answering(toClient: seq<Response>, id: nat) {
    exists k :: 0 <= k < |toClient| && toClient[k].PromiseResult? && toClient[k].id == id
  }

  /** Where the answer to a pending call will come from. */
  predicate Located(s: System, id: nat)
    requires id in s.client.asked
  {
    || id in s.client.waiting
    || var r := s.client.asked[id];
       || r in s.toServer
       || (r.Opens() && Parked(r, true) in ParkedFor(s.server, r.channel))
       || r in s.server.running
       || Answering(s.toClient, id)
  }

  predicate NobodyOrphaned(s: System)
    requires PendingOk(s.client)
  {
    forall id :: id in s.client.pending ==> Located(s, id)
  }

  predicate Inv(s: System) {
    ClientOk(s.client) && WireOk(s) && ServerOk(s.server, s.client) && NobodyOrphaned(s)
  }

  // Steps of the client.

  /** The client goes on: what it asked stays asked, what it sends was asked, and what was waiting waits or is sent. */
  predicate GoesOn(c: Client, c': Client, sent: seq<Request>) {
    && (forall id :: id in c.asked ==> id in c'.asked && c'.asked[id] == c.asked[id])
    && (forall r :: r in sent && r.Opens() ==> Sent(r, c'))
    && (forall id :: id in c.asked && id !in c.waiting ==> id !in c'.waiting)
    && (forall id :: id in c'.pending ==>
          || id in c'.waiting
          || (id in c'.asked && c'.asked[id] in sent)
          || (id in c.pending && id !in c.waiting))
  }

  lemma ClientStepKeeps(s: System, c': Client, sent: seq<Request>)
    requires Inv(s) && ClientOk(c') && GoesOn(s.client, c', sent)
    ensures Inv(s.(client := c', toServer := s.toServer + sent))
  {
    hide Distinct, OncePerId, SettledIds, GoodMeans, SettledOk, AllAccounted, HandlersOk;
    var s' := s.(client := c', toServer := s.toServer + sent);
    forall r | Sent(r, s.client) ensures Sent(r, c') {}
    forall id | id in c'.pending ensures Located(s', id) {
      if id !in c'.waiting && !(c'.asked[id] in sent) {
        assert Located(s, id);
      }
    }
  }

  lemma InvokeGoesOn(c: Client, channel: string, name: string, arg: string, cancelled: bool)
    requires ClientOk(c) && !c.disposed
    ensures var (c', sent) := Invoke(c, channel, name, arg, cancelled); GoesOn(c, c', sent)
  {
  }

  lemma SubscribeGoesOn(c: Client, channel: string, name: string, arg: string)
    requires ClientOk(c)
    ensures var (c', sent) := Subscribe(c, channel, name, arg); GoesOn(c, c', sent)
  {
  }

  lemma DeferredGoesOn(c: Client, id: nat)
    requires ClientOk(c) && id in c.waiting && id in c.asked
    ensures var (c', sent) := Deferred(c, id); GoesOn(c, c', sent)
  {
  }

  lemma CancelGoesOn(c: Client, id: nat)
    requires ClientOk(c)
    ensures var (c', sent) := Cancel(c, id); GoesOn(c, c', sent)
  {
  }

  lemma DeliverKeeps(s: System)
    requires Inv(s) && s.toClient != [] && !s.client.disposed
    ensures Inv(Next(s, Deliver))
  {
    var response, s' := s.toClient[0], Next(s, Deliver);
    assert response in s.toClient;
    forall id | Answering(s.toClient, id) && !(response.PromiseResult? && response.id == id) ensures Answering(s'.toClient, id) {
      var k :| 0 <= k < |s.toClient| && s.toClient[k].PromiseResult? && s.toClient[k].id == id;
      assert s'.toClient[k - 1] == s.toClient[k];
    }
    assert forall r :: r in s'.toClient ==> r in s.toClient;
    hide ClientOk, ServerOk, OnResponse, NobodyOrphaned, Answering;
    ResponseTaken(s, s', response);
  }

  lemma RedeliverKeeps(s: System, k: nat)
    requires Inv(s) && k < |s.delivered| && !s.client.disposed
    ensures Inv(Next(s, Redeliver(k)))
  {
    assert s.delivered[k] in s.delivered;
    hide ClientOk, ServerOk, OnResponse, NobodyOrphaned, Answering;
    ResponseTaken(s, Next(s, Redeliver(k)), s.delivered[k]);
  }

  /** A response taken off the wire, or once more: nobody's answer is lost but that of the call it settles. */
  lemma ResponseTaken(s: System, s': System, response: Response)
    requires Inv(s) && !s.client.disposed && ResponseOk(response, s.client.asked)
    requires s' == s.(client := OnResponse(s.client, response), toClient := s'.toClient, delivered := s'.delivered)
    requires forall r :: r in s'.toClient ==> r in s.toClient
    requires forall r :: r in s'.delivered ==> r in s.delivered || r == response
    requires forall id :: Answering(s.toClient, id) && !(response.PromiseResult? && response.id == id) ==> Answering(s'.toClient, id)
    ensures Inv(s')
  {
    OnResponseKeeps(s.client, response);
    ResponseKeepsAsked(s.client, response);
    SameSent(s.server, s.client, s'.client);
    hide ServerOk, OnResponse, ResponseOk, Answering;
    StillLocated(s, s', response);
    hide ClientOk, NobodyOrphaned;
  }

  lemma ResponseKeepsAsked(c: Client, response: Response)
    ensures OnResponse(c, response).asked == c.asked && OnResponse(c, response).waiting == c.waiting
  {
  }

  lemma StillLocated(s: System, s': System, response: Response)
    requires Inv(s) && ClientOk(s'.client)
    requires s'.client == OnResponse(s.client, response) && s'.server == s.server && s'.toServer == s.toServer
    requires forall id :: Answering(s.toClient, id) && !(response.PromiseResult? && response.id == id) ==> Answering(s'.toClient, id)
    ensures NobodyOrphaned(s')
  {
    PendingLeft(s.client, response);
    ResponseKeepsAsked(s.client, response);
    hide OnResponse, ServerOk, WireOk, Answering;
    forall id | id in s'.client.pending ensures Located(s', id) {
      assert Located(s, id);
    }
  }

  /** After a response, who is still pending was, and was not the one it settles. */
  lemma PendingLeft(c: Client, response: Response)
    requires ClientOk(c)
    ensures forall id :: id in OnResponse(c, response).pending ==> id in c.pending
    ensures forall id :: id in OnResponse(c, response).pending && id !in c.waiting ==>
      !(response.PromiseResult? && response.id == id)
  {
  }

  lemma SameSent(v: Server, c: Client, c': Client)
    requires ServerOk(v, c) && c'.asked == c.asked && c'.waiting == c.waiting
    ensures ServerOk(v, c')
  {
  }

  // Steps of the server.

  /** The server goes on: every call it had to answer it still has, or has just answered. */
  lemma ServerStepKeeps(s: System, s': System)
    requires Inv(s) && s'.client == s.client
    requires WireOk(s') && ServerOk(s'.server, s.client)
    requires forall id :: id in s.client.pending && Located(s, id) ==> Located(s', id)
    ensures Inv(s')
  {
  }

  lemma OpenKeeps(v: Server, request: Request, c: Client)
    requires ServerOk(v, c) && Sent(request, c)
    ensures ServerOk(Open(v, request), c)
    ensures var v' := Open(v, request);
      && v'.channels == v.channels
      && (forall r :: r in v.running ==> r in v'.running)
      && (forall r: Request, p :: r.Opens() && p in ParkedFor(v, r.channel) ==> p in ParkedFor(v', r.channel))
      && (request.Call? ==> request in v'.running || Parked(request, true) in ParkedFor(v', request.channel))
      && (request.channel in v.channels ==> v'.parked == v.parked && (request.Call? ==> request in v'.running))
  {
  }

  lemma TakeKeeps(s: System)
    requires Inv(s) && Enabled(s, Take)
    ensures Inv(Next(s, Take))
  {
    var request := s.toServer[0];
    assert request in s.toServer;
    var s' := Next(s, Take);
    assert s.toServer == [request] + s.toServer[1..];
    hide ClientOk;
    if request.Opens() {
      OpenKeeps(s.server, request, s.client);
    }
    ServerStepKeeps(s, s');
  }

  lemma RetakeKeeps(s: System, k: nat)
    requires Inv(s) && Enabled(s, Retake(k))
    ensures Inv(Next(s, Retake(k)))
  {
    assert s.taken[k] in s.taken;
    hide ClientOk;
    if s.taken[k].Opens() {
      OpenKeeps(s.server, s.taken[k], s.client);
    }
    ServerStepKeeps(s, Next(s, Retake(k)));
  }

  lemma {:induction false} HandOverAllKeeps(v: Server, requests: seq<Parked>, channel: string, c: Client)
    requires ServerOk(v, c) && channel in v.channels
    requires forall p :: p in requests ==> Sent(p.request, c) && p.request.channel == channel
    ensures forall i :: 0 <= i < |requests| ==> requests[i].request.Opens()
    ensures var v' := HandOverAll(v, requests);
      && ServerOk(v', c) && v'.parked == v.parked && v'.channels == v.channels && v'.flushes == v.flushes
      && (forall r :: r in v.running ==> r in v'.running)
      && (forall p :: p in requests && p.request.Call? ==> p.request in v'.running)
    decreases |requests|
  {
    forall i | 0 <= i < |requests| ensures requests[i].request.Opens() {
      assert requests[i] in requests;
    }
    if requests != [] {
      hide ServerOk, Sent;
      assert requests[0] in requests;
      OpenKeeps(v, requests[0].request, c);
      OpenSame(v, requests[0].request);
      HandOverAllKeeps(Open(v, requests[0].request), requests[1..], channel, c);
    }
  }

  lemma OpenSame(v: Server, request: Request)
    requires request.Opens()
    ensures Open(v, request).flushes == v.flushes
  {
  }

  lemma FlushKeeps(s: System, channel: string)
    requires Inv(s) && Enabled(s, DoFlush(channel))
    ensures Inv(Next(s, DoFlush(channel)))
  {
    var v, c, entries := s.server, s.client, ParkedFor(s.server, channel);
    HandOverAllKeeps(v, entries, channel, c);
    var s' := Next(s, DoFlush(channel));
    hide ClientOk, HandOverAll;
    forall id | id in c.pending && Located(s, id) ensures Located(s', id) {
      var r := c.asked[id];
      if r.Opens() && Parked(r, true) in ParkedFor(v, r.channel) && r.channel == channel {
        assert r in s'.server.running;
      }
    }
    ServerStepKeeps(s, s');
  }

  lemma TimeoutSound(s: System, channel: string, i: nat)
    requires Inv(s) && Enabled(s, DoTimeout(channel, i))
    ensures var s' := Next(s, DoTimeout(channel, i)); WireOk(s') && ServerOk(s'.server, s.client)
  {
    hide ClientOk, NobodyOrphaned;
    var list := s.server.parked[channel];
    assert list[i] in list;
    assert forall p :: p in list[i := list[i].(timer := false)] ==> p in list || p == list[i].(timer := false);
  }

  lemma TimeoutKeeps(s: System, channel: string, i: nat)
    requires Inv(s) && Enabled(s, DoTimeout(channel, i))
    ensures Inv(Next(s, DoTimeout(channel, i)))
  {
    TimeoutSound(s, channel, i);
    hide ClientOk, WireOk, ServerOk, Answering;
    var c, list, s' := s.client, s.server.parked[channel], Next(s, DoTimeout(channel, i));
    AnsweringGrows(s.toClient, s'.toClient);
    forall id | id in c.pending && Located(s, id) ensures Located(s', id) {
      var r := c.asked[id];
      if r.Opens() && Parked(r, true) in ParkedFor(s.server, r.channel) && r.channel == channel {
        var k :| 0 <= k < |list| && list[k] == Parked(r, true);
        if k == i {
          PendingIsCall(s, id);
          AnsweringNow(s.toClient, PromiseResult(id, Threw("Unknown channel"), r));
        } else {
          assert s'.server.parked[channel][k] == Parked(r, true);
        }
      }
    }
    ServerStepKeeps(s, s');
  }

  lemma PendingIsCall(s: System, id: nat)
    requires Inv(s) && id in s.client.pending
    ensures id in s.client.asked && s.client.asked[id].Call? && s.client.asked[id].id == id
  {
    hide Distinct, SettledOk, AllAccounted;
  }

  lemma AnsweringNow(toClient: seq<Response>, response: Response)
    requires response.PromiseResult?
    ensures Answering(toClient + [response], response.id)
  {
    assert (toClient + [response])[|toClient|] == response;
  }

  lemma AnsweringGrows(toClient: seq<Response>, toClient': seq<Response>)
    requires toClient <= toClient'
    ensures forall id :: Answering(toClient, id) ==> Answering(toClient', id)
  {
  }

  lemma CompleteSound(s: System, i: nat, outcome: Outcome)
    requires Inv(s) && i < |s.server.running|
    ensures var s' := Next(s, DoComplete(i, outcome)); WireOk(s') && ServerOk(s'.server, s.client)
  {
    hide ClientOk, NobodyOrphaned;
    assert s.server.running[i] in s.server.running;
    assert forall r :: r in Next(s, DoComplete(i, outcome)).server.running ==> r in s.server.running;
  }

  lemma CompleteKeeps(s: System, i: nat, outcome: Outcome)
    requires Inv(s) && i < |s.server.running|
    ensures Inv(Next(s, DoComplete(i, outcome)))
  {
    CompleteSound(s, i, outcome);
    hide ClientOk, WireOk, ServerOk, Answering;
    var running, request, s' := s.server.running, s.server.running[i], Next(s, DoComplete(i, outcome));
    AnsweringGrows(s.toClient, s'.toClient);
    AnsweringNow(s.toClient, PromiseResult(request.id, outcome, request));
    forall r | r in running && r != request ensures r in s'.server.running {
      var k :| 0 <= k < |running| && running[k] == r;
      assert s'.server.running[if k < i then k else k - 1] == r;
    }
    forall id | id in s.client.pending && Located(s, id) ensures Located(s', id) {
      PendingIsCall(s, id);
    }
    ServerStepKeeps(s, s');
  }

  lemma OtherServerSteps(s: System, step: Step)
    requires Inv(s) && Enabled(s, step)
    requires step.DoRegister? || step.DoFire? || step.Ready? || step.DoDisposeServer?
    ensures Inv(Next(s, step))
  {
    hide ClientOk;
    var s' := Next(s, step);
    AnsweringGrows(s.toClient, s'.toClient);
    if step.DoFire? {
      assert s.server.listening[step.index] in s.server.listening;
    }
    ServerStepKeeps(s, s');
  }

  lemma DisposeClientKeeps(s: System)
    requires Inv(s)
    ensures Inv(Next(s, DoDisposeClient))
  {
    DisposeKeeps(s.client);
    SameSent(s.server, s.client, DisposeClient(s.client));
    hide ClientOk, ServerOk, DisposeClient;
  }

  lemma ClientSteps(s: System, step: Step)
    requires Inv(s) && Enabled(s, step)
    requires step.DoInvoke? || step.DoSubscribe? || step.DoUnsubscribe? || step.DoDeferred? || step.DoCancel?
    ensures Inv(Next(s, step))
  {
    var c := s.client;
    hide ClientCore, Inv, GoesOn, Invoke, Subscribe, Deferred, Cancel;
    InvClient(s);
    match step
    case DoInvoke(channel, name, arg, cancelled) =>
      var (c', sent) := Invoke(c, channel, name, arg, cancelled);
      InvokeKeeps(c, channel, name, arg, cancelled);
      InvokeGoesOn(c, channel, name, arg, cancelled);
      ClientStepKeeps(s, c', sent);
    case DoSubscribe(channel, name, arg) =>
      var (c', sent) := Subscribe(c, channel, name, arg);
      SubscribeKeeps(c, channel, name, arg);
      SubscribeGoesOn(c, channel, name, arg);
      ClientStepKeeps(s, c', sent);
    case DoUnsubscribe(id) =>
      var (c', sent) := Unsubscribe(c, id);
      UnsubscribeKeeps(c, id);
      UnsubscribeGoesOn(c, id);
      ClientStepKeeps(s, c', sent);
    case DoDeferred(id) =>
      var (c', sent) := Deferred(c, id);
      DeferredKeeps(c, id);
      DeferredGoesOn(c, id);
      ClientStepKeeps(s, c', sent);
    case DoCancel(id) =>
      var (c', sent) := Cancel(c, id);
      CancelKeeps(c, id);
      CancelGoesOn(c, id);
      ClientStepKeeps(s, c', sent);
  }

  lemma InvClient(s: System)
    requires Inv(s)
    ensures ClientOk(s.client)
  {
  }

  lemma UnsubscribeGoesOn(c: Client, id: nat)
    requires ClientOk(c) && id in c.handlers && c.handlers[id].ForEvent?
    ensures var (c', sent) := Unsubscribe(c, id); GoesOn(c, c', sent)
  {
  }

  lemma StepKeeps(s: System, step: Step)
    requires Inv(s) && Enabled(s, step)
    ensures Inv(Next(s, step))
  {
    hide Inv, Next, Enabled;
    match step
    case Deliver => DeliverEnabled(s); DeliverKeeps(s);
    case Take => TakeKeeps(s);
    case Redeliver(k) => RedeliverEnabled(s, k); RedeliverKeeps(s, k);
    case Retake(k) => RetakeKeeps(s, k);
    case DoFlush(channel) => FlushKeeps(s, channel);
    case DoTimeout(channel, i) => TimeoutKeeps(s, channel, i);
    case DoComplete(i, outcome) => CompleteEnabled(s, i, outcome); CompleteKeeps(s, i, outcome);
    case DoDisposeClient => DisposeClientKeeps(s);
    case DoRegister(_) => OtherServerSteps(s, step);
    case DoFire(_, _) => OtherServerSteps(s, step);
    case Ready => OtherServerSteps(s, step);
    case DoDisposeServer => OtherServerSteps(s, step);
    case _ => ClientSteps(s, step);
  }

  lemma DeliverEnabled(s: System)
    requires Enabled(s, Deliver)
    ensures s.toClient != [] && !s.client.disposed
  {
  }

  lemma RedeliverEnabled(s: System, k: nat)
    requires Enabled(s, Redeliver(k))
    ensures k < |s.delivered| && !s.client.disposed
  {
  }

  lemma CompleteEnabled(s: System, i: nat, outcome: Outcome)
    requires Enabled(s, DoComplete(i, outcome))
    ensures i < |s.server.running|
  {
  }

  lemma {:induction false} RunKeeps(s: System, steps: seq<Step>)
    requires Inv(s)
    ensures Inv(Run(s, steps))
    decreases |steps|
  {
    if steps != [] {
      hide Inv, Next, Enabled;
      if Enabled(s, steps[0]) {
        StepKeeps(s, steps[0]);
        RunKeeps(Next(s, steps[0]), steps[1..]);
      } else {
        RunKeeps(s, steps[1..]);
      }
    }
  }

  // -------------------------------------------------------------------------
  // Guarantees over every run
  // -------------------------------------------------------------------------

  lemma Reachable(steps: seq<Step>)
    ensures Inv(Run(START, steps))
  {
    assert SettledIds([]) == {};
    RunKeeps(START, steps);
  }

  /**
   Settlement. Over every run, whatever is delivered again: no id is settled twice; an id settled is no longer pending, and every
   call's id is one or the other; a settlement is a cancel, a dispose, or a response made for that
   id's own request; and once the client is disposed nothing is pending.
   */
  lemma SettledOnceForGoodReason(steps: seq<Step>)
    ensures var c := Run(START, steps).client;
      && (forall i, j :: 0 <= i < j < |c.settled| ==> c.settled[i].id != c.settled[j].id)
      && (forall i :: 0 <= i < |c.settled| ==> c.settled[i].id !in c.pending && GoodMeans(c.settled[i], c.asked))
      && (forall id: nat :: id < c.nextId ==>
            (id in c.asked && c.asked[id].Listen?) || id in c.pending || id in SettledIds(c.settled))
      && (c.disposed ==> c.pending == [])
  {
    Reachable(steps);
    var c := Run(START, steps).client;
    forall i | 0 <= i < |c.settled| ensures c.settled[i].id !in c.pending && GoodMeans(c.settled[i], c.asked) {
      assert c.settled[i] in c.settled;
    }
  }

  /** After dispose no step settles anything, and no new id is given out. */
  lemma DisposedIsFinal(steps: seq<Step>, step: Step)
    requires Run(START, steps).client.disposed && Enabled(Run(START, steps), step)
    ensures var s := Run(START, steps);
      && Next(s, step).client.settled == s.client.settled
      && Next(s, step).client.nextId == s.client.nextId
      && Next(s, step).client.disposed
  {
    Reachable(steps);
    hide Run;
  }

  /** A pending call is never orphaned: its request is held, on the wire, parked with a live timer or running, or its response is on the way. */
  lemma PendingIsLocated(steps: seq<Step>, id: nat)
    requires id in Run(START, steps).client.pending
    ensures var s := Run(START, steps); id in s.client.asked && Located(s, id)
  {
    Reachable(steps);
  }
}
