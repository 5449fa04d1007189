/** `ChannelClient` and `ChannelServer`: the two ends carried out on their fields. */
module ChannelEnds {
  import opened Channels

  class ChannelClient {
    var initialized: bool
    var isDisposed: bool
    var lastRequestId: nat
    var handlers: map<nat, Handler>
    var pendingRejections: seq<nat>
    var waiting: set<nat>
    var asked: map<nat, Request>
    var settled: seq<Settlement>
    var heard: seq<Heard>
    var outgoing: seq<Request>

    ghost function View(): Client
      reads this
    {
      Client(initialized, isDisposed, lastRequestId, handlers, pendingRejections, waiting, asked, settled, heard)
    }

    /** The state after a move, and the requests it put on the wire. */
    twostate predicate Moved(move: (Client, seq<Request>))
      reads this
    {
      View() == move.0 && outgoing == old(outgoing) + move.1
    }

    constructor ()
      ensures View() == NEW_CLIENT && outgoing == []
    {
      initialized, isDisposed, lastRequestId := false, false, 0;
      handlers, pendingRejections, waiting := map[], [], {};
      asked, settled, heard, outgoing := map[], [], [], [];
    }

    method RequestPromise(channel: string, name: string, arg: string, cancellationRequested: bool) returns (id: nat)
      requires !isDisposed
      modifies this
      ensures id == old(lastRequestId)
      ensures Moved(Invoke(old(View()), channel, name, arg, cancellationRequested))
    {
      id := lastRequestId;
      lastRequestId := lastRequestId + 1;
      if cancellationRequested {
        settled := settled + [Settlement(id, CancelledBefore)];
        return;
      }
      pendingRejections := pendingRejections + [id];
      asked := asked[id := Call(id, channel, name, arg)];
      if initialized {
        DoRequest(id);
      } else {
        waiting := waiting + {id};
      }
    }

    method DoRequest(id: nat)
      requires id in asked
      modifies this
      ensures Moved(SendCall(old(View()), id))
    {
      if isDisposed || id !in pendingRejections {
        return;
      }
      handlers := handlers[id := ForCall];
      outgoing := outgoing + [asked[id]];
    }

    method RequestEvent(channel: string, name: string, arg: string) returns (id: nat)
      requires !isDisposed
      modifies this
      ensures Moved(Channels.Subscribe(old(View()), channel, name, arg))
    {
      id := lastRequestId;
      lastRequestId := lastRequestId + 1;
      handlers := handlers[id := ForEvent];
      var request := Listen(id, channel, name, arg);
      asked := asked[id := request];
      if initialized {
        outgoing := outgoing + [request];
      } else {
        waiting := waiting + {id};
      }
    }

    method LastListenerRemoved(id: nat)
      modifies this
      ensures Moved(Unsubscribe(old(View()), id))
    {
      outgoing := outgoing + [EventDispose(id)];
      handlers := handlers - {id};
    }

    /** What `whenInitialized` put off. */
    method RunDeferred(id: nat)
      requires id in asked
      modifies this
      ensures Moved(Deferred(old(View()), id))
    {
      waiting := waiting - {id};
      if asked[id].Call? {
        DoRequest(id);
      } else {
        outgoing := outgoing + [asked[id]];
      }
    }

    method SettleCall(id: nat, means: Means)
      modifies this`handlers, this`pendingRejections, this`settled
      ensures View() == Settle(old(View()), id, means)
    {
      handlers := handlers - {id};
      DeletePending(id);
      settled := settled + [Settlement(id, means)];
    }

    method DeletePending(id: nat)
      modifies this`pendingRejections
      ensures pendingRejections == Remove(old(pendingRejections), id)
    {
      var rest := [];
      var i := 0;
      while i < |pendingRejections|
        invariant 0 <= i <= |pendingRejections| && pendingRejections == old(pendingRejections)
        invariant rest + Remove(pendingRejections[i..], id) == Remove(pendingRejections, id)
      {
        assert pendingRejections[i..][1..] == pendingRejections[i + 1..];
        if pendingRejections[i] != id {
          rest := rest + [pendingRejections[i]];
        }
        i := i + 1;
      }
      pendingRejections := rest;
    }

    method OnCancellationRequested(id: nat)
      modifies this
      ensures Moved(Cancel(old(View()), id))
    {
      if id !in pendingRejections {
        return;
      }
      outgoing := outgoing + [PromiseCancel(id)];
      SettleCall(id, ByCancel);
    }

    method OnResponse(response: Response)
      modifies this
      ensures View() == Channels.OnResponse(old(View()), response) && outgoing == old(outgoing)
    {
      if response.Initialize? {
        initialized := true;
        return;
      }
      if response.id in handlers && handlers[response.id].ForCall? && response.PromiseResult? {
        SettleCall(response.id, ByResponse(response));
      } else if response.id in handlers && handlers[response.id].ForEvent? && response.EventFire? {
        heard := heard + [Heard(response.id, response.data)];
      }
    }

    method Dispose()
      modifies this
      ensures View() == DisposeClient(old(View())) && outgoing == old(outgoing)
    {
      if isDisposed {
        return;
      }
      isDisposed := true;
      var ids := pendingRejections;
      ghost var target := View();
      var i := 0;
      while i < |ids|
        invariant 0 <= i <= |ids| && outgoing == old(outgoing)
        invariant RejectAll(View(), ids[i..]) == RejectAll(target, ids)
      {
        assert ids[i..][0] == ids[i] && ids[i..][1..] == ids[i + 1..];
        SettleCall(ids[i], ByDispose);
        i := i + 1;
      }
      assert ids[i..] == [];
    }
  }

  lemma UnlistenedPasses(listening: seq<Request>, i: nat, id: nat)
    requires 0 < i <= |listening| && listening[i - 1].id != id
    ensures Unlistened(listening[..i], id) + listening[i..] == Unlistened(listening[..i - 1], id) + listening[i - 1..]
  {
    var before, last := listening[..i - 1], listening[i - 1];
    assert listening[..i][..i - 1] == before;
    assert [last] + listening[i..] == listening[i - 1..];
    assert (Unlistened(before, id) + [last]) + listening[i..] == Unlistened(before, id) + ([last] + listening[i..]);
  }

  lemma UnlistenedFound(listening: seq<Request>, i: nat)
    requires 0 < i <= |listening|
    ensures Unlistened(listening[..i], listening[i - 1].id) == listening[..i - 1]
  {
    assert listening[..i][..i - 1] == listening[..i - 1];
  }

  class ChannelServer {
    var isDisposed: bool
    var channels: set<string>
    var activeRequests: set<nat>
    var running: seq<Request>
    var listening: seq<Request>
    var pendingRequests: map<string, seq<Parked>>
    var flushes: set<string>
    var invoked: seq<Request>
    var outgoing: seq<Response>

    ghost function View(): Server
      reads this
    {
      Server(isDisposed, channels, activeRequests, running, listening, pendingRequests, flushes, invoked)
    }

    constructor (deferInit: bool)
      ensures View() == NEW_SERVER && outgoing == if deferInit then [] else [Initialize]
    {
      isDisposed, channels, activeRequests := false, {}, {};
      running, listening, pendingRequests, flushes, invoked := [], [], map[], {}, [];
      outgoing := if deferInit then [] else [Initialize];
    }

    method SendReady()
      modifies this`outgoing
      ensures outgoing == old(outgoing) + [Initialize]
    {
      outgoing := outgoing + [Initialize];
    }

    method RegisterChannel(channel: string)
      modifies this
      ensures View() == Register(old(View()), channel) && outgoing == old(outgoing)
    {
      channels := channels + {channel};
      flushes := flushes + {channel};
    }

    method OnRawMessage(request: Request)
      modifies this
      ensures View() == OnRequest(old(View()), request) && outgoing == old(outgoing)
    {
      match request
      case Call(_, _, _, _) => OnOpen(request);
      case Listen(_, _, _, _) => OnOpen(request);
      case PromiseCancel(id) => DisposeActiveRequest(id);
      case EventDispose(id) => DisposeActiveRequest(id);
    }

    method OnOpen(request: Request)
      requires request.Opens()
      modifies this
      ensures View() == Open(old(View()), request) && outgoing == old(outgoing)
    {
      if request.channel !in channels {
        CollectPendingRequest(request);
        return;
      }
      activeRequests := activeRequests + {request.id};
      invoked := invoked + [request];
      if request.Call? {
        running := running + [request];
      } else {
        listening := listening + [request];
      }
    }

    method CollectPendingRequest(request: Request)
      requires request.Opens()
      modifies this`pendingRequests
      ensures View() == Park(old(View()), request)
    {
      var list := if request.channel in pendingRequests then pendingRequests[request.channel] else [];
      pendingRequests := pendingRequests[request.channel := list + [Parked(request, true)]];
    }

    method DisposeActiveRequest(id: nat)
      modifies this`activeRequests, this`listening
      ensures View() == DisposeActive(old(View()), id)
    {
      if id !in activeRequests {
        return;
      }
      activeRequests := activeRequests - {id};
      var i := |listening|;
      assert listening[..i] == listening && listening[i..] == [] && Unlistened(listening, id) + [] == Unlistened(listening, id);
      while i > 0 && listening[i - 1].id != id
        invariant 0 <= i <= |listening|
        invariant Unlistened(listening[..i], id) + listening[i..] == Unlistened(listening, id)
        modifies {}
      {
        UnlistenedPasses(listening, i, id);
        i := i - 1;
      }
      if i > 0 {
        UnlistenedFound(listening, i);
        listening := listening[..i - 1] + listening[i..];
      } else {
        assert [] + listening[0..] == listening;
      }
    }

    method FlushPendingRequests(channel: string)
      requires channel in channels
      requires forall p :: p in ParkedFor(View(), channel) ==> p.request.Opens() && p.request.channel in channels
      modifies this
      ensures forall i :: 0 <= i < |ParkedFor(old(View()), channel)| ==> ParkedFor(old(View()), channel)[i].request.Opens()
      ensures View() == Flush(old(View()), channel) && outgoing == old(outgoing)
    {
      ghost var before := View();
      var requests := if channel in pendingRequests then pendingRequests[channel] else [];
      assert forall i :: 0 <= i < |requests| ==> requests[i] in requests;
      var i := 0;
      while i < |requests|
        invariant 0 <= i <= |requests| && outgoing == old(outgoing)
        invariant channels == before.channels && pendingRequests == before.parked && flushes == before.flushes
        invariant HandOverAll(View(), requests[i..]) == HandOverAll(before, requests)
      {
        assert requests[i..][0] == requests[i] && requests[i..][1..] == requests[i + 1..];
        OnOpen(requests[i].request);
        i := i + 1;
      }
      assert requests[i..] == [];
      pendingRequests := pendingRequests - {channel};
      flushes := flushes - {channel};
    }

    method OnTimeout(channel: string, i: nat)
      requires i < |ParkedFor(View(), channel)|
      modifies this
      ensures View() == Timeout(old(View()), channel, i).0
      ensures outgoing == old(outgoing) + Timeout(old(View()), channel, i).1
    {
      var list := pendingRequests[channel];
      var entry := list[i];
      pendingRequests := pendingRequests[channel := list[i := entry.(timer := false)]];
      if entry.request.Call? {
        outgoing := outgoing + [PromiseResult(entry.request.id, Threw("Unknown channel"), entry.request)];
      }
    }

    method OnCompleted(i: nat, outcome: Outcome)
      requires i < |running|
      modifies this
      ensures View() == Complete(old(View()), i, outcome).0
      ensures outgoing == old(outgoing) + Complete(old(View()), i, outcome).1
    {
      var request := running[i];
      outgoing := outgoing + [PromiseResult(request.id, outcome, request)];
      running := running[..i] + running[i + 1..];
      activeRequests := activeRequests - {request.id};
    }

    method Dispose()
      modifies this
      ensures View() == DisposeServer(old(View())) && outgoing == old(outgoing)
    {
      isDisposed := true;
      ghost var active, all := activeRequests, listening;
      var kept: seq<Request> := [];
      var i := |listening|;
      assert listening[..i] == listening && AllUnlistened(all, active) + [] == AllUnlistened(all, active);
      while i > 0
        invariant 0 <= i <= |listening| && listening == all && outgoing == old(outgoing) && isDisposed
        invariant View() == old(View()).(disposed := true, active := activeRequests)
        invariant AllUnlistened(listening[..i], activeRequests) + kept == AllUnlistened(all, active)
      {
        i := i - 1;
        assert listening[..i + 1][..i] == listening[..i];
        if listening[i].id in activeRequests {
          activeRequests := activeRequests - {listening[i].id};
        } else {
          assert (AllUnlistened(listening[..i], activeRequests) + [listening[i]]) + kept
              == AllUnlistened(listening[..i], activeRequests) + ([listening[i]] + kept);
          kept := [listening[i]] + kept;
        }
      }
      listening := kept;
      activeRequests := {};
    }
  }
}
