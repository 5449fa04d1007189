/** `ProviderRegistryService`: the refresh steps carried out on the service's fields. */
module RegistryService {
  import opened RefreshWaiters
  import opened RegistryRefresh
  import opened Prelude

  class ProviderRegistryService {
    var started: bool
    var disposed: bool
    var requestedGeneration: nat
    var completedGeneration: nat
    var refreshWaiters: seq<Waiter>
    var snapshot: Option<Snapshot>
    var refreshInFlight: Phase
    // History: rounds of reads begun, promises settled, snapshots published.
    var rounds: nat
    var answers: seq<Answer<Snapshot, Basis>>
    var published: seq<Snapshot>

    ghost function View(): State
      reads this
    {
      State(started, disposed, requestedGeneration, completedGeneration, refreshWaiters, snapshot, refreshInFlight,
            rounds, answers, published)
    }

    constructor ()
      ensures View() == INITIAL
    {
      started, disposed := false, false;
      requestedGeneration, completedGeneration := 0, 0;
      refreshWaiters, snapshot, refreshInFlight := [], None, NoLoop;
      rounds, answers, published := 0, [], [];
    }

    method OnStart()
      requires !disposed
      modifies this
      ensures View() == Next(old(View()), Start)
    {
      if !started {
        started := true;
        RequestRefresh();
        return;
      }
      if snapshot.None? {
        RequestRefresh();
      }
    }

    method OnRefresh()
      requires !disposed && started
      modifies this
      ensures View() == Next(old(View()), Refresh)
    {
      RequestRefresh();
    }

    method RefreshFromSource()
      requires started
      modifies this
      ensures View() == Next(old(View()), SourceChanged)
    {
      if disposed {
        return;
      }
      RequestRefresh();
    }

    method RequestRefresh()
      modifies this
      ensures View() == Request(old(View()))
    {
      var generation := requestedGeneration + 1;
      requestedGeneration := generation;
      refreshWaiters := refreshWaiters + [Waiter(generation, rounds)];
      EnsureRefreshLoop();
    }

    method EnsureRefreshLoop()
      modifies this
      ensures View() == EnsureLoop(old(View()))
    {
      if refreshInFlight != NoLoop || disposed {
        return;
      }
      TestLoopCondition();
    }

    method TestLoopCondition()
      modifies this
      ensures View() == TestLoop(old(View()))
    {
      if completedGeneration < requestedGeneration {
        refreshInFlight := Reading(requestedGeneration, rounds);
        rounds := rounds + 1;
      } else {
        refreshInFlight := Ended(false);
      }
    }

    method OnReadsFailed(errorListenerThrows: bool)
      requires refreshInFlight.Reading?
      modifies this
      ensures View() == Next(old(View()), ReadsFail(errorListenerThrows))
    {
      var generation := refreshInFlight.generation;
      if generation < requestedGeneration {
        refreshInFlight := AtTest;
        return;
      }
      Fail(generation, errorListenerThrows);
    }

    method Fail(generation: nat, errorListenerThrows: bool)
      modifies this
      ensures View() == Failed(old(View()), generation, errorListenerThrows)
    {
      completedGeneration := generation;
      if errorListenerThrows {
        refreshInFlight := Ended(true);
        return;
      }
      RejectRefreshWaiters(generation);
      refreshInFlight := Ended(false);
    }

    method OnReadsArrived(config: Config, account: Account, publication: Publication, errorListenerThrows: bool)
      requires refreshInFlight.Reading?
      modifies this
      ensures View() == Next(old(View()), ReadsArrive(config, account, publication, errorListenerThrows))
    {
      var generation := refreshInFlight.generation;
      var round := refreshInFlight.round;
      var found := Snapshot(config, account);
      hide ResolveDue, Failed, Published;
      if generation < requestedGeneration {
        refreshInFlight := AtTest;
        return;
      }
      if disposed {
        refreshInFlight := Ended(true);
        return;
      }
      if account.basedOn != config.builtinRevision {
        completedGeneration := generation;
        refreshInFlight := AtTest;
        if snapshot.Some? {
          ResolveRefreshWaiters(generation, snapshot.value, round, found);
        }
        return;
      }
      if snapshot.Some? && snapshot.value.config.revision == config.revision
         && snapshot.value.account.revision == account.revision {
        completedGeneration := generation;
        refreshInFlight := AtTest;
        ResolveRefreshWaiters(generation, snapshot.value, round, found);
        return;
      }
      if publication == ResolverThrows {
        Fail(generation, errorListenerThrows);
        return;
      }
      Publish(generation, round, found, publication, errorListenerThrows);
    }

    method Publish(generation: nat, round: nat, found: Snapshot, publication: Publication, errorListenerThrows: bool)
      modifies this
      ensures View() == Published(old(View()), generation, round, found, publication, errorListenerThrows)
    {
      hide ResolveDue, Failed;
      snapshot := Some(found);
      published := published + [found];
      completedGeneration := generation;
      ResolveRefreshWaiters(generation, found, round, found);
      if publication == ChangeListenerThrows {
        Fail(generation, errorListenerThrows);
        return;
      }
      refreshInFlight := AtTest;
    }

    method FinishRefresh()
      requires refreshInFlight.Ended?
      modifies this
      ensures View() == Next(old(View()), Finish)
    {
      if refreshInFlight.threw {
        RejectRefreshWaiters(requestedGeneration);
      }
      refreshInFlight := NoLoop;
      if completedGeneration < requestedGeneration {
        EnsureRefreshLoop();
      }
    }

    method Dispose()
      modifies this
      ensures View() == Disposed(old(View()))
    {
      if disposed {
        return;
      }
      disposed := true;
      answers := answers + Rejections(refreshWaiters);
      refreshWaiters := [];
    }

    method ResolveRefreshWaiters(generation: nat, value: Snapshot, round: nat, found: Snapshot)
      modifies this`refreshWaiters, this`answers
      ensures View() == ResolveDue(old(View()), generation, value, round, found)
    {
      refreshWaiters, answers := ResolveEach(refreshWaiters, generation, answers, value, round, Basis(found, |published|));
    }

    method RejectRefreshWaiters(generation: nat)
      modifies this`refreshWaiters, this`answers
      ensures View() == RejectDue(old(View()), generation)
    {
      refreshWaiters, answers := RejectEach(refreshWaiters, generation, answers);
    }
  }
}
