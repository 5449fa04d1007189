/** `AccountProviderService`: the refresh steps carried out on the service's fields. */
module AccountService {
  import opened RefreshWaiters
  import opened AccountRefresh
  import opened Prelude

  class AccountProviderService {
    var started: bool
    var disposed: bool
    var requestedGeneration: nat
    var pendingReasons: set<string>
    var refreshWaiters: seq<Waiter>
    var snapshot: Option<Account>
    var latest: Option<Account>
    var refreshInFlight: Phase
    // History: rounds begun, promises settled, snapshots published.
    var rounds: nat
    var answers: seq<Answer<Account, Config>>
    var published: seq<Publication>

    ghost function View(): State
      reads this
    {
      State(started, disposed, requestedGeneration, pendingReasons, refreshWaiters, snapshot, latest,
            refreshInFlight, rounds, answers, published)
    }

    constructor ()
      ensures View() == INITIAL
    {
      started, disposed, requestedGeneration, pendingReasons := false, false, 0, {};
      refreshWaiters, snapshot, latest, refreshInFlight := [], None, None, NoLoop;
      rounds, answers, published := 0, [], [];
    }

    method OnRead()
      requires !disposed
      modifies this
      ensures View() == Next(old(View()), Read)
    {
      started := true;
      if snapshot.Some? || !refreshInFlight.NoLoop? {
        return;
      }
      RequestRefresh("start");
    }

    method OnRefresh(reason: string)
      requires !disposed
      modifies this
      ensures View() == Next(old(View()), Refresh(reason))
    {
      started := true;
      RequestRefresh(reason);
    }

    method OnConfigChanged(reason: string)
      requires started && !disposed
      modifies this
      ensures View() == Next(old(View()), ConfigChanged(reason))
    {
      RequestRefresh(reason);
    }

    method RequestRefresh(reason: string)
      modifies this
      ensures View() == Request(old(View()), reason)
    {
      var generation := requestedGeneration + 1;
      requestedGeneration := generation;
      pendingReasons := pendingReasons + {reason};
      refreshWaiters := refreshWaiters + [Waiter(generation, rounds)];
      if refreshInFlight.NoLoop? {
        StartRefresh();
      }
    }

    method StartRefresh()
      modifies this
      ensures View() == StartLoop(old(View()))
    {
      latest := snapshot;
      TestLoopCondition();
    }

    method TestLoopCondition()
      modifies this
      ensures View() == TestLoop(old(View()))
    {
      if pendingReasons != {} {
        refreshInFlight := Reading(requestedGeneration, rounds);
        rounds := rounds + 1;
        pendingReasons := {};
      } else {
        refreshInFlight := Ended;
      }
    }

    method OnConfigArrived(config: Config)
      requires refreshInFlight.Reading?
      modifies this
      ensures View() == Next(old(View()), ConfigArrives(config))
    {
      refreshInFlight := Resolving(refreshInFlight.generation, refreshInFlight.round, config);
    }

    method OnResolved(content: string, errorListenerThrows: bool)
      requires refreshInFlight.Resolving?
      modifies this
      ensures View() == Next(old(View()), Resolves(content, errorListenerThrows))
    {
      if disposed {
        Catch(Some(refreshInFlight.config), errorListenerThrows);
        return;
      }
      refreshInFlight := Rereading(refreshInFlight.generation, refreshInFlight.round, refreshInFlight.config, content);
    }

    method OnReread(current: Config, changeListenerThrows: bool, errorListenerThrows: bool)
      requires refreshInFlight.Rereading?
      modifies this
      ensures View() == Next(old(View()), RereadArrives(current, changeListenerThrows, errorListenerThrows))
    {
      hide ResolveDue, Caught;
      var Rereading(generation, round, config, content) := refreshInFlight;
      if disposed {
        Catch(Some(config), errorListenerThrows);
        return;
      }
      if pendingReasons != {} || current.builtinRevision != config.builtinRevision {
        pendingReasons := pendingReasons + {"superseded-resolution"};
        refreshInFlight := AtTest;
        return;
      }
      var next := Account(config.builtinRevision, content);
      if latest == Some(next) {
        ResolveRefreshWaiters(generation, next, round, config);
        refreshInFlight := AtTest;
        return;
      }
      var hadSnapshot := latest.Some?;
      latest := Some(next);
      snapshot := latest;
      published := published + [Normal(next, generation, requestedGeneration, current)];
      ResolveRefreshWaiters(generation, next, round, config);
      if hadSnapshot && changeListenerThrows {
        Catch(Some(config), errorListenerThrows);
        return;
      }
      refreshInFlight := AtTest;
    }

    method OnAwaitFailed(errorListenerThrows: bool)
      requires refreshInFlight.Reading? || refreshInFlight.Resolving? || refreshInFlight.Rereading?
      modifies this
      ensures View() == Next(old(View()), AwaitFails(errorListenerThrows))
    {
      var config := if refreshInFlight.Reading? then None else Some(refreshInFlight.config);
      Catch(config, errorListenerThrows);
    }

    method Catch(config: Option<Config>, errorListenerThrows: bool)
      requires refreshInFlight.Reading? || refreshInFlight.Resolving? || refreshInFlight.Rereading?
      modifies this
      ensures View() == Caught(old(View()), config, errorListenerThrows)
    {
      hide ResolveDue, RejectDue;
      var generation, round := refreshInFlight.generation, refreshInFlight.round;
      if errorListenerThrows && !disposed {
        refreshInFlight := Ended;
        return;
      }
      if latest.None? && config.Some? {
        var closed := ClosedFor(config.value);
        latest := Some(closed);
        snapshot := latest;
        published := published + [FailClosed(closed)];
        ResolveRefreshWaiters(generation, closed, round, config.value);
        refreshInFlight := AtTest;
        return;
      }
      RejectRefreshWaiters(generation);
      refreshInFlight := Ended;
    }

    method FinishRefresh()
      requires refreshInFlight.Ended?
      modifies this
      ensures View() == Next(old(View()), Finish)
    {
      refreshInFlight := NoLoop;
      if disposed || pendingReasons == {} {
        return;
      }
      StartRefresh();
    }

    method Dispose()
      modifies this
      ensures View() == Disposed(old(View()))
    {
      if disposed {
        return;
      }
      disposed := true;
      answers := answers + Rejections(refreshWaiters);
      refreshWaiters := [];
    }

    method ResolveRefreshWaiters(generation: nat, value: Account, round: nat, config: Config)
      modifies this`refreshWaiters, this`answers
      ensures View() == ResolveDue(old(View()), generation, value, round, config)
    {
      refreshWaiters, answers := ResolveEach(refreshWaiters, generation, answers, value, round, config);
    }

    method RejectRefreshWaiters(generation: nat)
      modifies this`refreshWaiters, this`answers
      ensures View() == RejectDue(old(View()), generation)
    {
      refreshWaiters, answers := RejectEach(refreshWaiters, generation, answers);
    }
  }
}
