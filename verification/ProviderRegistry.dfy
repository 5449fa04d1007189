/** `ProviderRegistry`: a view of the providers and the two indexes rebuilt from it. */
module ProviderRegistries {
  import opened OwnedOrder
  import opened ProviderResolution
  import opened Prelude

  // -------------------------------------------------------------------------
  // The view read from front to back, and the indexes
  // -------------------------------------------------------------------------

  function FindProvider(providers: seq<Provider>, id: Id): Option<Provider> {
    if providers == [] then None
    else if providers[0].providerId == id then Some(providers[0])
    else FindProvider(providers[1..], id)
  }

  function FindModel(models: seq<Model>, id: Id): Option<Model> {
    if models == [] then None
    else if models[0].modelId == id then Some(models[0])
    else FindModel(models[1..], id)
  }

  /** A lookup by provider and model, by reading the view. */
  function ScanModel(providers: seq<Provider>, providerId: Id, modelId: Id): Option<Model> {
    var provider := FindProvider(providers, providerId);
    if provider.None? then None else FindModel(provider.value.models, modelId)
  }

  function Lookup<T>(index: map<Id, T>, id: Id): Option<T> {
    if id in index then Some(index[id]) else None
  }

  /** An index that answers as reading the providers does. */
  ghost predicate IndexesProviders(index: map<Id, Provider>, providers: seq<Provider>) {
    forall id :: Lookup(index, id) == FindProvider(providers, id)
  }

  ghost predicate IndexesModels(index: map<Id, Model>, models: seq<Model>) {
    forall id :: Lookup(index, id) == FindModel(models, id)
  }

  ghost predicate IndexesAll(index: map<Id, map<Id, Model>>, providers: seq<Provider>) {
    forall id :: match FindProvider(providers, id)
      case None => id !in index
      case Some(provider) => id in index && IndexesModels(index[id], provider.models)
  }

  lemma {:induction false} FindAppended(providers: seq<Provider>, last: Provider, id: Id)
    ensures FindProvider(providers + [last], id)
      == if FindProvider(providers, id).Some? then FindProvider(providers, id)
         else if last.providerId == id then Some(last) else None
  {
    if providers != [] {
      assert (providers + [last])[1..] == providers[1..] + [last];
      FindAppended(providers[1..], last, id);
    }
  }

  lemma {:induction false} FindModelAppended(models: seq<Model>, last: Model, id: Id)
    ensures FindModel(models + [last], id)
      == if FindModel(models, id).Some? then FindModel(models, id)
         else if last.modelId == id then Some(last) else None
  {
    if models != [] {
      assert (models + [last])[1..] == models[1..] + [last];
      FindModelAppended(models[1..], last, id);
    }
  }

  lemma {:induction false} Found(providers: seq<Provider>, id: Id)
    ensures FindProvider(providers, id).Some? <==> exists i :: 0 <= i < |providers| && providers[i].providerId == id
  {
    if providers != [] {
      Found(providers[1..], id);
      if i :| 0 <= i < |providers| && providers[i].providerId == id {
        assert i > 0 ==> providers[1..][i - 1].providerId == id;
      }
    }
  }

  lemma {:induction false} FoundModel(models: seq<Model>, id: Id)
    ensures FindModel(models, id).Some? <==> exists i :: 0 <= i < |models| && models[i].modelId == id
  {
    if models != [] {
      FoundModel(models[1..], id);
      if i :| 0 <= i < |models| && models[i].modelId == id {
        assert i > 0 ==> models[1..][i - 1].modelId == id;
      }
    }
  }

  // -------------------------------------------------------------------------
  // The registry
  // -------------------------------------------------------------------------

  /** The inner loop of `#rebuildIndexes`: the models of one provider, or a duplicate. */
  method IndexModels(models: seq<Model>) returns (ok: bool, index: map<Id, Model>)
    ensures ok <==> DistinctModels(models)
    ensures ok ==> IndexesModels(index, models)
  {
    index := map[];
    var i := 0;
    while i < |models|
      invariant 0 <= i <= |models|
      invariant DistinctModels(models[..i]) && IndexesModels(index, models[..i])
    {
      var model := models[i];
      FoundModel(models[..i], model.modelId);
      assert Lookup(index, model.modelId) == FindModel(models[..i], model.modelId);
      if model.modelId in index {
        var k :| 0 <= k < i && models[..i][k].modelId == model.modelId;
        assert models[k].modelId == models[i].modelId;
        return false, index;
      }
      assert models[..i + 1] == models[..i] + [model];
      var before := index;
      index := index[model.modelId := model];
      forall id ensures Lookup(index, id) == FindModel(models[..i + 1], id) {
        FindModelAppended(models[..i], model, id);
        assert Lookup(before, id) == FindModel(models[..i], id);
      }
      i := i + 1;
    }
    assert models[..i] == models;
    ok := true;
  }

  class ProviderRegistry {
    var revision: nat
    var providers: seq<Provider>
    var providerById: map<Id, Provider>
    var modelByProviderId: map<Id, map<Id, Model>>
    // The events given to the listeners.
    var events: seq<(nat, string)>

    /** Both indexes answer as reading the view does. */
    ghost predicate Agrees()
      reads this
    {
      IndexesProviders(providerById, providers) && IndexesAll(modelByProviderId, providers)
    }

    constructor ()
      ensures revision == 0 && providers == [] && events == [] && Agrees()
    {
      revision, providers, providerById, modelByProviderId, events := 0, [], map[], map[], [];
    }

    method GetProvider(id: Id) returns (provider: Option<Provider>)
      ensures Agrees() ==> provider == FindProvider(providers, id)
    {
      provider := Lookup(providerById, id);
    }

    method GetModel(providerId: Id, modelId: Id) returns (model: Option<Model>)
      ensures Agrees() ==> model == ScanModel(providers, providerId, modelId)
    {
      ghost var provider := FindProvider(providers, providerId);
      if providerId !in modelByProviderId {
        return None;
      }
      model := Lookup(modelByProviderId[providerId], modelId);
    }

    /** The indexes change only when the whole view could be indexed. */
    method RebuildIndexes() returns (ok: bool)
      modifies this`providerById, this`modelByProviderId
      ensures ok <==> Indexable(providers)
      ensures ok ==> Agrees()
      ensures !ok ==> providerById == old(providerById) && modelByProviderId == old(modelByProviderId)
    {
      hide DistinctModels, IndexesModels, FindProvider;
      var byId: map<Id, Provider>, byProvider: map<Id, map<Id, Model>> := map[], map[];
      assert IndexesProviders(byId, []) && IndexesAll(byProvider, []) by { NothingToIndex(); }
      var i := 0;
      assert providers[..0] == [];
      while i < |providers|
        invariant 0 <= i <= |providers| && Indexable(providers[..i])
        invariant IndexesProviders(byId, providers[..i]) && IndexesAll(byProvider, providers[..i])
        invariant providerById == old(providerById) && modelByProviderId == old(modelByProviderId)
      {
        var provider := providers[i];
        Found(providers[..i], provider.providerId);
        assert Lookup(byId, provider.providerId) == FindProvider(providers[..i], provider.providerId);
        if provider.providerId in byId {
          var k :| 0 <= k < i && providers[..i][k].providerId == provider.providerId;
          assert providers[k].providerId == providers[i].providerId;
          return false;
        }
        var distinct, models := IndexModels(provider.models);
        if !distinct {
          return false;
        }
        assert providers[..i + 1] == providers[..i] + [provider];
        IndexOneMore(byId, byProvider, providers[..i], provider, models);
        byId := byId[provider.providerId := provider];
        byProvider := byProvider[provider.providerId := models];
        i := i + 1;
      }
      assert providers[..i] == providers;
      providerById, modelByProviderId := byId, byProvider;
      ok := true;
    }

    /**
     A view with duplicates is shown all the same, under a new revision: the error comes after, and
     leaves the old indexes and tells no listener.
     */
    method Replace(newProviders: seq<Provider>, reason: string) returns (ok: bool)
      modifies this
      ensures revision == old(revision) + 1 && providers == newProviders
      ensures ok <==> Indexable(newProviders)
      ensures ok ==> Agrees() && events == old(events) + [(revision, reason)]
      ensures !ok ==> providerById == old(providerById) && modelByProviderId == old(modelByProviderId) && events == old(events)
    {
      revision, providers := revision + 1, newProviders;
      ok := RebuildIndexes();
      if ok {
        events := events + [(revision, reason)];
      }
    }

    /** From the resolver's output, the lookups after a replacement answer as reading the view does. */
    method ReplaceResolved(order: seq<Id>, effective: map<Id, Effective>, reason: string)
      requires NoDuplicates(order) && Members(order) <= effective.Keys
      modifies this
      ensures revision == old(revision) + 1 && providers == RegistryProviders(order, effective)
      ensures Agrees() && events == old(events) + [(revision, reason)]
    {
      ProvidersAreIndexable(order, effective);
      var resolved := CollectProviders(order, effective);
      var ok := Replace(resolved, reason);
    }
  }

  lemma NothingToIndex()
    ensures IndexesProviders(map[], []) && IndexesAll(map[], [])
  {
  }

  lemma IndexOneMore(byId: map<Id, Provider>, byProvider: map<Id, map<Id, Model>>, providers: seq<Provider>, last: Provider,
                     models: map<Id, Model>)
    requires IndexesProviders(byId, providers) && IndexesAll(byProvider, providers)
    requires last.providerId !in byId && IndexesModels(models, last.models)
    ensures IndexesProviders(byId[last.providerId := last], providers + [last])
    ensures IndexesAll(byProvider[last.providerId := models], providers + [last])
  {
    hide IndexesModels;
    forall id
      ensures Lookup(byId[last.providerId := last], id) == FindProvider(providers + [last], id)
    {
      FindAppended(providers, last, id);
      assert Lookup(byId, id) == FindProvider(providers, id);
    }
    assert Lookup(byId, last.providerId) == FindProvider(providers, last.providerId);
    forall id
      ensures match FindProvider(providers + [last], id)
        case None => id !in byProvider[last.providerId := models]
        case Some(provider) =>
          id in byProvider[last.providerId := models] && IndexesModels(byProvider[last.providerId := models][id], provider.models)
    {
      FindAppended(providers, last, id);
    }
  }
}
