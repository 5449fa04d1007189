/**
 What the resolver hands to the registry: the providers in their order, each with its executable models.

 The maps of provider configurations appear as their keys, in order, and as what the resolver found
 for each of them: whether it is complete, whether it may execute, and the complete configuration of
 each of its enabled models.
 */
module ProviderResolution {
  import opened OwnedOrder

  /** Configurations are compared, never looked into. */
  type Config = string

  datatype Model = Model(modelId: Id, config: Config)

  datatype Provider = Provider(providerId: Id, config: Config, models: seq<Model>)

  datatype Effective = Effective(
    complete: bool,
    executable: bool,
    config: Config,
    builtinModelIds: seq<Id>,
    personalModelIds: seq<Id>,
    modelOrder: seq<Id>,
    enabledModels: map<Id, Config>)

  /** The keys of one map overlaid by another: the new ones come last. */
  function OverlaidKeys(base: seq<Id>, over: seq<Id>): seq<Id> {
    base + Without(over, Members(base))
  }

  function ResolveProviderOrder(builtinKeys: seq<Id>, personalKeys: seq<Id>, family: set<Id>, personalOrder: seq<Id>): seq<Id> {
    var familyIds := Only(OverlaidKeys(builtinKeys, personalKeys), family);
    var builtinIds := Without(builtinKeys, Members(familyIds));
    var personalIds := Without(personalKeys, Members(builtinIds) + Members(familyIds));
    familyIds + ResolveOwnedOrder(builtinIds, personalIds, personalOrder)
  }

  /** The models of some ids, those that are enabled and complete. */
  function ModelsOf(ids: seq<Id>, enabledModels: map<Id, Config>): seq<Model> {
    if ids == [] then []
    else
      var before, id := ModelsOf(ids[..|ids| - 1], enabledModels), ids[|ids| - 1];
      if id in enabledModels then before + [Model(id, enabledModels[id])] else before
  }

  function ExecutableModels(e: Effective): seq<Model> {
    if !e.executable then []
    else ModelsOf(ResolveOwnedOrder(e.builtinModelIds, e.personalModelIds, e.modelOrder), e.enabledModels)
  }

  function RegistryProviders(order: seq<Id>, effective: map<Id, Effective>): seq<Provider>
    requires Members(order) <= effective.Keys
  {
    if order == [] then []
    else
      var rest, id := order[..|order| - 1], order[|order| - 1];
      assert id in Members(order) && Members(rest) <= Members(order);
      var before, e := RegistryProviders(rest, effective), effective[id];
      if !e.complete || ExecutableModels(e) == [] then before
      else before + [Provider(id, e.config, ExecutableModels(e))]
  }

  /** The loop of `resolve` that collects the providers for the registry. */
  method CollectProviders(order: seq<Id>, effective: map<Id, Effective>) returns (registryProviders: seq<Provider>)
    requires Members(order) <= effective.Keys
    ensures registryProviders == RegistryProviders(order, effective)
  {
    hide ExecutableModels;
    registryProviders := [];
    var i := 0;
    while i < |order|
      invariant 0 <= i <= |order| && Members(order[..i]) <= Members(order)
      invariant registryProviders == RegistryProviders(order[..i], effective)
    {
      assert order[..i + 1][..i] == order[..i] && order[i] in Members(order);
      var e := effective[order[i]];
      i := i + 1;
      if !e.complete {
        continue;
      }
      var validModels := ExecutableModels(e);
      if validModels == [] {
        continue;
      }
      registryProviders := registryProviders + [Provider(order[i - 1], e.config, validModels)];
    }
    assert order[..i] == order;
  }

  // -------------------------------------------------------------------------
  // Nothing is listed twice
  // -------------------------------------------------------------------------

  /** What an index can be built from. */
  ghost predicate Indexable(providers: seq<Provider>) {
    && (forall i, j :: 0 <= i < j < |providers| ==> providers[i].providerId != providers[j].providerId)
    && (forall i :: 0 <= i < |providers| ==> DistinctModels(providers[i].models))
  }

  ghost predicate DistinctModels(models: seq<Model>) {
    forall i, j :: 0 <= i < j < |models| ==> models[i].modelId != models[j].modelId
  }

  /** The order of providers is a permutation of the effective providers' ids. */
  lemma ProviderOrderIsAPermutation(builtinKeys: seq<Id>, personalKeys: seq<Id>, family: set<Id>, personalOrder: seq<Id>)
    requires NoDuplicates(builtinKeys) && NoDuplicates(personalKeys)
    ensures var order := ResolveProviderOrder(builtinKeys, personalKeys, family, personalOrder);
      NoDuplicates(order) && Members(order) == Members(OverlaidKeys(builtinKeys, personalKeys))
  {
    hide Only, Members, NoDuplicates, ResolveOwnedOrder;
    var keys := OverlaidKeys(builtinKeys, personalKeys);
    OnlyKeepsTheMembers(personalKeys, Members(personalKeys) - Members(builtinKeys));
    MembersOfConcat(builtinKeys, Without(personalKeys, Members(builtinKeys)));
    var familyIds := Only(keys, family);
    OnlyKeepsTheMembers(keys, family);
    var builtinIds := Without(builtinKeys, Members(familyIds));
    OnlyKeepsTheMembers(builtinKeys, Members(builtinKeys) - Members(familyIds));
    var personalIds := Without(personalKeys, Members(builtinIds) + Members(familyIds));
    OnlyKeepsTheMembers(personalKeys, Members(personalKeys) - (Members(builtinIds) + Members(familyIds)));
    EveryMemberOnce(builtinIds, personalIds, personalOrder);
    MembersOfConcat(familyIds, ResolveOwnedOrder(builtinIds, personalIds, personalOrder));
  }

  lemma {:induction false} ModelsAreDistinct(ids: seq<Id>, enabledModels: map<Id, Config>)
    requires NoDuplicates(ids)
    ensures DistinctModels(ModelsOf(ids, enabledModels))
    ensures forall i :: 0 <= i < |ModelsOf(ids, enabledModels)| ==> ModelsOf(ids, enabledModels)[i].modelId in ids
  {
    if ids != [] {
      ModelsAreDistinct(ids[..|ids| - 1], enabledModels);
    }
  }

  lemma {:induction false} ProvidersAreIndexable(order: seq<Id>, effective: map<Id, Effective>)
    requires NoDuplicates(order) && Members(order) <= effective.Keys
    ensures Indexable(RegistryProviders(order, effective))
    ensures forall i :: 0 <= i < |RegistryProviders(order, effective)| ==> RegistryProviders(order, effective)[i].providerId in order
  {
    hide ResolveOwnedOrder, ModelsOf, DistinctModels;
    if order != [] {
      var rest, id := order[..|order| - 1], order[|order| - 1];
      assert Members(rest) <= Members(order) && id in Members(order);
      ProvidersAreIndexable(rest, effective);
      var e := effective[id];
      EveryMemberOnce(e.builtinModelIds, e.personalModelIds, e.modelOrder);
      ModelsAreDistinct(ResolveOwnedOrder(e.builtinModelIds, e.personalModelIds, e.modelOrder), e.enabledModels);
    }
  }

  /** Whatever the configurations, the registry can index what the resolver gives it. */
  lemma ResolverOutputIsIndexable(builtinKeys: seq<Id>, personalKeys: seq<Id>, family: set<Id>, personalOrder: seq<Id>,
                                  effective: map<Id, Effective>)
    requires NoDuplicates(builtinKeys) && NoDuplicates(personalKeys)
    requires effective.Keys == Members(OverlaidKeys(builtinKeys, personalKeys))
    ensures var order := ResolveProviderOrder(builtinKeys, personalKeys, family, personalOrder);
      Members(order) <= effective.Keys && Indexable(RegistryProviders(order, effective))
  {
    ProviderOrderIsAPermutation(builtinKeys, personalKeys, family, personalOrder);
    ProvidersAreIndexable(ResolveProviderOrder(builtinKeys, personalKeys, family, personalOrder), effective);
  }

  // -------------------------------------------------------------------------
  // Who is listed, in which order
  // -------------------------------------------------------------------------

  /** A provider with something to offer: complete, allowed to execute, and with an enabled model among its own. */
  predicate Offers(e: Effective) {
    && e.complete && e.executable
    && exists id :: id in Members(e.builtinModelIds) + Members(e.personalModelIds) && id in e.enabledModels
  }

  function ModelIds(models: seq<Model>): (ids: seq<Id>)
    ensures |ids| == |models| && forall i :: 0 <= i < |models| ==> ids[i] == models[i].modelId
  {
    seq(|models|, i requires 0 <= i < |models| => models[i].modelId)
  }

  function ProviderIds(providers: seq<Provider>): (ids: seq<Id>)
    ensures |ids| == |providers| && forall i :: 0 <= i < |providers| ==> ids[i] == providers[i].providerId
  {
    seq(|providers|, i requires 0 <= i < |providers| => providers[i].providerId)
  }

  lemma {:induction false} ModelsExactly(ids: seq<Id>, enabledModels: map<Id, Config>)
    ensures var models := ModelsOf(ids, enabledModels);
      && ModelIds(models) == Only(ids, enabledModels.Keys)
      && forall i :: 0 <= i < |models| ==> models[i].modelId in enabledModels && models[i].config == enabledModels[models[i].modelId]
  {
    if ids != [] {
      var rest, last := ids[..|ids| - 1], ids[|ids| - 1];
      ModelsExactly(rest, enabledModels);
      if last in enabledModels {
        var model := Model(last, enabledModels[last]);
        assert ModelIds(ModelsOf(rest, enabledModels) + [model]) == ModelIds(ModelsOf(rest, enabledModels)) + [last];
      }
    }
  }

  /** The models a provider offers: its own that are enabled, in their resolved order, each with its configuration. */
  predicate OffersModels(e: Effective, models: seq<Model>) {
    && ModelIds(models) == Only(ResolveOwnedOrder(e.builtinModelIds, e.personalModelIds, e.modelOrder), e.enabledModels.Keys)
    && forall i :: 0 <= i < |models| ==>
         models[i].modelId in e.enabledModels && models[i].config == e.enabledModels[models[i].modelId]
  }

  lemma ExecutableExactly(e: Effective)
    ensures e.executable ==> OffersModels(e, ExecutableModels(e))
    ensures e.complete && ExecutableModels(e) != [] <==> Offers(e)
  {
    var order := ResolveOwnedOrder(e.builtinModelIds, e.personalModelIds, e.modelOrder);
    ModelsExactly(order, e.enabledModels);
    EveryMemberOnce(e.builtinModelIds, e.personalModelIds, e.modelOrder);
    OnlyKeepsTheMembers(order, e.enabledModels.Keys);
    hide ResolveOwnedOrder, ModelsOf, Only;
    var offered := Only(order, e.enabledModels.Keys);
    if offered != [] {
      assert offered[0] in Members(offered);
    }
    if id :| id in Members(e.builtinModelIds) + Members(e.personalModelIds) && id in e.enabledModels {
      assert id in Members(offered);
    }
  }

  /** The ids of those who offer something. */
  function Offering(effective: map<Id, Effective>): set<Id> {
    set id | id in effective && Offers(effective[id])
  }

  /** The provider is shown as it is configured, with the models it offers. */
  predicate ShownAs(p: Provider, effective: map<Id, Effective>) {
    p.providerId in effective && p.config == effective[p.providerId].config && OffersModels(effective[p.providerId], p.models)
  }

  /**
   The registry is given exactly the providers that offer something, in the order of providers, each
   with exactly the models it offers, in their order.
   */
  lemma {:induction false} ListedExactly(order: seq<Id>, effective: map<Id, Effective>)
    requires Members(order) <= effective.Keys
    ensures var providers := RegistryProviders(order, effective);
      && ProviderIds(providers) == Only(order, Offering(effective))
      && forall i :: 0 <= i < |providers| ==> ShownAs(providers[i], effective)
  {
    hide ExecutableModels, Offers, OffersModels;
    if order != [] {
      var rest, id := order[..|order| - 1], order[|order| - 1];
      assert Members(rest) <= Members(order) && id in Members(order);
      ListedExactly(rest, effective);
      ExecutableExactly(effective[id]);
      OffersAreExecutable(effective[id]);
      var before, e := RegistryProviders(rest, effective), effective[id];
      var provider := Provider(id, e.config, ExecutableModels(e));
      assert ProviderIds(before + [provider]) == ProviderIds(before) + [id];
    }
  }

  lemma OffersAreExecutable(e: Effective)
    ensures Offers(e) ==> e.executable
  {
  }

  /** Of providers, those of a family come first, as the keys have them; the others as `resolveOwnedOrder` puts them. */
  lemma FamilyComesFirst(builtinKeys: seq<Id>, personalKeys: seq<Id>, family: set<Id>, personalOrder: seq<Id>, x: Id, y: Id)
    requires NoDuplicates(builtinKeys) && NoDuplicates(personalKeys)
    ensures var order, keys := ResolveProviderOrder(builtinKeys, personalKeys, family, personalOrder), OverlaidKeys(builtinKeys, personalKeys);
      x in order && y in order ==>
        (IndexOf(order, x) < IndexOf(order, y) <==>
          if x in family && y in family then IndexOf(keys, x) < IndexOf(keys, y)
          else if x in family || y in family then x in family
          else Earlier(builtinKeys, personalKeys, personalOrder, x, y))
  {
    hide Only, IndexOf, ResolveOwnedOrder, KeepsOrder;
    var keys := OverlaidKeys(builtinKeys, personalKeys);
    var familyIds := Only(keys, family);
    var builtinIds := Without(builtinKeys, Members(familyIds));
    var personalIds := Without(personalKeys, Members(builtinIds) + Members(familyIds));
    var others := ResolveOwnedOrder(builtinIds, personalIds, personalOrder);
    KeysAreDistinct(builtinKeys, personalKeys);
    OnlyKeepsOrder(keys, family);
    OnlyKeepsOrder(builtinKeys, Members(builtinKeys) - Members(familyIds));
    OnlyKeepsOrder(personalKeys, Members(personalKeys) - (Members(builtinIds) + Members(familyIds)));
    ComesFirst(builtinIds, personalIds, personalOrder, x, y);
    IndexInParts(familyIds, others, x);
    IndexInParts(familyIds, others, y);
    WhereItIs(builtinKeys, personalKeys, family, personalOrder, x);
    WhereItIs(builtinKeys, personalKeys, family, personalOrder, y);
    hide NoDuplicates;
    if x in others && y in others && x !in family && y !in family {
      EarlierAgrees(builtinKeys, personalKeys, builtinIds, personalIds, personalOrder, x, y);
    }
    IndexInside(familyIds, x);
    IndexInside(familyIds, y);
    if x in familyIds && y in familyIds {
      Compared(familyIds, keys, x, y);
    }
  }

  lemma IndexInside(s: seq<Id>, x: Id)
    ensures x in s ==> IndexOf(s, x) < |s|
  {
    hide IndexOf;
  }

  lemma Compared(list: seq<Id>, s: seq<Id>, x: Id, y: Id)
    requires KeepsOrder(list, s) && x in list && y in list
    ensures IndexOf(list, x) < IndexOf(list, y) <==> IndexOf(s, x) < IndexOf(s, y)
  {
    hide IndexOf;
  }

  /** For ids that are in the shorter lists exactly if in the longer ones, both decide alike. */
  lemma EarlierAgrees(builtin: seq<Id>, personal: seq<Id>, builtin': seq<Id>, personal': seq<Id>, order: seq<Id>, x: Id, y: Id)
    requires KeepsOrder(builtin', builtin) && KeepsOrder(personal', personal)
    requires (x in builtin' <==> x in builtin) && (y in builtin' <==> y in builtin)
    requires (Place(builtin, order, x) == 2 ==> x in personal') && (Place(builtin, order, y) == 2 ==> y in personal')
    ensures Earlier(builtin', personal', order, x, y) <==> Earlier(builtin, personal, order, x, y)
  {
    hide IndexOf, KeepsOrder;
    if Place(builtin, order, x) == Place(builtin, order, y) == 0 {
      Compared(builtin', builtin, x, y);
    }
    if Place(builtin, order, x) == Place(builtin, order, y) == 2 {
      Compared(personal', personal, x, y);
    }
  }

  lemma WhereItIs(builtinKeys: seq<Id>, personalKeys: seq<Id>, family: set<Id>, personalOrder: seq<Id>, x: Id)
    requires NoDuplicates(builtinKeys) && NoDuplicates(personalKeys)
    ensures var familyIds := Only(OverlaidKeys(builtinKeys, personalKeys), family);
      var builtinIds := Without(builtinKeys, Members(familyIds));
      var personalIds := Without(personalKeys, Members(builtinIds) + Members(familyIds));
      var others := ResolveOwnedOrder(builtinIds, personalIds, personalOrder);
      x in familyIds + others ==>
        && (x in familyIds <==> x in family)
        && (x !in family ==> x in others && (x in builtinIds <==> x in builtinKeys) && (x !in builtinKeys ==> x in personalIds))
  {
    var keys := OverlaidKeys(builtinKeys, personalKeys);
    var familyIds := Only(keys, family);
    var builtinIds := Without(builtinKeys, Members(familyIds));
    var personalIds := Without(personalKeys, Members(builtinIds) + Members(familyIds));
    var others := ResolveOwnedOrder(builtinIds, personalIds, personalOrder);
    KeysAreDistinct(builtinKeys, personalKeys);
    OnlyKeepsTheMembers(keys, family);
    OnlyKeepsTheMembers(builtinKeys, Members(builtinKeys) - Members(familyIds));
    OnlyKeepsTheMembers(personalKeys, Members(personalKeys) - (Members(builtinIds) + Members(familyIds)));
    EveryMemberOnce(builtinIds, personalIds, personalOrder);
    hide Only, ResolveOwnedOrder, Members;
    NotAMember(familyIds, x);
    NotAMember(others, x);
    NotAMember(builtinIds, x);
    NotAMember(personalIds, x);
    NotAMember(builtinKeys, x);
  }

  lemma KeysAreDistinct(builtinKeys: seq<Id>, personalKeys: seq<Id>)
    requires NoDuplicates(builtinKeys) && NoDuplicates(personalKeys)
    ensures var keys := OverlaidKeys(builtinKeys, personalKeys);
      NoDuplicates(keys) && Members(keys) == Members(builtinKeys) + Members(personalKeys)
  {
    hide Only;
    OnlyKeepsTheMembers(personalKeys, Members(personalKeys) - Members(builtinKeys));
    MembersOfConcat(builtinKeys, Without(personalKeys, Members(builtinKeys)));
  }
}
