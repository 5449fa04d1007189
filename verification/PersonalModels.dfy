/**
 Editing the Personal models of one provider: add, rename, reorder, delete.

 The edits are transforms of the provider's overlay record; an edit that fails leaves it as it was.
 The inherited list is fixed while they run. Ids are already trimmed and not empty.
 */
module PersonalModels {
  import opened OwnedOrder
  import opened Prelude

  /** A list the record does not have reads as empty. */
  datatype Overlay = Overlay(personalModelIds: seq<Id>, modelOrder: seq<Id>)

  datatype Edit = Add(id: Id) | Rename(current: Id, next: Id) | Reorder(ids: seq<Id>) | Delete(id: Id)

  datatype Failure = ProviderMissing | ModelExists | ModelInherited | NotPersonal

  datatype Edited = Done(overlay: Option<Overlay>) | Failed(failure: Failure)

  function NewName(id: Id, from: Id, to: Id): Id {
    if id == from then to else id
  }

  /** `map` with one id exchanged for another. */
  function Renamed(s: seq<Id>, from: Id, to: Id): seq<Id> {
    if s == [] then [] else Renamed(s[..|s| - 1], from, to) + [NewName(s[|s| - 1], from, to)]
  }

  /** The record to write to: only an inherited provider gets one on demand. */
  function Writable(current: Option<Overlay>, providerInherited: bool): Option<Overlay> {
    if current.Some? then current else if providerInherited then Some(Overlay([], [])) else None
  }

  function Normalized(inherited: seq<Id>, personal: seq<Id>, requested: seq<Id>): Edited {
    Done(Some(Overlay(personal, ResolveOwnedOrder(inherited, personal, requested))))
  }

  function Apply(inherited: seq<Id>, providerInherited: bool, current: Option<Overlay>, edit: Edit): Edited {
    match edit
    case Add(id) =>
      var provider := Writable(current, providerInherited);
      if provider.None? then Failed(ProviderMissing)
      else if id in inherited || id in provider.value.personalModelIds then Failed(ModelExists)
      else Normalized(inherited, provider.value.personalModelIds + [id], provider.value.modelOrder)
    case Rename(from, to) =>
      if from == to then Done(current)
      else if from in inherited then Failed(ModelInherited)
      else if current.None? || from !in current.value.personalModelIds then Failed(NotPersonal)
      else if to in current.value.personalModelIds || to in inherited then Failed(ModelExists)
      else
        Normalized(inherited, Renamed(current.value.personalModelIds, from, to), Renamed(current.value.modelOrder, from, to))
    case Reorder(ids) =>
      var provider := Writable(current, providerInherited);
      if provider.None? then Failed(ProviderMissing)
      else Normalized(inherited, provider.value.personalModelIds, ids)
    case Delete(id) =>
      if id in inherited then Failed(ModelInherited)
      else if current.None? || id !in current.value.personalModelIds then Failed(NotPersonal)
      else
        var personal := Without(current.value.personalModelIds, {id});
        Normalized(inherited, personal, current.value.modelOrder)
  }

  function Next(inherited: seq<Id>, providerInherited: bool, current: Option<Overlay>, edit: Edit): Option<Overlay> {
    var edited := Apply(inherited, providerInherited, current, edit);
    if edited.Done? then edited.overlay else current
  }

  function Run(inherited: seq<Id>, providerInherited: bool, current: Option<Overlay>, edits: seq<Edit>): Option<Overlay>
    decreases edits
  {
    if edits == [] then current
    else Run(inherited, providerInherited, Next(inherited, providerInherited, current, edits[0]), edits[1..])
  }

  // -------------------------------------------------------------------------
  // What any run of edits keeps
  // -------------------------------------------------------------------------

  /** Personal ids are listed once, and are not inherited ones. */
  predicate Tidy(inherited: seq<Id>, s: Option<Overlay>) {
    s.Some? ==>
      NoDuplicates(s.value.personalModelIds) && Members(s.value.personalModelIds) * Members(inherited) == {}
  }

  /** The saved order is a permutation of the members. */
  predicate Ordered(inherited: seq<Id>, s: Option<Overlay>) {
    s.Some? && NoDuplicates(s.value.modelOrder)
    && Members(s.value.modelOrder) == Members(inherited) + Members(s.value.personalModelIds)
  }

  lemma {:induction false} RenamedAt(s: seq<Id>, from: Id, to: Id)
    ensures |Renamed(s, from, to)| == |s|
    ensures forall i :: 0 <= i < |s| ==> Renamed(s, from, to)[i] == NewName(s[i], from, to)
  {
    if s != [] {
      RenamedAt(s[..|s| - 1], from, to);
    }
  }

  lemma RenamedMembers(s: seq<Id>, from: Id, to: Id)
    requires from in s && to !in s
    ensures Members(Renamed(s, from, to)) == Members(s) - {from} + {to}
    ensures NoDuplicates(s) ==> NoDuplicates(Renamed(s, from, to))
  {
    RenamedAt(s, from, to);
    var r := Renamed(s, from, to);
    forall x | x in Members(s) - {from} + {to}
      ensures x in r
    {
      var i :| 0 <= i < |s| && s[i] == if x == to then from else x;
      assert r[i] == x;
    }
  }

  /** The Personal ids after an edit that succeeds. */
  lemma PersonalIdsAfter(inherited: seq<Id>, providerInherited: bool, s: Option<Overlay>, edit: Edit)
    requires Tidy(inherited, s)
    ensures Tidy(inherited, Next(inherited, providerInherited, s, edit))
    ensures Apply(inherited, providerInherited, s, edit).Done? ==>
      var before := if s.Some? then Members(s.value.personalModelIds) else {};
      var s' := Next(inherited, providerInherited, s, edit);
      var after := if s'.Some? then Members(s'.value.personalModelIds) else {};
      match edit
      case Add(id) => id !in before && after == before + {id}
      case Rename(from, to) => from != to ==> from in before && to !in before && after == before - {from} + {to}
      case Reorder(_) => after == before
      case Delete(id) => id in before && after == before - {id}
  {
    hide ResolveOwnedOrder, Only;
    match edit
    case Add(id) =>
      var provider := Writable(s, providerInherited);
      if provider.Some? {
        assert Tidy(inherited, provider);
        MembersOfConcat(provider.value.personalModelIds, [id]);
      }
    case Rename(from, to) =>
      if s.Some? && from in s.value.personalModelIds && to !in s.value.personalModelIds {
        RenamedMembers(s.value.personalModelIds, from, to);
      }
    case Reorder(_) =>
    case Delete(id) =>
      if s.Some? {
        OnlyKeepsTheMembers(s.value.personalModelIds, Members(s.value.personalModelIds) - {id});
      }
  }

  /** Every edit that succeeds saves a permutation of the members; renaming a model to its own name changes nothing. */
  lemma EditOrders(inherited: seq<Id>, providerInherited: bool, s: Option<Overlay>, edit: Edit)
    requires Apply(inherited, providerInherited, s, edit).Done?
    ensures var s' := Next(inherited, providerInherited, s, edit);
      if edit.Rename? && edit.current == edit.next then s' == s else Ordered(inherited, s')
  {
    hide ResolveOwnedOrder, Only, Renamed, NoDuplicates, Members;
    var s' := Next(inherited, providerInherited, s, edit);
    if edit.Rename? && edit.current == edit.next {
    } else {
      var order := match edit
        case Add(_) => Writable(s, providerInherited).value.modelOrder
        case Rename(from, to) => Renamed(s.value.modelOrder, from, to)
        case Reorder(ids) => ids
        case Delete(_) => s.value.modelOrder;
      EveryMemberOnce(inherited, s'.value.personalModelIds, order);
    }
  }

  /** Whatever is edited, in whatever order. */
  lemma {:induction false} EditsKeepTheLists(inherited: seq<Id>, providerInherited: bool, s: Option<Overlay>, edits: seq<Edit>)
    requires Tidy(inherited, s)
    ensures var s' := Run(inherited, providerInherited, s, edits);
      Tidy(inherited, s') && (s' == s || Ordered(inherited, s'))
    decreases edits
  {
    hide Apply, Ordered, Tidy;
    if edits != [] {
      var next := Next(inherited, providerInherited, s, edits[0]);
      PersonalIdsAfter(inherited, providerInherited, s, edits[0]);
      if Apply(inherited, providerInherited, s, edits[0]).Done? {
        EditOrders(inherited, providerInherited, s, edits[0]);
      }
      EditsKeepTheLists(inherited, providerInherited, next, edits[1..]);
    }
  }

  // -------------------------------------------------------------------------
  // Undoing an addition
  // -------------------------------------------------------------------------

  /**
   Adding a model and deleting it again normalises the saved order, and so restores a normalised record exactly.
   A record made on demand stays behind, with the inherited models as its order.
   */
  lemma AddThenDelete(inherited: seq<Id>, providerInherited: bool, s: Option<Overlay>, id: Id)
    requires Tidy(inherited, s)
    requires Apply(inherited, providerInherited, s, Add(id)).Done?
    ensures var before, s' := Writable(s, providerInherited).value, Run(inherited, providerInherited, s, [Add(id), Delete(id)]);
      && Apply(inherited, providerInherited, Next(inherited, providerInherited, s, Add(id)), Delete(id)).Done?
      && s' == Some(Overlay(before.personalModelIds, ResolveOwnedOrder(inherited, before.personalModelIds, before.modelOrder)))
      && (s' == s <==> Ordered(inherited, s))
  {
    var before := Writable(s, providerInherited).value;
    var personal, order := before.personalModelIds, before.modelOrder;
    RunTwo(inherited, providerInherited, s, Add(id), Delete(id));
    hide ResolveOwnedOrder, Only, Members, NoDuplicates, Run;
    LastDropped(personal, id);
    AddedIdDropsOut(inherited, personal, order, id);
    SettledOrders(inherited, personal, order);
  }

  lemma RunTwo(inherited: seq<Id>, providerInherited: bool, s: Option<Overlay>, first: Edit, second: Edit)
    ensures Run(inherited, providerInherited, s, [first, second])
      == Next(inherited, providerInherited, Next(inherited, providerInherited, s, first), second)
  {
    hide Next;
    var next := Next(inherited, providerInherited, s, first);
    assert [first, second][1..] == [second] && [second][1..] == [];
    assert Run(inherited, providerInherited, next, [second]) == Next(inherited, providerInherited, next, second);
  }

  lemma LastDropped(s: seq<Id>, id: Id)
    requires id !in s
    ensures Without(s + [id], {id}) == s
  {
    hide Only;
    MembersOfConcat(s, [id]);
    OnlyOfConcat(s, [id], Members(s + [id]) - {id});
    OnlyAll(s, Members(s + [id]) - {id});
    OnlyNone([id], Members(s + [id]) - {id});
    assert s + [] == s;
  }

  lemma AddedIdDropsOut(inherited: seq<Id>, personal: seq<Id>, order: seq<Id>, id: Id)
    requires NoDuplicates(personal) && Members(personal) * Members(inherited) == {} && id !in inherited && id !in personal
    ensures ResolveOwnedOrder(inherited, personal, ResolveOwnedOrder(inherited, personal + [id], order))
      == ResolveOwnedOrder(inherited, personal, order)
  {
    var members := Members(inherited) + Members(personal);
    var longer := ResolveOwnedOrder(inherited, personal + [id], order);
    assert id !in members;
    hide ResolveOwnedOrder, Only, Unique;
    MembersOfConcat(personal, [id]);
    EveryMemberOnce(inherited, personal + [id], order);
    RequestedListing(inherited, personal, longer);
    UniqueKeepsTheMembers(longer);
    AddedIdFiltered(inherited, personal, order, id);
  }

  /** Without the added id the longer order is the shorter one. */
  lemma AddedIdFiltered(inherited: seq<Id>, personal: seq<Id>, order: seq<Id>, id: Id)
    requires NoDuplicates(personal) && Members(personal) * Members(inherited) == {} && id !in inherited && id !in personal
    ensures Only(ResolveOwnedOrder(inherited, personal + [id], order), Members(inherited) + Members(personal))
      == ResolveOwnedOrder(inherited, personal, order)
  {
    var longer := personal + [id];
    MembersOfConcat(personal, [id]);
    assert Members([id]) == {id} && NoDuplicates([id]);
    assert Members(inherited) !! {id} && Members(personal) !! {id};
    hide Only, Unique, Members, NoDuplicates;
    var builtin, asked, members := Unique(inherited), Unique(order), Members(inherited) + Members(personal);
    UniqueKeepsTheMembers(inherited);
    UniqueKeepsTheMembers(longer);
    UniqueKeepsTheMembers(personal);
    OnlyAll(longer, Members(longer) - Members(builtin));
    OnlyAll(personal, Members(personal) - Members(builtin));
    var ordered', ordered := Only(asked, members + {id}), Only(asked, members);
    OnlyKeepsTheMembers(asked, members + {id});
    OnlyKeepsTheMembers(asked, members);
    var front, back', back := Without(builtin, Members(ordered)), Without(longer, Members(ordered')), Without(personal, Members(ordered));
    OnlyAgrees(builtin, Members(builtin) - Members(ordered'), Members(builtin) - Members(ordered));
    assert members + {id} == Members(builtin) + Members(longer);
    assert ResolveOwnedOrder(inherited, longer, order) == front + ordered' + back';
    assert ResolveOwnedOrder(inherited, personal, order) == front + ordered + back;
    OnlyOfConcat(front + ordered', back', members);
    OnlyOfConcat(front, ordered', members);
    OnlyKeepsTheMembers(builtin, Members(builtin) - Members(ordered));
    OnlyAll(front, members);
    OnlyTwice(asked, members + {id}, members);
    assert (members + {id}) * members == members;
    OnlyTwice(longer, Members(longer) - Members(ordered'), members);
    OnlyOfConcat(personal, [id], (Members(longer) - Members(ordered')) * members);
    OnlyNone([id], (Members(longer) - Members(ordered')) * members);
    OnlyAgrees(personal, (Members(longer) - Members(ordered')) * members, Members(personal) - Members(ordered));
    assert back + [] == back;
  }
}
