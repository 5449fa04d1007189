/** What edits do to the order of the models shown: reordering follows the request, adding and deleting move nobody else. */
module EditingOrder {
  import opened OwnedOrder
  import opened PersonalModels
  import opened Renaming
  import opened Prelude

  /** The record before an edit, as far as there is one or one would be made. */
  function Before(s: Option<Overlay>): Overlay {
    if s.Some? then s.value else Overlay([], [])
  }

  /**
   A reordering that succeeds keeps the Personal ids and saves the members as they were asked for:
   what was asked for in the order asked, other inherited models in front and other Personal ones behind.
   */
  lemma ReorderIsFollowed(inherited: seq<Id>, providerInherited: bool, s: Option<Overlay>, ids: seq<Id>, x: Id, y: Id)
    requires Apply(inherited, providerInherited, s, Reorder(ids)).Done?
    ensures var before, o := Before(s), Next(inherited, providerInherited, s, Reorder(ids)).value;
      && o.personalModelIds == before.personalModelIds
      && (x in o.modelOrder <==> x in inherited || x in before.personalModelIds)
      && (x in o.modelOrder && y in o.modelOrder ==>
            && (IndexOf(o.modelOrder, x) < IndexOf(o.modelOrder, y) <==> Earlier(inherited, before.personalModelIds, ids, x, y))
            && (x in ids && y in ids ==> (IndexOf(o.modelOrder, x) < IndexOf(o.modelOrder, y) <==> IndexOf(ids, x) < IndexOf(ids, y))))
  {
    hide ResolveOwnedOrder, IndexOf;
    var personal := Before(s).personalModelIds;
    ComesFirst(inherited, personal, ids, x, y);
    EveryMemberOnce(inherited, personal, ids);
    var order := ResolveOwnedOrder(inherited, personal, ids);
    assert x in order <==> x in Members(order);
    assert x in Members(inherited) + Members(personal) <==> x in inherited || x in personal;
  }

  lemma PersonalKeepsOrder(personal: seq<Id>, personal': seq<Id>, id: Id, x: Id, y: Id)
    requires x != id && y != id && x in personal' && y in personal'
    requires personal' == personal + [id] || (NoDuplicates(personal) && personal' == Without(personal, {id}))
    ensures IndexOf(personal', x) < IndexOf(personal', y) <==> IndexOf(personal, x) < IndexOf(personal, y)
  {
    if personal' == personal + [id] {
      IndexSnoc(personal, id, x);
      IndexSnoc(personal, id, y);
    } else {
      OnlyKeepsOrder(personal, Members(personal) - {id});
    }
  }

  /** Adding or deleting a model leaves the order of the others as it was. */
  lemma OthersStayInOrder(inherited: seq<Id>, providerInherited: bool, s: Option<Overlay>, edit: Edit, x: Id, y: Id)
    requires (edit.Add? || edit.Delete?) && Tidy(inherited, s) && Apply(inherited, providerInherited, s, edit).Done?
    requires x != edit.id && y != edit.id
    ensures var before, after := Shown(inherited, Before(s)), Next(inherited, providerInherited, s, edit).value.modelOrder;
      && (x in before <==> x in after)
      && (x in before && y in before ==> (IndexOf(before, x) < IndexOf(before, y) <==> IndexOf(after, x) < IndexOf(after, y)))
  {
    hide ResolveOwnedOrder, IndexOf, Only;
    var o, o' := Before(s), Next(inherited, providerInherited, s, edit).value;
    var personal, personal', order := o.personalModelIds, o'.personalModelIds, o.modelOrder;
    assert o'.modelOrder == ResolveOwnedOrder(inherited, personal', order);
    ComesFirst(inherited, personal, order, x, y);
    ComesFirst(inherited, personal', order, x, y);
    SameMembers(inherited, personal, personal', order, edit, x);
    SameMembers(inherited, personal, personal', order, edit, y);
    if x in personal' && y in personal' {
      PersonalKeepsOrder(personal, personal', edit.id, x, y);
    }
  }

  lemma SameMembers(inherited: seq<Id>, personal: seq<Id>, personal': seq<Id>, order: seq<Id>, edit: Edit, x: Id)
    requires (edit.Add? && personal' == personal + [edit.id]) || (edit.Delete? && personal' == Without(personal, {edit.id}))
    requires x != edit.id
    ensures x in ResolveOwnedOrder(inherited, personal, order) <==> x in inherited || x in personal
    ensures x in ResolveOwnedOrder(inherited, personal', order) <==> x in inherited || x in personal'
    ensures x in personal <==> x in personal'
  {
    EveryMemberOnce(inherited, personal, order);
    EveryMemberOnce(inherited, personal', order);
    OnlyKeepsTheMembers(personal, Members(personal) - {edit.id});
    hide ResolveOwnedOrder, Only;
    assert x in ResolveOwnedOrder(inherited, personal, order) <==> x in Members(ResolveOwnedOrder(inherited, personal, order));
    assert x in ResolveOwnedOrder(inherited, personal', order) <==> x in Members(ResolveOwnedOrder(inherited, personal', order));
    assert x in personal' <==> x in Members(personal');
    assert x in personal <==> x in Members(personal);
  }

  /** A model added is shown last, unless the saved order names it already. */
  lemma AddedComesLast(inherited: seq<Id>, providerInherited: bool, s: Option<Overlay>, id: Id, x: Id)
    requires Apply(inherited, providerInherited, s, Add(id)).Done? && id !in Before(s).modelOrder
    ensures var after := Next(inherited, providerInherited, s, Add(id)).value.modelOrder;
      && id in after
      && (x in after && x != id ==> IndexOf(after, x) < IndexOf(after, id))
  {
    hide ResolveOwnedOrder, IndexOf;
    var o := Before(s);
    var personal', order := o.personalModelIds + [id], o.modelOrder;
    ComesFirst(inherited, personal', order, x, id);
    EveryMemberOnce(inherited, personal', order);
    var after := ResolveOwnedOrder(inherited, personal', order);
    assert forall z :: z in after <==> z in Members(after);
    assert personal'[|o.personalModelIds|] == id;
    assert id in Members(personal');
    IndexSnoc(o.personalModelIds, id, x);
    IndexSnoc(o.personalModelIds, id, id);
    if x in after && x != id && Place(inherited, order, x) == 2 {
      assert x in Members(personal');
      assert x in o.personalModelIds;
    }
  }

  /** Which edits succeed: only an inherited provider is given a record on demand, and only Personal models are one's own to change. */
  lemma SucceedsExactly(inherited: seq<Id>, providerInherited: bool, s: Option<Overlay>, edit: Edit)
    ensures var personal, writable := Members(Before(s).personalModelIds), s.Some? || providerInherited;
      Apply(inherited, providerInherited, s, edit).Done? <==>
        match edit
        case Add(id) => writable && id !in Members(inherited) + personal
        case Reorder(_) => writable
        case Delete(id) => id in personal - Members(inherited)
        case Rename(from, to) => from == to || (from in personal - Members(inherited) && to !in personal + Members(inherited))
  {
    hide ResolveOwnedOrder, Renamed, Only;
  }
}
