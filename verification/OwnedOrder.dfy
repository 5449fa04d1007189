/** `resolveOwnedOrder`: one list from inherited ids, Personal ids and a requested order. */
module OwnedOrder {
  type Id = string

  predicate NoDuplicates(s: seq<Id>) {
    forall i, j :: 0 <= i < j < |s| ==> s[i] != s[j]
  }

  function Members(s: seq<Id>): set<Id> {
    set x | x in s
  }

  /** The first occurrences, in order. */
  function Unique(s: seq<Id>): seq<Id> {
    if s == [] then []
    else
      var before, last := Unique(s[..|s| - 1]), s[|s| - 1];
      if last in before then before else before + [last]
  }

  /** The elements that are in a set, in order. */
  function Only(s: seq<Id>, keep: set<Id>): seq<Id> {
    if s == [] then []
    else
      var before, last := Only(s[..|s| - 1], keep), s[|s| - 1];
      if last in keep then before + [last] else before
  }

  function Without(s: seq<Id>, drop: set<Id>): seq<Id> {
    Only(s, Members(s) - drop)
  }

  function ResolveOwnedOrder(builtinIds: seq<Id>, personalIds: seq<Id>, requestedOrder: seq<Id>): seq<Id> {
    var builtin := Unique(builtinIds);
    var personal := Without(Unique(personalIds), Members(builtin));
    var ordered := Only(Unique(requestedOrder), Members(builtin) + Members(personal));
    Without(builtin, Members(ordered)) + ordered + Without(personal, Members(ordered))
  }

  method UniqueInOrder(values: seq<Id>) returns (result: seq<Id>)
    ensures result == Unique(values)
  {
    var seen: set<Id> := {};
    result := [];
    var i := 0;
    while i < |values|
      invariant 0 <= i <= |values|
      invariant result == Unique(values[..i]) && seen == Members(result)
    {
      assert values[..i + 1][..i] == values[..i];
      if values[i] !in seen {
        seen := seen + {values[i]};
        result := result + [values[i]];
      }
      i := i + 1;
    }
    assert values[..i] == values;
  }

  // -------------------------------------------------------------------------
  // Filtering
  // -------------------------------------------------------------------------

  lemma {:induction false} UniqueKeepsTheMembers(s: seq<Id>)
    ensures NoDuplicates(Unique(s)) && Members(Unique(s)) == Members(s)
    ensures NoDuplicates(s) ==> Unique(s) == s
  {
    if s != [] {
      var rest, last := s[..|s| - 1], s[|s| - 1];
      UniqueKeepsTheMembers(rest);
      assert s == rest + [last];
      assert forall x :: x in s <==> x in rest || x == last;
      assert forall x :: x in Unique(rest) <==> x in Members(Unique(rest));
    }
  }

  lemma {:induction false} OnlyKeepsTheMembers(s: seq<Id>, keep: set<Id>)
    ensures Members(Only(s, keep)) == Members(s) * keep
    ensures NoDuplicates(s) ==> NoDuplicates(Only(s, keep))
  {
    if s != [] {
      var rest, last := s[..|s| - 1], s[|s| - 1];
      OnlyKeepsTheMembers(rest, keep);
      assert s == rest + [last];
      assert forall x :: x in s <==> x in rest || x == last;
      assert forall x :: x in Only(rest, keep) <==> x in Members(Only(rest, keep));
      if NoDuplicates(s) {
        assert forall i :: 0 <= i < |rest| ==> rest[i] == s[i];
        assert last !in Only(rest, keep);
      }
    }
  }

  /** Only what is in the list matters of the set. */
  lemma {:induction false} OnlyAgrees(s: seq<Id>, keep: set<Id>, other: set<Id>)
    requires Members(s) * keep == Members(s) * other
    ensures Only(s, keep) == Only(s, other)
  {
    if s != [] {
      var rest, last := s[..|s| - 1], s[|s| - 1];
      assert s == rest + [last];
      assert last in Members(s);
      assert Members(rest) <= Members(s);
      assert last in keep <==> last in Members(s) * keep;
      assert last in other <==> last in Members(s) * other;
      assert Members(rest) * keep == Members(rest) * (Members(s) * keep);
      assert Members(rest) * other == Members(rest) * (Members(s) * other);
      OnlyAgrees(rest, keep, other);
    }
  }

  lemma {:induction false} OnlyAll(s: seq<Id>, keep: set<Id>)
    requires Members(s) <= keep
    ensures Only(s, keep) == s
  {
    if s != [] {
      var rest, last := s[..|s| - 1], s[|s| - 1];
      assert s == rest + [last];
      assert last in Members(s) && Members(rest) <= Members(s);
      OnlyAll(rest, keep);
    }
  }

  lemma {:induction false} OnlyNone(s: seq<Id>, keep: set<Id>)
    requires Members(s) * keep == {}
    ensures Only(s, keep) == []
  {
    if s != [] {
      var rest, last := s[..|s| - 1], s[|s| - 1];
      assert s == rest + [last];
      assert last in Members(s) && Members(rest) <= Members(s);
      assert last !in Members(s) * keep;
      assert Members(rest) * keep <= Members(s) * keep;
      OnlyNone(rest, keep);
    }
  }

  lemma {:induction false} OnlyTwice(s: seq<Id>, first: set<Id>, second: set<Id>)
    ensures Only(Only(s, first), second) == Only(s, first * second)
  {
    if s != [] {
      var rest, last := s[..|s| - 1], s[|s| - 1];
      OnlyTwice(rest, first, second);
      assert (Only(rest, first) + [last])[..|Only(rest, first)|] == Only(rest, first);
    }
  }

  lemma {:induction false} OnlyOfConcat(a: seq<Id>, b: seq<Id>, keep: set<Id>)
    ensures Only(a + b, keep) == Only(a, keep) + Only(b, keep)
  {
    if b == [] {
      assert a + b == a;
    } else {
      OnlyOfConcat(a, b[..|b| - 1], keep);
      assert (a + b)[..|a + b| - 1] == a + b[..|b| - 1];
    }
  }

  lemma MembersOfConcat(a: seq<Id>, b: seq<Id>)
    ensures Members(a + b) == Members(a) + Members(b)
    ensures NoDuplicates(a) && NoDuplicates(b) && Members(a) * Members(b) == {} ==> NoDuplicates(a + b)
  {
    assert forall x :: x in a <==> x in Members(a);
    assert forall x :: x in b <==> x in Members(b);
    if NoDuplicates(a) && NoDuplicates(b) && Members(a) * Members(b) == {} {
      forall i, j | 0 <= i < j < |a + b|
        ensures (a + b)[i] != (a + b)[j]
      {
        if i < |a| <= j {
          assert a[i] !in Members(a) * Members(b);
        }
      }
    }
  }

  // -------------------------------------------------------------------------
  // What comes first
  // -------------------------------------------------------------------------

  /** Where an id first occurs; behind the end if it does not. */
  function IndexOf(s: seq<Id>, x: Id): (i: nat)
    ensures i <= |s| && x !in s[..i]
    ensures i < |s| ==> s[i] == x
    ensures x in s <==> i < |s|
  {
    if s == [] || s[0] == x then 0
    else
      var rest := IndexOf(s[1..], x);
      assert s[..1 + rest] == [s[0]] + s[1..][..rest];
      assert s == [s[0]] + s[1..];
      1 + rest
  }

  lemma {:induction false} IndexSnoc(s: seq<Id>, last: Id, x: Id)
    ensures IndexOf(s + [last], x) == if x in s then IndexOf(s, x) else if x == last then |s| else |s| + 1
  {
    if s == [] {
      assert [last][1..] == [];
    } else {
      assert (s + [last])[1..] == s[1..] + [last];
      assert x in s <==> x == s[0] || x in s[1..];
      IndexSnoc(s[1..], last, x);
    }
  }

  /** The list keeps what comes first of the other: of two ids it holds, the one that first occurs earlier. */
  ghost predicate KeepsOrder(list: seq<Id>, s: seq<Id>) {
    forall x, y :: x in list && y in list ==> (IndexOf(list, x) < IndexOf(list, y) <==> IndexOf(s, x) < IndexOf(s, y))
  }

  lemma OneMoreKeepsOrder(list: seq<Id>, rest: seq<Id>, last: Id)
    requires KeepsOrder(list, rest) && Members(list) <= Members(rest) && last !in rest
    ensures KeepsOrder(list + [last], rest + [last])
  {
    forall x, y | x in list + [last] && y in list + [last]
      ensures IndexOf(list + [last], x) < IndexOf(list + [last], y) <==> IndexOf(rest + [last], x) < IndexOf(rest + [last], y)
    {
      IndexSnoc(list, last, x);
      IndexSnoc(list, last, y);
      IndexSnoc(rest, last, x);
      IndexSnoc(rest, last, y);
      assert forall z :: z in list ==> z in Members(list);
    }
  }

  lemma MoreBehindKeepsOrder(list: seq<Id>, rest: seq<Id>, last: Id)
    requires KeepsOrder(list, rest) && Members(list) <= Members(rest)
    ensures KeepsOrder(list, rest + [last])
  {
    forall x, y | x in list && y in list
      ensures IndexOf(list, x) < IndexOf(list, y) <==> IndexOf(rest + [last], x) < IndexOf(rest + [last], y)
    {
      IndexSnoc(rest, last, x);
      IndexSnoc(rest, last, y);
      assert x in Members(list) && y in Members(list);
    }
  }

  /** `uniqueInOrder` keeps the first occurrences. */
  lemma {:induction false} UniqueKeepsOrder(s: seq<Id>)
    ensures KeepsOrder(Unique(s), s)
  {
    if s != [] {
      var rest, last := s[..|s| - 1], s[|s| - 1];
      assert s == rest + [last];
      UniqueKeepsOrder(rest);
      UniqueKeepsTheMembers(rest);
      assert last in Members(rest) <==> last in Unique(rest);
      hide KeepsOrder, Members, NoDuplicates;
      if last in Unique(rest) {
        MoreBehindKeepsOrder(Unique(rest), rest, last);
      } else {
        assert last !in rest by { NotAMember(rest, last); }
        OneMoreKeepsOrder(Unique(rest), rest, last);
      }
    }
  }

  lemma NotAMember(s: seq<Id>, x: Id)
    ensures x in s <==> x in Members(s)
  {
  }

  /** So does filtering what occurs once. */
  lemma {:induction false} OnlyKeepsOrder(s: seq<Id>, keep: set<Id>)
    requires NoDuplicates(s)
    ensures KeepsOrder(Only(s, keep), s)
  {
    if s != [] {
      var rest, last := s[..|s| - 1], s[|s| - 1];
      assert s == rest + [last];
      assert last !in rest;
      OnlyKeepsOrder(rest, keep);
      OnlyKeepsTheMembers(rest, keep);
      hide KeepsOrder, NoDuplicates;
      if last in keep {
        OneMoreKeepsOrder(Only(rest, keep), rest, last);
      } else {
        MoreBehindKeepsOrder(Only(rest, keep), rest, last);
      }
    }
  }

  // -------------------------------------------------------------------------
  // The order
  // -------------------------------------------------------------------------

  /** Where the members of the three parts of the order lie. */
  lemma ThreeParts(builtin: seq<Id>, unique: seq<Id>, asked: seq<Id>)
    ensures var personal := Without(unique, Members(builtin));
      var ordered := Only(asked, Members(builtin) + Members(personal));
      && Members(personal) == Members(unique) - Members(builtin)
      && Members(ordered) == (Members(builtin) + Members(unique)) * Members(asked)
      && Members(Without(builtin, Members(ordered))) == Members(builtin) - Members(asked)
      && Members(Without(personal, Members(ordered))) == Members(unique) - Members(builtin) - Members(asked)
  {
    hide Only, Members;
    var personal := Without(unique, Members(builtin));
    OnlyKeepsTheMembers(unique, Members(unique) - Members(builtin));
    var ordered := Only(asked, Members(builtin) + Members(personal));
    OnlyKeepsTheMembers(asked, Members(builtin) + Members(personal));
    OnlyKeepsTheMembers(builtin, Members(builtin) - Members(ordered));
    OnlyKeepsTheMembers(personal, Members(personal) - Members(ordered));
  }

  /** Every member is listed exactly once. */
  lemma EveryMemberOnce(builtinIds: seq<Id>, personalIds: seq<Id>, requestedOrder: seq<Id>)
    ensures var order := ResolveOwnedOrder(builtinIds, personalIds, requestedOrder);
      NoDuplicates(order) && Members(order) == Members(builtinIds) + Members(personalIds)
  {
    hide Unique, Only, Members, NoDuplicates;
    var builtin := Unique(builtinIds);
    var personal := Without(Unique(personalIds), Members(builtin));
    var ordered := Only(Unique(requestedOrder), Members(builtin) + Members(personal));
    UniqueKeepsTheMembers(builtinIds);
    UniqueKeepsTheMembers(personalIds);
    UniqueKeepsTheMembers(requestedOrder);
    OnlyKeepsTheMembers(Unique(personalIds), Members(Unique(personalIds)) - Members(builtin));
    OnlyKeepsTheMembers(Unique(requestedOrder), Members(builtin) + Members(personal));
    var front, back := Without(builtin, Members(ordered)), Without(personal, Members(ordered));
    OnlyKeepsTheMembers(builtin, Members(builtin) - Members(ordered));
    OnlyKeepsTheMembers(personal, Members(personal) - Members(ordered));
    MembersOfConcat(front, ordered);
    MembersOfConcat(front + ordered, back);
  }

  lemma OnlyTheMiddle(front: seq<Id>, middle: seq<Id>, back: seq<Id>, keep: set<Id>)
    requires Members(front) * keep == {} && Members(middle) <= keep && Members(back) * keep == {}
    ensures Only(front + middle + back, keep) == middle
  {
    hide Only, Members;
    OnlyOfConcat(front, middle, keep);
    OnlyOfConcat(front + middle, back, keep);
    OnlyNone(front, keep);
    OnlyAll(middle, keep);
    OnlyNone(back, keep);
    assert [] + middle + [] == middle;
  }

  /** What was requested keeps its order. */
  lemma RequestedOrderIsKept(builtinIds: seq<Id>, personalIds: seq<Id>, requestedOrder: seq<Id>)
    ensures var order := ResolveOwnedOrder(builtinIds, personalIds, requestedOrder);
      Only(order, Members(requestedOrder)) == Only(Unique(requestedOrder), Members(order))
  {
    hide Unique, Only, Members, NoDuplicates;
    var builtin, unique, asked := Unique(builtinIds), Unique(personalIds), Unique(requestedOrder);
    var personal := Without(unique, Members(builtin));
    var ordered := Only(asked, Members(builtin) + Members(personal));
    ThreeParts(builtin, unique, asked);
    UniqueKeepsTheMembers(builtinIds);
    UniqueKeepsTheMembers(personalIds);
    UniqueKeepsTheMembers(requestedOrder);
    EveryMemberOnce(builtinIds, personalIds, requestedOrder);
    assert Members(builtin) + Members(personal) == Members(builtinIds) + Members(personalIds);
    OnlyTheMiddle(Without(builtin, Members(ordered)), ordered, Without(personal, Members(ordered)), Members(requestedOrder));
  }

  /** Of the rest, inherited ids come first and Personal ids last, in the order given. */
  lemma RestGoesAround(builtinIds: seq<Id>, personalIds: seq<Id>, requestedOrder: seq<Id>)
    ensures var order, requested := ResolveOwnedOrder(builtinIds, personalIds, requestedOrder), Members(requestedOrder);
      exists front, middle, back :: order == front + middle + back
        && front == Without(Unique(builtinIds), requested)
        && back == Without(Unique(personalIds), requested + Members(builtinIds))
        && Members(middle) <= requested
  {
    hide Unique, Only, Members, NoDuplicates;
    var builtin, unique, asked := Unique(builtinIds), Unique(personalIds), Unique(requestedOrder);
    var personal := Without(unique, Members(builtin));
    var ordered := Only(asked, Members(builtin) + Members(personal));
    ThreeParts(builtin, unique, asked);
    UniqueKeepsTheMembers(builtinIds);
    UniqueKeepsTheMembers(requestedOrder);
    OnlyAgrees(builtin, Members(builtin) - Members(ordered), Members(builtin) - Members(asked));
    OnlyTwice(unique, Members(unique) - Members(builtin), Members(personal) - Members(ordered));
    OnlyAgrees(unique, (Members(unique) - Members(builtin)) * (Members(personal) - Members(ordered)),
               Members(unique) - (Members(asked) + Members(builtin)));
    assert ResolveOwnedOrder(builtinIds, personalIds, requestedOrder)
        == Without(builtin, Members(asked)) + ordered + Without(unique, Members(asked) + Members(builtin));
  }

  /** An order that lists every member once stays as it is, and only such an order does. */
  lemma SettledOrders(builtinIds: seq<Id>, personalIds: seq<Id>, order: seq<Id>)
    ensures ResolveOwnedOrder(builtinIds, personalIds, order) == order
      <==> NoDuplicates(order) && Members(order) == Members(builtinIds) + Members(personalIds)
  {
    EveryMemberOnce(builtinIds, personalIds, order);
    if NoDuplicates(order) && Members(order) == Members(builtinIds) + Members(personalIds) {
      RequestedListing(builtinIds, personalIds, order);
      UniqueKeepsTheMembers(order);
      OnlyAll(order, Members(builtinIds) + Members(personalIds));
    }
  }

  /** An order that mentions every member decides alone. */
  lemma RequestedListing(builtinIds: seq<Id>, personalIds: seq<Id>, order: seq<Id>)
    requires Members(builtinIds) + Members(personalIds) <= Members(order)
    ensures ResolveOwnedOrder(builtinIds, personalIds, order)
      == Only(Unique(order), Members(builtinIds) + Members(personalIds))
  {
    hide Unique, Only, Members, NoDuplicates;
    var builtin := Unique(builtinIds);
    var personal := Without(Unique(personalIds), Members(builtin));
    var ordered := Only(Unique(order), Members(builtin) + Members(personal));
    UniqueKeepsTheMembers(builtinIds);
    UniqueKeepsTheMembers(personalIds);
    UniqueKeepsTheMembers(order);
    OnlyKeepsTheMembers(Unique(personalIds), Members(Unique(personalIds)) - Members(builtin));
    OnlyKeepsTheMembers(Unique(order), Members(builtin) + Members(personal));
    assert Members(builtin) + Members(personal) == Members(builtinIds) + Members(personalIds);
    OnlyNone(builtin, Members(builtin) - Members(ordered));
    OnlyNone(personal, Members(personal) - Members(ordered));
    assert [] + ordered + [] == ordered;
  }

  lemma Idempotent(builtinIds: seq<Id>, personalIds: seq<Id>, requestedOrder: seq<Id>)
    ensures var order := ResolveOwnedOrder(builtinIds, personalIds, requestedOrder);
      ResolveOwnedOrder(builtinIds, personalIds, order) == order
  {
    EveryMemberOnce(builtinIds, personalIds, requestedOrder);
    SettledOrders(builtinIds, personalIds, ResolveOwnedOrder(builtinIds, personalIds, requestedOrder));
  }

  // -------------------------------------------------------------------------
  // Who comes first
  // -------------------------------------------------------------------------

  /** Inherited ids that were not requested, what was requested, Personal ids that were not. */
  function Place(builtinIds: seq<Id>, requestedOrder: seq<Id>, x: Id): nat {
    if x in requestedOrder then 1 else if x in builtinIds then 0 else 2
  }

  /** The list that decides within a place. */
  function Within(builtinIds: seq<Id>, personalIds: seq<Id>, requestedOrder: seq<Id>, place: nat): seq<Id> {
    if place == 0 then builtinIds else if place == 1 then requestedOrder else personalIds
  }

  ghost predicate Earlier(builtinIds: seq<Id>, personalIds: seq<Id>, requestedOrder: seq<Id>, x: Id, y: Id) {
    var i, j := Place(builtinIds, requestedOrder, x), Place(builtinIds, requestedOrder, y);
    var deciding := Within(builtinIds, personalIds, requestedOrder, i);
    i < j || (i == j && IndexOf(deciding, x) < IndexOf(deciding, y))
  }

  lemma {:induction false} IndexInParts(a: seq<Id>, b: seq<Id>, x: Id)
    ensures IndexOf(a + b, x) == if x in a then IndexOf(a, x) else |a| + IndexOf(b, x)
  {
    if a == [] {
      assert a + b == b;
    } else {
      assert (a + b)[1..] == a[1..] + b;
      assert x in a <==> x == a[0] || x in a[1..];
      IndexInParts(a[1..], b, x);
    }
  }

  /** A filtered list of first occurrences keeps the order of the whole. */
  lemma FilteredKeepsOrder(s: seq<Id>, keep: set<Id>)
    ensures KeepsOrder(Only(Unique(s), keep), s)
  {
    UniqueKeepsTheMembers(s);
    UniqueKeepsOrder(s);
    OnlyKeepsOrder(Unique(s), keep);
    OnlyKeepsTheMembers(Unique(s), keep);
    hide Unique, Only;
    forall x | x in Only(Unique(s), keep) ensures x in Unique(s) {
      assert x in Members(Only(Unique(s), keep));
    }
  }

  /** The three parts of the order, each of ids of one place. */
  lemma Parts(builtinIds: seq<Id>, personalIds: seq<Id>, requestedOrder: seq<Id>) returns (front: seq<Id>, middle: seq<Id>, back: seq<Id>)
    ensures ResolveOwnedOrder(builtinIds, personalIds, requestedOrder) == front + middle + back
    ensures forall x :: x in front ==> Place(builtinIds, requestedOrder, x) == 0
    ensures forall x :: x in middle ==> Place(builtinIds, requestedOrder, x) == 1
    ensures forall x :: x in back ==> Place(builtinIds, requestedOrder, x) == 2
    ensures KeepsOrder(front, builtinIds) && KeepsOrder(middle, requestedOrder) && KeepsOrder(back, personalIds)
  {
    hide Unique, Only, NoDuplicates, KeepsOrder;
    var builtin, unique, asked := Unique(builtinIds), Unique(personalIds), Unique(requestedOrder);
    var personal := Without(unique, Members(builtin));
    middle := Only(asked, Members(builtin) + Members(personal));
    front, back := Without(builtin, Members(middle)), Without(personal, Members(middle));
    ThreeParts(builtin, unique, asked);
    UniqueKeepsTheMembers(builtinIds);
    UniqueKeepsTheMembers(personalIds);
    UniqueKeepsTheMembers(requestedOrder);
    OnlyTwice(unique, Members(unique) - Members(builtin), Members(personal) - Members(middle));
    FilteredKeepsOrder(builtinIds, Members(builtin) - Members(middle));
    FilteredKeepsOrder(requestedOrder, Members(builtin) + Members(personal));
    FilteredKeepsOrder(personalIds, (Members(unique) - Members(builtin)) * (Members(personal) - Members(middle)));
    PartsAreApart(front, middle, back, builtinIds, personalIds, requestedOrder);
  }

  lemma PartsAreApart(front: seq<Id>, middle: seq<Id>, back: seq<Id>, builtinIds: seq<Id>, personalIds: seq<Id>, requestedOrder: seq<Id>)
    requires Members(front) == Members(builtinIds) - Members(requestedOrder)
    requires Members(middle) <= Members(requestedOrder)
    requires Members(back) == Members(personalIds) - Members(builtinIds) - Members(requestedOrder)
    ensures forall x :: x in front ==> Place(builtinIds, requestedOrder, x) == 0
    ensures forall x :: x in middle ==> Place(builtinIds, requestedOrder, x) == 1
    ensures forall x :: x in back ==> Place(builtinIds, requestedOrder, x) == 2
  {
    forall x ensures (x in front ==> x in Members(front)) && (x in middle ==> x in Members(middle)) && (x in back ==> x in Members(back)) {}
    assert forall x :: x in Members(requestedOrder) <==> x in requestedOrder;
    assert forall x :: x in Members(builtinIds) <==> x in builtinIds;
  }

  /** One of two members comes first exactly by its place, and within a place by the list that decides there. */
  lemma ComesFirst(builtinIds: seq<Id>, personalIds: seq<Id>, requestedOrder: seq<Id>, x: Id, y: Id)
    ensures var order := ResolveOwnedOrder(builtinIds, personalIds, requestedOrder);
      x in order && y in order ==>
        (IndexOf(order, x) < IndexOf(order, y) <==> Earlier(builtinIds, personalIds, requestedOrder, x, y))
  {
    hide ResolveOwnedOrder;
    var front, middle, back := Parts(builtinIds, personalIds, requestedOrder);
    IndexInParts(front + middle, back, x);
    IndexInParts(front + middle, back, y);
    IndexInParts(front, middle, x);
    IndexInParts(front, middle, y);
    hide IndexOf;
    assert forall z :: z in front + middle + back <==> z in front || z in middle || z in back;
  }
}
