/** Renaming a Personal model: when it keeps its place among the models shown, exactly. */
module Renaming {
  import opened OwnedOrder
  import opened PersonalModels
  import opened Prelude

  /** The order in which the models of a record are shown, saved or not. */
  function Shown(inherited: seq<Id>, o: Overlay): seq<Id> {
    ResolveOwnedOrder(inherited, o.personalModelIds, o.modelOrder)
  }

  lemma {:induction false} NothingRenamed(s: seq<Id>, from: Id, to: Id)
    requires from !in s
    ensures Renamed(s, from, to) == s
  {
    if s != [] {
      NothingRenamed(s[..|s| - 1], from, to);
    }
  }

  lemma {:induction false} RenamedConcat(a: seq<Id>, b: seq<Id>, from: Id, to: Id)
    ensures Renamed(a + b, from, to) == Renamed(a, from, to) + Renamed(b, from, to)
  {
    RenamedAt(a, from, to);
    RenamedAt(b, from, to);
    RenamedAt(a + b, from, to);
  }

  lemma RenamedSnoc(s: seq<Id>, last: Id, from: Id, to: Id)
    ensures Renamed(s + [last], from, to) == Renamed(s, from, to) + [NewName(last, from, to)]
  {
    assert (s + [last])[..|s|] == s;
  }

  lemma UniqueSnoc(s: seq<Id>, last: Id)
    ensures Unique(s + [last]) == if last in Unique(s) then Unique(s) else Unique(s) + [last]
    ensures last in Unique(s) <==> last in s
  {
    assert (s + [last])[..|s|] == s;
    UniqueKeepsTheMembers(s);
    assert last in Unique(s) <==> last in Members(Unique(s));
    assert last in s <==> last in Members(s);
  }

  lemma {:induction false} UniqueRenamed(s: seq<Id>, from: Id, to: Id)
    requires to !in s
    ensures Unique(Renamed(s, from, to)) == Renamed(Unique(s), from, to)
  {
    if s != [] {
      var rest, last := s[..|s| - 1], s[|s| - 1];
      var last' := NewName(last, from, to);
      assert s == rest + [last];
      hide Unique, Renamed, NewName;
      UniqueRenamed(rest, from, to);
      RenamedSnoc(rest, last, from, to);
      UniqueSnoc(rest, last);
      UniqueSnoc(Renamed(rest, from, to), last');
      RenamedHas(rest, from, to, last);
      RenamedSnoc(Unique(rest), last, from, to);
    }
  }

  lemma RenamedHas(s: seq<Id>, from: Id, to: Id, x: Id)
    requires to !in s && x != to
    ensures NewName(x, from, to) in Renamed(s, from, to) <==> x in s
  {
    RenamedAt(s, from, to);
    if x in s {
      var i :| 0 <= i < |s| && s[i] == x;
      assert Renamed(s, from, to)[i] == NewName(x, from, to);
    }
  }

  /** Filtering before and after, when each id is kept as its new name is. */
  lemma {:induction false} OnlyRenamed(s: seq<Id>, keep: set<Id>, keep': set<Id>, from: Id, to: Id)
    requires forall x :: x in s ==> (x in keep <==> NewName(x, from, to) in keep')
    ensures Only(Renamed(s, from, to), keep') == Renamed(Only(s, keep), from, to)
  {
    if s != [] {
      var rest, last := s[..|s| - 1], s[|s| - 1];
      OnlyRenamed(rest, keep, keep', from, to);
      var r := NewName(last, from, to);
      assert last in s;
      assert Renamed(s, from, to) == Renamed(rest, from, to) + [r];
      assert Renamed(s, from, to)[..|s| - 1] == Renamed(rest, from, to) by { RenamedAt(rest, from, to); }
      RenamedConcat(Only(rest, keep), [last], from, to);
      assert Renamed([last], from, to) == [r];
    }
  }

  lemma WithoutRenamed(s: seq<Id>, drop: set<Id>, drop': set<Id>, from: Id, to: Id)
    requires to !in s
    requires forall x :: x in s ==> (x in drop <==> NewName(x, from, to) in drop')
    ensures Without(Renamed(s, from, to), drop') == Renamed(Without(s, drop), from, to)
  {
    forall x | x in s ensures NewName(x, from, to) in Members(Renamed(s, from, to)) {
      RenamedHas(s, from, to, x);
    }
    OnlyRenamed(s, Members(s) - drop, Members(Renamed(s, from, to)) - drop', from, to);
  }

  lemma MembersRenamed(s: seq<Id>, from: Id, to: Id, x: Id)
    requires to !in s && x != to
    ensures NewName(x, from, to) in Members(Renamed(s, from, to)) <==> x in Members(s)
  {
    RenamedHas(s, from, to, x);
  }

  /** Renaming commutes with ordering. */
  lemma OrderRenamed(inherited: seq<Id>, personal: seq<Id>, order: seq<Id>, from: Id, to: Id)
    requires from !in inherited && to !in inherited && to !in personal && to !in order
    ensures ResolveOwnedOrder(inherited, Renamed(personal, from, to), Renamed(order, from, to))
      == Renamed(ResolveOwnedOrder(inherited, personal, order), from, to)
  {
    assert from !in Members(inherited) && to !in Members(inherited) && to !in Members(personal) && to !in Members(order);
    var builtin, unique, asked := Unique(inherited), Unique(personal), Unique(order);
    UniqueKeepsTheMembers(inherited);
    UniqueKeepsTheMembers(personal);
    UniqueKeepsTheMembers(order);
    var mine := Without(unique, Members(builtin));
    OnlyKeepsTheMembers(unique, Members(unique) - Members(builtin));
    var members := Members(builtin) + Members(mine);
    var ordered := Only(asked, members);
    OnlyKeepsTheMembers(asked, members);
    assert forall x :: x in Members(builtin) ==> x in builtin;
    assert to !in Members(unique) && to !in Members(asked) && to !in Members(mine) && to !in Members(ordered);
    assert to !in unique && to !in asked && to !in mine && to !in ordered && from !in builtin && to !in builtin;
    hide Unique, Only, Members, Renamed, NoDuplicates;
    UniqueRenamed(personal, from, to);
    UniqueRenamed(order, from, to);
    WithoutRenamed(unique, Members(builtin), Members(builtin), from, to);
    var mine' := Renamed(mine, from, to);
    forall x | x in asked
      ensures x in members <==> NewName(x, from, to) in Members(builtin) + Members(mine')
    {
      MembersRenamed(mine, from, to, x);
    }
    OnlyRenamed(asked, members, Members(builtin) + Members(mine'), from, to);
    var ordered' := Renamed(ordered, from, to);
    PartsRenamed(builtin, mine, ordered, from, to);
    assert ResolveOwnedOrder(inherited, Renamed(personal, from, to), Renamed(order, from, to))
      == Without(builtin, Members(ordered')) + ordered' + Without(mine', Members(ordered'));
  }

  lemma PartsRenamed(builtin: seq<Id>, mine: seq<Id>, ordered: seq<Id>, from: Id, to: Id)
    requires from !in builtin && to !in builtin && to !in mine && to !in ordered
    ensures var ordered', mine' := Renamed(ordered, from, to), Renamed(mine, from, to);
      Without(builtin, Members(ordered')) + ordered' + Without(mine', Members(ordered'))
        == Renamed(Without(builtin, Members(ordered)) + ordered + Without(mine, Members(ordered)), from, to)
  {
    var ordered' := Renamed(ordered, from, to);
    var front, back := Without(builtin, Members(ordered)), Without(mine, Members(ordered));
    forall x | x != to ensures NewName(x, from, to) in Members(ordered') <==> x in Members(ordered) {
      MembersRenamed(ordered, from, to, x);
    }
    hide Only, Renamed, NoDuplicates;
    NothingRenamed(builtin, from, to);
    WithoutRenamed(builtin, Members(ordered), Members(ordered'), from, to);
    WithoutRenamed(mine, Members(ordered), Members(ordered'), from, to);
    RenamedConcat(front, ordered, from, to);
    RenamedConcat(front + ordered, back, from, to);
  }

  // -------------------------------------------------------------------------
  // The three parts of what is shown
  // -------------------------------------------------------------------------

  /** The Personal ids that are not inherited. */
  function Mine(inherited: seq<Id>, personal: seq<Id>): seq<Id> {
    Without(Unique(personal), Members(Unique(inherited)))
  }

  /** The members the saved order names. */
  function Placed(inherited: seq<Id>, o: Overlay): seq<Id> {
    Only(Unique(o.modelOrder), Members(inherited) + Members(o.personalModelIds))
  }

  /** The Personal ids it does not name, which are shown last. */
  function Unplaced(inherited: seq<Id>, o: Overlay): seq<Id> {
    Without(Mine(inherited, o.personalModelIds), Members(Placed(inherited, o)))
  }

  function Front(inherited: seq<Id>, o: Overlay): seq<Id> {
    Without(Unique(inherited), Members(Placed(inherited, o)))
  }

  lemma ShownInParts(inherited: seq<Id>, o: Overlay)
    ensures Shown(inherited, o) == Front(inherited, o) + Placed(inherited, o) + Unplaced(inherited, o)
  {
    hide Unique, Only, Members;
    var unique := Unique(o.personalModelIds);
    UniqueKeepsTheMembers(inherited);
    UniqueKeepsTheMembers(o.personalModelIds);
    OnlyKeepsTheMembers(unique, Members(unique) - Members(Unique(inherited)));
    assert Members(Unique(inherited)) + Members(Mine(inherited, o.personalModelIds))
      == Members(inherited) + Members(o.personalModelIds);
  }

  /**
   What a caller can check before renaming: the saved order names the new id not at all or only behind
   the old one; or no member stands from the new id up to the old one, or to the end, and then the old
   one is the first of those that are not placed.
   */
  predicate StaysPut(inherited: seq<Id>, o: Overlay, from: Id, to: Id) {
    var asked := Unique(o.modelOrder);
    var i, j := IndexOf(asked, from), IndexOf(asked, to);
    i <= j
    || (Only(asked[j..i], Members(inherited) + Members(o.personalModelIds)) == []
        && (i < |asked| || (Unplaced(inherited, o) != [] && Unplaced(inherited, o)[0] == from)))
  }

  // -------------------------------------------------------------------------
  // When the saved order names the new id
  // -------------------------------------------------------------------------

  lemma {:induction false} UniqueTwice(s: seq<Id>, from: Id, to: Id)
    ensures Unique(Renamed(s, from, to)) == Unique(Renamed(Unique(s), from, to))
  {
    if s != [] {
      var rest, last := s[..|s| - 1], s[|s| - 1];
      var last' := NewName(last, from, to);
      assert s == rest + [last];
      UniqueTwice(rest, from, to);
      RenamedKeeps(rest, from, to, last);
      hide Unique, Renamed, NewName;
      RenamedSnoc(rest, last, from, to);
      UniqueSnoc(rest, last);
      UniqueSnoc(Renamed(rest, from, to), last');
      RenamedSnoc(Unique(rest), last, from, to);
      UniqueSnoc(Renamed(Unique(rest), from, to), last');
    }
  }

  lemma RenamedKeeps(s: seq<Id>, from: Id, to: Id, x: Id)
    ensures x in s ==> NewName(x, from, to) in Renamed(s, from, to)
  {
    RenamedAt(s, from, to);
    if x in s {
      var i :| 0 <= i < |s| && s[i] == x;
      assert Renamed(s, from, to)[i] == NewName(x, from, to);
    }
  }

  // Lists with one id picked out.

  function Mid(a: seq<Id>, x: Id, c: seq<Id>): (s: seq<Id>)
    ensures |s| == |a| + 1 + |c|
  {
    a + [x] + c
  }

  lemma MidHas(a: seq<Id>, x: Id, c: seq<Id>)
    ensures Members(Mid(a, x, c)) == Members(a) + {x} + Members(c)
    ensures Members(a + c) == Members(a) + Members(c)
    ensures forall y :: y in Mid(a, x, c) <==> y in a || y == x || y in c
    ensures forall y :: y in a + c <==> y in a || y in c
  {
    MembersOfConcat(a + [x], c);
    MembersOfConcat(a, [x]);
    MembersOfConcat(a, c);
  }

  lemma MidOnly(a: seq<Id>, x: Id, c: seq<Id>, keep: set<Id>)
    ensures Only(Mid(a, x, c), keep) == if x in keep then Mid(Only(a, keep), x, Only(c, keep)) else Only(a, keep) + Only(c, keep)
  {
    assert Only([x], keep) == if x in keep then [x] else [] by { assert [x][..0] == []; }
    hide Only;
    OnlyOfConcat(a + [x], c, keep);
    OnlyOfConcat(a, [x], keep);
    assert Only(a, keep) + [] == Only(a, keep);
  }

  lemma MidRenamed(a: seq<Id>, c: seq<Id>, from: Id, to: Id)
    requires from !in a && from !in c
    ensures Renamed(Mid(a, from, c), from, to) == Mid(a, to, c)
  {
    NothingRenamed(a, from, to);
    NothingRenamed(c, from, to);
    hide Renamed;
    LastRenamed(a, from, to);
    RenamedConcat(a + [from], c, from, to);
  }

  /** A list of distinct ids, cut at one of them. */
  lemma CutAt(s: seq<Id>, k: nat) returns (a: seq<Id>, c: seq<Id>)
    requires NoDuplicates(s) && k < |s|
    ensures a == s[..k] && c == s[k + 1..] && s == Mid(a, s[k], c) && s[k] !in a && s[k] !in c
    ensures NoDuplicates(a) && NoDuplicates(c) && s[k..] == [s[k]] + c
  {
    a, c := s[..k], s[k + 1..];
  }

  /** What was not there before is appended. */
  lemma {:induction false} UniqueAppends(s: seq<Id>, unique: seq<Id>, t: seq<Id>)
    requires Unique(s) == unique && NoDuplicates(unique + t)
    ensures Unique(s + t) == unique + t
  {
    if t == [] {
      assert s + t == s && unique + t == unique;
    } else {
      var rest, last := t[..|t| - 1], t[|t| - 1];
      assert unique + t == (unique + rest) + [last] && s + t == (s + rest) + [last];
      assert forall i :: 0 <= i < |unique + rest| ==> (unique + rest)[i] == (unique + t)[i];
      assert last !in unique + rest by {
        assert forall i :: 0 <= i < |unique + rest| ==> (unique + t)[i] != (unique + t)[|unique + t| - 1];
      }
      UniqueAppends(s, unique, rest);
      UniqueSnoc(s + rest, last);
    }
  }

  /** A second occurrence is dropped. */
  lemma UniqueDropsSecond(p: seq<Id>, q: seq<Id>, t: seq<Id>, x: Id)
    requires NoDuplicates(Mid(p, x, q + t))
    ensures Unique(Mid(p, x, Mid(q, x, t))) == Mid(p, x, q + t)
  {
    var first := Mid(p, x, q);
    assert Mid(p, x, q + t) == first + t;
    assert NoDuplicates(first) by { assert forall i :: 0 <= i < |first| ==> (first + t)[i] == first[i]; }
    assert Mid(p, x, Mid(q, x, t)) == (first + [x]) + t;
    UniqueKeepsTheMembers(first);
    assert first[|p|] == x;
    hide Unique;
    UniqueSnoc(first, x);
    UniqueAppends(first + [x], first, t);
  }

  lemma SameEnds(front: seq<Id>, a: seq<Id>, b: seq<Id>, back: seq<Id>)
    requires |a| == |b|
    ensures front + a + back == front + b + back <==> a == b
  {
    if front + a + back == front + b + back {
      assert a == (front + a + back)[|front|..|front| + |a|];
      assert b == (front + b + back)[|front|..|front| + |a|];
    }
  }

  lemma SameTails(front: seq<Id>, a: seq<Id>, b: seq<Id>)
    requires |a| == |b|
    ensures front + a == front + b <==> a == b
  {
    if front + a == front + b {
      assert a == (front + a)[|front|..] && b == (front + b)[|front|..];
    }
  }

  /** An id in front of some others, and behind them. */
  lemma Passed(front: seq<Id>, q: seq<Id>, t: seq<Id>, x: Id)
    requires x !in q
    ensures Mid(front, x, q + t) == front + Mid(q, x, t) <==> q == []
  {
    var before, behind := [x] + (q + t), Mid(q, x, t);
    assert Mid(front, x, q + t) == front + before;
    SameTails(front, before, behind);
    if q != [] {
      assert before[0] == x && behind[0] == q[0];
    } else {
      assert [] + t == t && before == behind;
    }
  }

  /** Filtering by the members before and after, away from the two ids. */
  lemma OnlyElsewhere(s: seq<Id>, members: set<Id>, from: Id, to: Id)
    requires from !in s && to !in s
    ensures Only(s, members - {from} + {to}) == Only(s, members)
    ensures to !in Only(s, members) && from !in Only(s, members)
  {
    assert from !in Members(s) && to !in Members(s);
    OnlyAgrees(s, members - {from} + {to}, members);
    OnlyKeepsTheMembers(s, members);
    assert forall x :: x in Only(s, members) <==> x in Members(Only(s, members));
  }

  /** The saved order with the old id in front of the new one. */
  lemma PlacedOldFirst(p: seq<Id>, q: seq<Id>, t: seq<Id>, members: set<Id>, from: Id, to: Id)
    requires NoDuplicates(Mid(p, from, Mid(q, to, t))) && from != to && from in members && to !in members
    ensures var asked := Mid(p, from, Mid(q, to, t));
      var placed, placed' := Only(asked, members), Only(Unique(Renamed(asked, from, to)), members - {from} + {to});
      placed' == Renamed(placed, from, to) && ExchangedIn(placed, placed', from, to)
  {
    var asked := Mid(p, from, Mid(q, to, t));
    DistinctParts(p, from, q, to, t);
    MidHas(q, to, t);
    MidRenamed(p, Mid(q, to, t), from, to);
    UniqueDropsSecond(p, q, t, to);
    Placements(p, q, t, members, from, to);
    hide Only, Unique, Renamed, NoDuplicates, Mid, Members, ExchangedIn;
    MidOnly(p, from, Mid(q, to, t), members);
    MidOnly(q, to, t, members);
    HasOfConcat(Only(q, members), Only(t, members));
    MidRenamed(Only(p, members), Only(q, members) + Only(t, members), from, to);
    OldFirstExchanged(Only(p, members), Only(q, members) + Only(t, members), from, to);
  }

  /** The saved order with the new id in front of the old one. */
  lemma PlacedNewFirst(p: seq<Id>, q: seq<Id>, t: seq<Id>, members: set<Id>, from: Id, to: Id)
    requires NoDuplicates(Mid(p, to, Mid(q, from, t))) && from != to && from in members && to !in members
    ensures var asked := Mid(p, to, Mid(q, from, t));
      var placed, placed' := Only(asked, members), Only(Unique(Renamed(asked, from, to)), members - {from} + {to});
      (placed' == Renamed(placed, from, to) <==> Only(q, members) == []) && ExchangedIn(placed, placed', from, to)
  {
    var asked := Mid(p, to, Mid(q, from, t));
    DistinctParts(p, to, q, from, t);
    NewFirstRenamed(p, q, t, from, to);
    UniqueDropsSecond(p, q, t, to);
    Placements(p, q, t, members, from, to);
    hide Only, Unique, Renamed, NoDuplicates, Mid, Members, ExchangedIn;
    var a, b, c := Only(p, members), Only(q, members), Only(t, members);
    MidOnly(p, to, Mid(q, from, t), members);
    MidOnly(q, from, t, members);
    assert Only(asked, members) == a + Mid(b, from, c);
    NewFirstCompared(a, b, c, from, to);
    NewFirstExchanged(a, b, c, from, to);
  }

  lemma NewFirstCompared(a: seq<Id>, b: seq<Id>, c: seq<Id>, from: Id, to: Id)
    requires from !in a && from !in b && from !in c && to !in b
    ensures Mid(a, to, b + c) == Renamed(a + Mid(b, from, c), from, to) <==> b == []
  {
    hide Renamed, Mid;
    MidRenamed(b, c, from, to);
    NothingRenamed(a, from, to);
    RenamedConcat(a, Mid(b, from, c), from, to);
    Passed(a, b, c, to);
  }

  lemma NewFirstExchanged(a: seq<Id>, b: seq<Id>, c: seq<Id>, from: Id, to: Id)
    requires from != to && from !in a && from !in b && from !in c && to !in a && to !in b && to !in c
    ensures ExchangedIn(a + Mid(b, from, c), Mid(a, to, b + c), from, to)
  {
    MidHas(b, from, c);
    MidHas(a, to, b + c);
    MembersOfConcat(a, Mid(b, from, c));
    HasOfConcat(a, Mid(b, from, c));
    NotAmong(a, b, c, from);
    hide Mid, Members;
  }

  lemma OldFirstExchanged(a: seq<Id>, d: seq<Id>, from: Id, to: Id)
    requires from != to && from !in a && from !in d && to !in a && to !in d
    ensures ExchangedIn(Mid(a, from, d), Mid(a, to, d), from, to)
  {
    MidHas(a, from, d);
    MidHas(a, to, d);
    NotAmong(a, d, [], from);
    hide Mid, Members;
  }

  lemma NotAmong(a: seq<Id>, b: seq<Id>, c: seq<Id>, x: Id)
    ensures x !in a ==> x !in Members(a)
    ensures x !in b ==> x !in Members(b)
    ensures x !in c ==> x !in Members(c)
  {
  }

  lemma HasOfConcat(a: seq<Id>, c: seq<Id>)
    ensures forall y :: y in a + c <==> y in a || y in c
  {
  }

  lemma NewFirstRenamed(p: seq<Id>, q: seq<Id>, t: seq<Id>, from: Id, to: Id)
    requires from != to && from !in p && from !in q && from !in t
    ensures Renamed(Mid(p, to, Mid(q, from, t)), from, to) == Mid(p, to, Mid(q, to, t))
  {
    assert from !in p + [to];
    NothingRenamed(p + [to], from, to);
    hide Renamed;
    MidRenamed(q, t, from, to);
    RenamedConcat(p + [to], Mid(q, from, t), from, to);
  }

  /** The old id was exchanged for the new one, somewhere. */
  predicate ExchangedIn(placed: seq<Id>, placed': seq<Id>, from: Id, to: Id) {
    && |placed| == |placed'| && Members(placed') == Members(placed) - {from} + {to}
    && from in placed && to !in placed
  }

  lemma DistinctParts(p: seq<Id>, x: Id, q: seq<Id>, y: Id, t: seq<Id>)
    requires NoDuplicates(Mid(p, x, Mid(q, y, t)))
    ensures x !in p && x !in q && x !in t && y !in p && y !in q && y !in t && x != y
    ensures NoDuplicates(Mid(p, x, q + t)) && NoDuplicates(Mid(p, y, q + t))
  {
    DistinctMid(p, x, Mid(q, y, t));
    DistinctMid(q, y, t);
    MidHas(q, y, t);
    var s := Mid(p, x, Mid(q, y, t));
    assert Mid(p, x, q + t) == s[..|p| + 1 + |q|] + s[|p| + 1 + |q| + 1..];
    assert y !in p by { assert s[|p| + 1 + |q|] == y; assert forall i :: 0 <= i < |p| ==> s[i] == p[i]; }
    DropPlace(s, |p| + 1 + |q|, Mid(p, x, q + t));
    assert Mid(p, y, q + t) == Mid(p, x, q + t)[|p| := y];
    MidHas(p, x, q + t);
    ReplacePlace(Mid(p, x, q + t), |p|, y, Mid(p, y, q + t));
  }

  lemma DistinctMid(a: seq<Id>, x: Id, c: seq<Id>)
    requires NoDuplicates(Mid(a, x, c))
    ensures x !in a && x !in c && NoDuplicates(c)
  {
    var s := Mid(a, x, c);
    assert s[|a|] == x;
    assert forall i :: 0 <= i < |a| ==> s[i] == a[i];
    assert forall i :: 0 <= i < |c| ==> s[|a| + 1 + i] == c[i];
  }

  lemma DropPlace(s: seq<Id>, l: nat, r: seq<Id>)
    requires NoDuplicates(s) && l < |s| && r == s[..l] + s[l + 1..]
    ensures NoDuplicates(r)
  {
  }

  lemma ReplacePlace(s: seq<Id>, k: nat, y: Id, r: seq<Id>)
    requires NoDuplicates(s) && k < |s| && r == s[k := y] && y !in s
    ensures NoDuplicates(r)
  {
  }

  /** The other parts are filtered alike before and after. */
  lemma Placements(p: seq<Id>, q: seq<Id>, t: seq<Id>, members: set<Id>, from: Id, to: Id)
    requires from !in p && from !in q && from !in t && to !in p && to !in q && to !in t
    ensures var members' := members - {from} + {to};
      Only(Mid(p, to, q + t), members') == Mid(Only(p, members), to, Only(q, members) + Only(t, members))
    ensures from !in Only(p, members) && from !in Only(q, members) && from !in Only(t, members)
    ensures to !in Only(p, members) && to !in Only(q, members) && to !in Only(t, members)
  {
    var members' := members - {from} + {to};
    hide Only, Mid;
    OnlyElsewhere(p, members, from, to);
    OnlyElsewhere(q, members, from, to);
    OnlyElsewhere(t, members, from, to);
    MidOnly(p, to, q + t, members');
    OnlyOfConcat(q, t, members');
  }

  // -------------------------------------------------------------------------
  // The three parts after renaming
  // -------------------------------------------------------------------------

  /** The record with the ids exchanged, its order not normalised yet. */
  function Exchanged(o: Overlay, from: Id, to: Id): Overlay {
    Overlay(Renamed(o.personalModelIds, from, to), Renamed(o.modelOrder, from, to))
  }

  predicate Renames(inherited: seq<Id>, o: Overlay, from: Id, to: Id) {
    from != to && from !in inherited && to !in inherited && from in o.personalModelIds && to !in o.personalModelIds
  }

  lemma MembersAfter(inherited: seq<Id>, o: Overlay, from: Id, to: Id)
    requires Renames(inherited, o, from, to)
    ensures var members := Members(inherited) + Members(o.personalModelIds);
      && Members(inherited) + Members(Exchanged(o, from, to).personalModelIds) == members - {from} + {to}
      && from in members && to !in members
  {
    RenamedMembers(o.personalModelIds, from, to);
    assert from !in Members(inherited) && to !in Members(inherited);
    assert from in Members(o.personalModelIds) && to !in Members(o.personalModelIds);
  }

  lemma MineMembers(inherited: seq<Id>, o: Overlay, from: Id, to: Id)
    requires Renames(inherited, o, from, to)
    ensures var mine := Mine(inherited, o.personalModelIds);
      && NoDuplicates(mine) && from in mine && to !in mine
      && from !in Unique(inherited) && to !in Unique(inherited)
      && Mine(inherited, Renamed(o.personalModelIds, from, to)) == Renamed(mine, from, to)
  {
    var unique, builtin := Unique(o.personalModelIds), Unique(inherited);
    UniqueKeepsTheMembers(inherited);
    UniqueKeepsTheMembers(o.personalModelIds);
    assert from in Members(o.personalModelIds) && to !in Members(o.personalModelIds);
    assert from !in Members(builtin) && to !in Members(builtin);
    assert to !in unique by { assert to !in Members(unique); }
    OnlyKeepsTheMembers(unique, Members(unique) - Members(builtin));
    assert from in Members(Mine(inherited, o.personalModelIds)) && to !in Members(Mine(inherited, o.personalModelIds));
    hide Unique, Only, Renamed, NoDuplicates;
    UniqueRenamed(o.personalModelIds, from, to);
    WithoutRenamed(unique, Members(builtin), Members(builtin), from, to);
  }

  /** The inherited ids in front are the same ones. */
  lemma FrontStays(inherited: seq<Id>, o: Overlay, from: Id, to: Id)
    requires Renames(inherited, o, from, to)
    requires Members(Placed(inherited, Exchanged(o, from, to))) - {from, to} == Members(Placed(inherited, o)) - {from, to}
    ensures Front(inherited, Exchanged(o, from, to)) == Front(inherited, o) && from !in Front(inherited, o)
  {
    MineMembers(inherited, o, from, to);
    var builtin, placed, placed' := Unique(inherited), Placed(inherited, o), Placed(inherited, Exchanged(o, from, to));
    assert from !in Members(builtin) && to !in Members(builtin);
    hide Unique, Only, Placed;
    assert forall x :: x in Members(builtin) - Members(placed) <==> x in Members(builtin) - Members(placed') by {
      forall x | x in Members(builtin)
        ensures x in Members(placed) <==> x in Members(placed')
      {
        assert x in Members(placed) - {from, to} <==> x in Members(placed);
        assert x in Members(placed') - {from, to} <==> x in Members(placed');
      }
    }
    assert Members(builtin) - Members(placed) == Members(builtin) - Members(placed');
    OnlyKeepsTheMembers(builtin, Members(builtin) - Members(placed));
    assert from !in Members(Front(inherited, o));
  }

  /** Both ids are in the saved order: what is placed decides. */
  lemma PlacedWithBoth(asked: seq<Id>, members: set<Id>, from: Id, to: Id)
    requires NoDuplicates(asked) && from in asked && to in asked && from != to && from in members && to !in members
    ensures var placed, placed' := Only(asked, members), Only(Unique(Renamed(asked, from, to)), members - {from} + {to});
      var i, j := IndexOf(asked, from), IndexOf(asked, to);
      ExchangedIn(placed, placed', from, to) && (placed' == Renamed(placed, from, to) <==> i <= j || Only(asked[j..i], members) == [])
  {
    var i, j := IndexOf(asked, from), IndexOf(asked, to);
    hide Only, Unique, Renamed, IndexOf, ExchangedIn;
    if i < j {
      var p, q, t := CutAtBoth(asked, i, j);
      hide Mid, NoDuplicates;
      PlacedOldFirst(p, q, t, members, from, to);
    } else {
      var p, q, t := CutAtBoth(asked, j, i);
      hide Mid, NoDuplicates;
      PlacedNewFirst(p, q, t, members, from, to);
      OnlyBehind(to, q, members);
    }
  }

  lemma CutAtBoth(s: seq<Id>, k: nat, l: nat) returns (p: seq<Id>, q: seq<Id>, t: seq<Id>)
    requires NoDuplicates(s) && k < l < |s|
    ensures s == Mid(p, s[k], Mid(q, s[l], t)) && s[k..l] == [s[k]] + q
  {
    var rest;
    p, rest := CutAt(s, k);
    q, t := CutAt(rest, l - k - 1);
  }

  lemma OnlyBehind(x: Id, q: seq<Id>, keep: set<Id>)
    requires x !in keep
    ensures Only([x] + q, keep) == Only(q, keep)
  {
    MidOnly([], x, q, keep);
    assert [] + Only(q, keep) == Only(q, keep) && [] + [x] == [x];
  }

  lemma WithBothPlaced(inherited: seq<Id>, o: Overlay, from: Id, to: Id)
    requires Renames(inherited, o, from, to) && from in Unique(o.modelOrder) && to in Unique(o.modelOrder)
    ensures var placed, placed' := Placed(inherited, o), Placed(inherited, Exchanged(o, from, to));
      && |placed| == |placed'| && from in placed && to !in placed
      && Members(placed') == Members(placed) - {from} + {to}
      && Members(placed') - {from, to} == Members(placed) - {from, to}
      && (StaysPut(inherited, o, from, to) <==> placed' == Renamed(placed, from, to))
  {
    hide Unique, Only, Renamed, NoDuplicates, IndexOf, StaysPut;
    MembersAfter(inherited, o, from, to);
    UniqueKeepsTheMembers(o.modelOrder);
    UniqueTwice(o.modelOrder, from, to);
    PlacedWithBoth(Unique(o.modelOrder), Members(inherited) + Members(o.personalModelIds), from, to);
    StaysPutWithBoth(inherited, o, from, to);
  }

  /** Both ids are in the saved order: the other parts stay as they are. */
  lemma MovedWithBoth(inherited: seq<Id>, o: Overlay, from: Id, to: Id)
    requires Renames(inherited, o, from, to) && from in Unique(o.modelOrder) && to in Unique(o.modelOrder)
    ensures Shown(inherited, Exchanged(o, from, to)) == Renamed(Shown(inherited, o), from, to) <==> StaysPut(inherited, o, from, to)
  {
    hide Unique, Only, Renamed, NoDuplicates, IndexOf, Shown, Placed, Front, Unplaced, Members, StaysPut;
    var o' := Exchanged(o, from, to);
    WithBothPlaced(inherited, o, from, to);
    FrontStays(inherited, o, from, to);
    UnplacedRenamed(inherited, o, from, to);
    ShownInParts(inherited, o);
    ShownInParts(inherited, o');
    Reassembled(Front(inherited, o), Placed(inherited, o), Placed(inherited, o'), Unplaced(inherited, o), from, to);
  }

  lemma StaysPutWithBoth(inherited: seq<Id>, o: Overlay, from: Id, to: Id)
    requires from in Unique(o.modelOrder)
    ensures var asked := Unique(o.modelOrder);
      var i, j := IndexOf(asked, from), IndexOf(asked, to);
      StaysPut(inherited, o, from, to)
      <==> (i <= j || Only(asked[j..i], Members(inherited) + Members(o.personalModelIds)) == [])
  {
    hide Unique, Only;
  }

  lemma UnplacedRenamed(inherited: seq<Id>, o: Overlay, from: Id, to: Id)
    requires Renames(inherited, o, from, to)
    requires Members(Placed(inherited, Exchanged(o, from, to))) == Members(Placed(inherited, o)) - {from} + {to}
    requires from in Placed(inherited, o) && to !in Placed(inherited, o)
    ensures Unplaced(inherited, Exchanged(o, from, to)) == Renamed(Unplaced(inherited, o), from, to)
  {
    hide Unique, Only, Renamed, NoDuplicates, Placed, Mine;
    MineMembers(inherited, o, from, to);
    var mine, placed, placed' := Mine(inherited, o.personalModelIds), Placed(inherited, o), Placed(inherited, Exchanged(o, from, to));
    forall x | x in mine
      ensures x in Members(placed) <==> NewName(x, from, to) in Members(placed')
    {
      assert from in Members(placed) && to !in Members(placed);
    }
    WithoutRenamed(mine, Members(placed), Members(placed'), from, to);
  }

  lemma Reassembled(front: seq<Id>, placed: seq<Id>, placed': seq<Id>, back: seq<Id>, from: Id, to: Id)
    requires from !in front && |placed| == |placed'|
    ensures front + placed' + Renamed(back, from, to) == Renamed(front + placed + back, from, to)
      <==> placed' == Renamed(placed, from, to)
  {
    NothingRenamed(front, from, to);
    RenamedAt(placed, from, to);
    hide Renamed;
    RenamedConcat(front, placed, from, to);
    RenamedConcat(front + placed, back, from, to);
    SameEnds(front, placed', Renamed(placed, from, to), Renamed(back, from, to));
  }

  /** Only the new id is in the saved order: the model goes there from the end. */
  lemma MovedToStale(inherited: seq<Id>, o: Overlay, from: Id, to: Id)
    requires Renames(inherited, o, from, to) && from !in Unique(o.modelOrder) && to in Unique(o.modelOrder)
    ensures Shown(inherited, Exchanged(o, from, to)) == Renamed(Shown(inherited, o), from, to) <==> StaysPut(inherited, o, from, to)
  {
    hide Unique, Only, Renamed, NoDuplicates, IndexOf, Shown, Placed, Front, Unplaced, Mid, Members, StaysPut;
    var o' := Exchanged(o, from, to);
    var a, c := PlacedStale(inherited, o, from, to);
    MidHas(a, to, c);
    FrontStays(inherited, o, from, to);
    var x, y := UnplacedStale(inherited, o, from, to);
    ShownInParts(inherited, o);
    ShownInParts(inherited, o');
    StaleReassembled(Front(inherited, o), a, c, x, y, from, to);
    StaysPutStale(inherited, o, from, to, c, x, y);
  }

  lemma StaysPutStale(inherited: seq<Id>, o: Overlay, from: Id, to: Id, c: seq<Id>, x: seq<Id>, y: seq<Id>)
    requires from !in Unique(o.modelOrder) && to in Unique(o.modelOrder)
    requires Only(Unique(o.modelOrder)[IndexOf(Unique(o.modelOrder), to)..], Members(inherited) + Members(o.personalModelIds)) == c
    requires Unplaced(inherited, o) == Mid(x, from, y) && from !in x
    ensures StaysPut(inherited, o, from, to) <==> c == [] && x == []
  {
    hide Unique, Only, Unplaced;
    var asked := Unique(o.modelOrder);
    assert asked[IndexOf(asked, to)..IndexOf(asked, from)] == asked[IndexOf(asked, to)..];
    if x != [] {
      assert Unplaced(inherited, o)[0] == x[0];
    }
  }

  /** What is placed around the new id. */
  lemma PlacedStale(inherited: seq<Id>, o: Overlay, from: Id, to: Id) returns (a: seq<Id>, c: seq<Id>)
    requires Renames(inherited, o, from, to) && from !in Unique(o.modelOrder) && to in Unique(o.modelOrder)
    ensures Placed(inherited, o) == a + c && Placed(inherited, Exchanged(o, from, to)) == Mid(a, to, c)
    ensures from !in a && from !in c && to !in a && to !in c
    ensures var asked := Unique(o.modelOrder);
      Only(asked[IndexOf(asked, to)..], Members(inherited) + Members(o.personalModelIds)) == c
  {
    var asked, members := Unique(o.modelOrder), Members(inherited) + Members(o.personalModelIds);
    MembersAfter(inherited, o, from, to);
    UniqueKeepsTheMembers(o.modelOrder);
    UniqueKeepsTheMembers(asked);
    UniqueTwice(o.modelOrder, from, to);
    NothingRenamed(asked, from, to);
    hide Unique, Only, Renamed, IndexOf;
    var p, t := CutAt(asked, IndexOf(asked, to));
    a, c := Only(p, members), Only(t, members);
    hide Mid, NoDuplicates, Members;
    OnlyElsewhere(p, members, from, to);
    OnlyElsewhere(t, members, from, to);
    MidOnly(p, to, t, members);
    MidOnly(p, to, t, members - {from} + {to});
    OnlyBehind(to, t, members);
  }

  /** What is not placed, around the old id; after renaming only the rest is left. */
  lemma UnplacedStale(inherited: seq<Id>, o: Overlay, from: Id, to: Id) returns (x: seq<Id>, y: seq<Id>)
    requires Renames(inherited, o, from, to)
    requires Members(Placed(inherited, Exchanged(o, from, to))) == Members(Placed(inherited, o)) + {to}
    requires from !in Placed(inherited, o) && to !in Placed(inherited, o)
    ensures Unplaced(inherited, o) == Mid(x, from, y) && Unplaced(inherited, Exchanged(o, from, to)) == x + y
    ensures from !in x && from !in y && to !in x && to !in y
  {
    hide Unique, Renamed, Placed, Mine;
    var mine, placed, placed' := Mine(inherited, o.personalModelIds), Placed(inherited, o), Placed(inherited, Exchanged(o, from, to));
    assert from !in Members(placed) && to !in Members(placed);
    MineMembers(inherited, o, from, to);
    var back := Unplaced(inherited, o);
    x, y := BackCut(mine, Members(placed), back, from, to);
    hide Only, NoDuplicates, Mid, Members, Unplaced;
    MidRenamed(x, y, from, to);
    WithoutRenamed(mine, Members(placed), Members(placed), from, to);
    DropsOne(Renamed(mine, from, to), Members(placed), to, x, y);
    assert Unplaced(inherited, Exchanged(o, from, to)) == Without(Renamed(mine, from, to), Members(placed) + {to}) by {
      UnplacedAfter(inherited, o, from, to);
    }
  }

  lemma UnplacedAfter(inherited: seq<Id>, o: Overlay, from: Id, to: Id)
    ensures var o' := Exchanged(o, from, to);
      Unplaced(inherited, o') == Without(Mine(inherited, Renamed(o.personalModelIds, from, to)), Members(Placed(inherited, o')))
  {
  }

  lemma BackCut(mine: seq<Id>, drop: set<Id>, back: seq<Id>, from: Id, to: Id) returns (x: seq<Id>, y: seq<Id>)
    requires NoDuplicates(mine) && back == Without(mine, drop) && from in mine && to !in mine && from !in drop
    ensures back == Mid(x, from, y) && from !in x && from !in y && to !in x && to !in y
  {
    OnlyKeepsTheMembers(mine, Members(mine) - drop);
    assert from in Members(back) && to !in Members(back);
    var i :| 0 <= i < |back| && back[i] == from;
    x, y := CutAt(back, i);
    assert forall z :: z in x || z in y ==> z in Members(back);
  }

  /** Dropping one more id from what was filtered. */
  lemma DropsOne(s: seq<Id>, drop: set<Id>, to: Id, x: seq<Id>, y: seq<Id>)
    requires Without(s, drop) == Mid(x, to, y) && to !in x && to !in y
    ensures Without(s, drop + {to}) == x + y
  {
    var keep := Members(s) - (drop + {to});
    assert (Members(s) - drop) * keep == keep;
    OnlyTwice(s, Members(s) - drop, keep);
    OnlyKeepsTheMembers(s, Members(s) - drop);
    MidHas(x, to, y);
    assert to !in Members(x) && to !in Members(y);
    assert Members(s) * (Members(s) - drop) == Members(s) - drop;
    assert Members(x) <= keep && Members(y) <= keep;
    hide Only, Members, Mid;
    MidOnly(x, to, y, keep);
    OnlyAll(x, keep);
    OnlyAll(y, keep);
  }

  lemma StaleReassembled(front: seq<Id>, a: seq<Id>, c: seq<Id>, x: seq<Id>, y: seq<Id>, from: Id, to: Id)
    requires from !in front && from !in a && from !in c && from !in x && from !in y && to !in c && to !in x
    ensures front + Mid(a, to, c) + (x + y) == Renamed(front + (a + c) + Mid(x, from, y), from, to) <==> c == [] && x == []
  {
    HasOfConcat(a, c);
    HasOfConcat(front, a + c);
    NothingRenamed(front + (a + c), from, to);
    hide Renamed, Mid;
    MidRenamed(x, y, from, to);
    RenamedConcat(front + (a + c), Mid(x, from, y), from, to);
    HasOfConcat(c, x);
    Passed(front + a, c + x, y, to);
    LeftGrouped(front, a, c, x, y, to);
    RightGrouped(front, a, c, x, y, to);
    assert c + x == [] <==> c == [] && x == [];
  }

  lemma LeftGrouped(front: seq<Id>, a: seq<Id>, c: seq<Id>, x: seq<Id>, y: seq<Id>, to: Id)
    ensures front + Mid(a, to, c) + (x + y) == Mid(front + a, to, (c + x) + y)
  {
  }

  lemma RightGrouped(front: seq<Id>, a: seq<Id>, c: seq<Id>, x: seq<Id>, y: seq<Id>, to: Id)
    ensures front + (a + c) + Mid(x, to, y) == (front + a) + Mid(c + x, to, y)
  {
  }

  // -------------------------------------------------------------------------
  // Where a renamed model stands
  // -------------------------------------------------------------------------

  lemma StaysExactly(inherited: seq<Id>, o: Overlay, from: Id, to: Id)
    requires Renames(inherited, o, from, to)
    ensures Shown(inherited, Exchanged(o, from, to)) == Renamed(Shown(inherited, o), from, to) <==> StaysPut(inherited, o, from, to)
  {
    var asked := Unique(o.modelOrder);
    UniqueKeepsTheMembers(o.modelOrder);
    assert to in asked <==> to in Members(asked);
    assert to in o.modelOrder <==> to in Members(o.modelOrder);
    if to !in asked {
      assert IndexOf(asked, from) <= IndexOf(asked, to) == |asked|;
      hide ResolveOwnedOrder, Renamed, Unique;
      OrderRenamed(inherited, o.personalModelIds, o.modelOrder, from, to);
    } else if from in asked {
      MovedWithBoth(inherited, o, from, to);
    } else {
      MovedToStale(inherited, o, from, to);
    }
  }

  /**
   A renamed model keeps its place in the Personal list always, and among the models shown if and only
   if it stays put. What is saved is what is then shown.
   */
  lemma RenameKeepsThePosition(inherited: seq<Id>, providerInherited: bool, s: Option<Overlay>, from: Id, to: Id)
    requires from != to && Apply(inherited, providerInherited, s, Rename(from, to)).Done?
    ensures var o := Next(inherited, providerInherited, s, Rename(from, to)).value;
      && o.personalModelIds == Renamed(s.value.personalModelIds, from, to)
      && o.modelOrder == Shown(inherited, o)
      && (Shown(inherited, o) == Renamed(Shown(inherited, s.value), from, to) <==> StaysPut(inherited, s.value, from, to))
  {
    var o := Next(inherited, providerInherited, s, Rename(from, to)).value;
    hide ResolveOwnedOrder, Renamed, StaysPut;
    Idempotent(inherited, o.personalModelIds, Renamed(s.value.modelOrder, from, to));
    StaysExactly(inherited, s.value, from, to);
  }

  /** After any edit the saved order names members only, so it never names the new id. */
  lemma OrderedRenames(inherited: seq<Id>, providerInherited: bool, s: Option<Overlay>, from: Id, to: Id)
    requires Ordered(inherited, s) && from != to
    requires Apply(inherited, providerInherited, s, Rename(from, to)).Done?
    ensures Next(inherited, providerInherited, s, Rename(from, to)).value.modelOrder == Renamed(s.value.modelOrder, from, to)
  {
    assert to !in Members(s.value.modelOrder);
    UniqueKeepsTheMembers(s.value.modelOrder);
    assert StaysPut(inherited, s.value, from, to) by { assert to !in Unique(s.value.modelOrder); }
    hide ResolveOwnedOrder, Renamed, NoDuplicates, StaysPut;
    RenameKeepsThePosition(inherited, providerInherited, s, from, to);
    SettledOrders(inherited, s.value.personalModelIds, s.value.modelOrder);
  }

  /** An order from elsewhere that names the new id already, though it is no member, does move the model. */
  lemma StaleIdMovesTheModel(a: Id, x: Id, y: Id)
    requires a != x && x != y && a != y
    ensures var before := Overlay([a, x], [y, a, x]);
      && Shown([], before) == [a, x]
      && Apply([], true, Some(before), Rename(x, y)) == Done(Some(Overlay([a, y], [y, a])))
  {
    var before := Overlay([a, x], [y, a, x]);
    assert x in before.personalModelIds && y !in before.personalModelIds;
    hide ResolveOwnedOrder, Renamed;
    StaleRenamed(a, x, y);
    StaleShown(a, x, y);
    StaleSaved(a, y);
  }

  lemma LastRenamed(s: seq<Id>, from: Id, to: Id)
    requires from !in s
    ensures Renamed(s + [from], from, to) == s + [to]
  {
    NothingRenamed(s, from, to);
    hide Renamed;
    RenamedSnoc(s, from, from, to);
  }

  lemma StaleRenamed(a: Id, x: Id, y: Id)
    requires a != x && x != y
    ensures Renamed([a, x], x, y) == [a, y] && Renamed([y, a, x], x, y) == [y, a, y]
  {
    hide Renamed;
    assert [a, x] == [a] + [x] && [y, a, x] == [y, a] + [x];
    LastRenamed([a], x, y);
    LastRenamed([y, a], x, y);
  }

  lemma StaleMembers(a: Id, x: Id, y: Id)
    requires a != x && x != y && a != y
    ensures Members([]) + Members([a, x]) == {a, x} <= Members([y, a, x]) && Unique([y, a, x]) == [y, a, x]
  {
    hide Unique;
    UniqueKeepsTheMembers([y, a, x]);
  }

  lemma StaleShown(a: Id, x: Id, y: Id)
    requires a != x && x != y && a != y
    ensures ResolveOwnedOrder([], [a, x], [y, a, x]) == [a, x]
  {
    hide Only, Unique, ResolveOwnedOrder, Members, NoDuplicates;
    StaleMembers(a, x, y);
    StaleFiltered(a, x, y);
    RequestedListing([], [a, x], [y, a, x]);
  }

  lemma StaleFiltered(a: Id, x: Id, y: Id)
    requires a != y && x != y
    ensures Only([y, a, x], {a, x}) == [a, x]
  {
    hide Only;
    assert [y, a, x] == [y] + [a, x];
    OnlyOfConcat([y], [a, x], {a, x});
    OnlyNone([y], {a, x});
    OnlyAll([a, x], {a, x});
    assert [] + [a, x] == [a, x];
  }

  lemma StaleSaved(a: Id, y: Id)
    requires a != y
    ensures ResolveOwnedOrder([], [a, y], [y, a, y]) == [y, a]
  {
    assert [y, a, y][..2] == [y, a] && NoDuplicates([y, a]);
    UniqueKeepsTheMembers([y, a]);
    assert Unique([y, a, y]) == [y, a];
    assert Members([]) + Members([a, y]) == {a, y} == Members([y, a]) == Members([y, a, y]);
    hide Only, Unique, ResolveOwnedOrder;
    RequestedListing([], [a, y], [y, a, y]);
    OnlyAll([y, a], {a, y});
  }
}
