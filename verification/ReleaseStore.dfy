/**
 The shared Active release file of several processes that carry the same bundled release.

 Each access runs under the file lock and is one step. An access that fails part-way has either done
 nothing or what a `Look` does.
 */
module ReleaseStore {
  import opened Prelude

  /** The content is the release's canonical serialization. */
  datatype Release = Release(revision: nat, content: string)

  /** What reading a file gives. */
  datatype Candidate = Missing | Invalid | Valid(release: Release)

  datatype Outcome = Updated | Unchanged | Stale | Conflict | Unavailable | Disposed

  datatype Access = Look | Offer(release: Release)

  // -------------------------------------------------------------------------
  // The accesses
  // -------------------------------------------------------------------------

  function Select(bundled: Candidate, active: Candidate): Option<Release> {
    if bundled.Valid? && active.Valid? && bundled.release.revision == active.release.revision
       && bundled.release.content != active.release.content then Some(bundled.release)
    else if bundled.Valid? && active.Valid? then
      Some(if active.release.revision > bundled.release.revision then active.release else bundled.release)
    else if bundled.Valid? then Some(bundled.release)
    else if active.Valid? then Some(active.release)
    else None
  }

  /** Reading selects, and writes the selection back. */
  function Materialized(bundled: Candidate, active: Candidate): Candidate {
    match Select(bundled, active)
    case None => active
    case Some(release) => Valid(release)
  }

  function Applied(bundled: Candidate, active: Candidate, release: Release): (Candidate, Outcome) {
    match Select(bundled, active)
    case None => (active, Unavailable)
    case Some(current) =>
      if release.revision < current.revision then (Valid(current), Stale)
      else if release.revision > current.revision then (Valid(release), Updated)
      else (Valid(current), if release.content == current.content then Unchanged else Conflict)
  }

  function Next(bundled: Candidate, active: Candidate, access: Access): Candidate {
    match access
    case Look => Materialized(bundled, active)
    case Offer(release) => Applied(bundled, active, release).0
  }

  function Run(bundled: Candidate, active: Candidate, accesses: seq<Access>): Candidate
    decreases accesses
  {
    if accesses == [] then active
    else Run(bundled, Next(bundled, active, accesses[0]), accesses[1..])
  }

  // -------------------------------------------------------------------------
  // A simpler account
  // -------------------------------------------------------------------------

  /** A release that selection would give back: what the file holds once it was materialized. */
  predicate Settled(bundled: Candidate, held: Release) {
    Select(bundled, Valid(held)) == Some(held)
  }

  /** From a held release on, a higher offer takes its place and nothing else does. */
  function Climb(held: Release, accesses: seq<Access>): Release
    decreases accesses
  {
    if accesses == [] then held
    else match accesses[0]
      case Look => Climb(held, accesses[1..])
      case Offer(release) => Climb(if release.revision > held.revision then release else held, accesses[1..])
  }

  lemma {:induction false} RunIsClimb(bundled: Candidate, held: Release, accesses: seq<Access>)
    requires Settled(bundled, held)
    ensures Run(bundled, Valid(held), accesses) == Valid(Climb(held, accesses))
    ensures Settled(bundled, Climb(held, accesses))
    decreases accesses
  {
    if accesses != [] {
      var next := Next(bundled, Valid(held), accesses[0]);
      RunIsClimb(bundled, next.release, accesses[1..]);
    }
  }

  /** The first access settles the file; without a valid release to begin with none ever will. */
  lemma {:induction false} FirstAccessSettles(bundled: Candidate, active: Candidate, accesses: seq<Access>)
    requires accesses != []
    ensures match Select(bundled, active)
      case None => Run(bundled, active, accesses) == active
      case Some(base) =>
        && Run(bundled, active, accesses) == Valid(Climb(base, accesses))
        && Settled(bundled, base) && Settled(bundled, Climb(base, accesses))
    decreases accesses
  {
    if Select(bundled, active).None? {
      if |accesses| > 1 {
        FirstAccessSettles(bundled, active, accesses[1..]);
      }
    } else {
      var next := Next(bundled, active, accesses[0]);
      assert Settled(bundled, next.release);
      RunIsClimb(bundled, next.release, accesses[1..]);
    }
  }

  ghost predicate NoneAbove(accesses: seq<Access>, revision: nat) {
    forall release :: Offer(release) in accesses ==> release.revision <= revision
  }

  /** The k-th access offered the release, when nothing as high had been offered. */
  predicate FirstOfItsHeight(held: Release, accesses: seq<Access>, k: nat) {
    && k < |accesses| && accesses[k].Offer? && held.revision < accesses[k].release.revision
    && forall i :: 0 <= i < k && accesses[i].Offer? ==> accesses[i].release.revision < accesses[k].release.revision
  }

  lemma {:induction false} ClimbEndsAtTheTop(held: Release, accesses: seq<Access>)
    ensures var end := Climb(held, accesses);
      && held.revision <= end.revision && NoneAbove(accesses, end.revision)
      && (end == held || exists k: nat :: FirstOfItsHeight(held, accesses, k) && accesses[k].release == end)
    decreases accesses
  {
    if accesses != [] {
      var first, rest := accesses[0], accesses[1..];
      var next := if first.Offer? && first.release.revision > held.revision then first.release else held;
      ClimbEndsAtTheTop(next, rest);
      var end := Climb(next, rest);
      assert accesses == [first] + rest;
      if end == next {
        assert end == held || FirstOfItsHeight(held, accesses, 0);
      } else {
        var k: nat :| FirstOfItsHeight(next, rest, k) && rest[k].release == end;
        assert forall i :: 0 < i < |accesses| ==> accesses[i] == rest[i - 1];
        assert FirstOfItsHeight(held, accesses, k + 1);
      }
    }
  }

  // -------------------------------------------------------------------------
  // What every interleaving keeps
  // -------------------------------------------------------------------------

  lemma {:induction false} RunInTwo(bundled: Candidate, active: Candidate, first: seq<Access>, second: seq<Access>)
    ensures Run(bundled, active, first + second) == Run(bundled, Run(bundled, active, first), second)
    decreases first
  {
    if first == [] {
      assert first + second == second;
    } else {
      assert (first + second)[1..] == first[1..] + second;
      RunInTwo(bundled, Next(bundled, active, first[0]), first[1..], second);
    }
  }

  /** The stored revision never decreases, and once materialized the content only changes with it. */
  lemma StoreNeverGoesBack(bundled: Candidate, active: Candidate, accesses: seq<Access>, i: nat, j: nat)
    requires i <= j <= |accesses|
    ensures var before, after := Run(bundled, active, accesses[..i]), Run(bundled, active, accesses[..j]);
      before.Valid? ==>
        && after.Valid? && before.release.revision <= after.release.revision
        && (i > 0 && before.release.revision == after.release.revision ==> before == after)
  {
    var before := Run(bundled, active, accesses[..i]);
    assert accesses[..j] == accesses[..i] + accesses[i..j];
    RunInTwo(bundled, active, accesses[..i], accesses[i..j]);
    if i > 0 {
      FirstAccessSettles(bundled, active, accesses[..i]);
    }
    if i < j && before.Valid? {
      FirstAccessSettles(bundled, before, accesses[i..j]);
      var base := Select(bundled, before).value;
      ClimbEndsAtTheTop(base, accesses[i..j]);
    }
  }

  /** A release turned down as stale or conflicting is never held by the file afterwards. */
  lemma TurnedDownForGood(bundled: Candidate, active: Candidate, release: Release, later: seq<Access>)
    ensures var (file, outcome) := Applied(bundled, active, release);
      && (outcome.Updated? || outcome.Unchanged? ==> file == Valid(release))
      && (outcome.Stale? || outcome.Conflict? ==> Run(bundled, file, later) != Valid(release))
  {
    var offer := [Offer(release)];
    assert (offer + later)[..1] == offer && (offer + later)[..|offer + later|] == offer + later;
    StoreNeverGoesBack(bundled, active, offer + later, 1, |offer + later|);
    RunInTwo(bundled, active, offer, later);
    assert Run(bundled, active, offer) == Applied(bundled, active, release).0;
  }

  /** After any accesses the file holds the highest of what it began with and was offered, the earliest of equals. */
  lemma HighestIsHeld(bundled: Candidate, active: Candidate, accesses: seq<Access>)
    requires accesses != []
    ensures match Select(bundled, active)
      case None => Run(bundled, active, accesses) == active
      case Some(base) =>
        var file := Run(bundled, active, accesses);
        && file.Valid? && base.revision <= file.release.revision && NoneAbove(accesses, file.release.revision)
        && (file.release == base || exists k: nat :: FirstOfItsHeight(base, accesses, k) && accesses[k].release == file.release)
  {
    FirstAccessSettles(bundled, active, accesses);
    if Select(bundled, active).Some? {
      ClimbEndsAtTheTop(Select(bundled, active).value, accesses);
    }
  }

  // -------------------------------------------------------------------------
  // When the order of the accesses matters
  // -------------------------------------------------------------------------

  ghost predicate OrderFree(bundled: Candidate, active: Candidate, accesses: seq<Access>) {
    forall other: seq<Access> :: multiset(other) == multiset(accesses) ==>
      Run(bundled, active, other) == Run(bundled, active, accesses)
  }

  /** Two different contents offered at the highest revision of all, above the one begun with. */
  ghost predicate Rivals(base: Release, accesses: seq<Access>, a: Release, b: Release) {
    && Offer(a) in accesses && Offer(b) in accesses && a.content != b.content
    && a.revision == b.revision > base.revision && NoneAbove(accesses, a.revision)
  }

  /** The final file does not depend on the order, unless rivals were offered. */
  lemma OrderMattersIffRivals(bundled: Candidate, active: Candidate, accesses: seq<Access>)
    requires Select(bundled, active).Some?
    ensures OrderFree(bundled, active, accesses) <==> !exists a, b :: Rivals(Select(bundled, active).value, accesses, a, b)
  {
    var base := Select(bundled, active).value;
    if a, b :| Rivals(base, accesses, a, b) {
      var first := FirstWins(bundled, active, accesses, a);
      var second := FirstWins(bundled, active, accesses, b);
      assert Run(bundled, active, first) != Run(bundled, active, second);
    } else {
      forall other: seq<Access> | multiset(other) == multiset(accesses)
        ensures Run(bundled, active, other) == Run(bundled, active, accesses)
      {
        SameEnd(bundled, active, accesses, other);
      }
    }
  }

  /** Offered first of all, one of the highest releases stays. */
  lemma FirstWins(bundled: Candidate, active: Candidate, accesses: seq<Access>, a: Release) returns (other: seq<Access>)
    requires Select(bundled, active).Some? && Offer(a) in accesses
    requires a.revision > Select(bundled, active).value.revision && NoneAbove(accesses, a.revision)
    ensures multiset(other) == multiset(accesses) && Run(bundled, active, other) == Valid(a)
  {
    var i :| 0 <= i < |accesses| && accesses[i] == Offer(a);
    var rest := accesses[..i] + accesses[i + 1..];
    other := [Offer(a)] + rest;
    assert accesses == accesses[..i] + [Offer(a)] + accesses[i + 1..];
    FirstAccessSettles(bundled, active, other);
    assert other[1..] == rest;
    ClimbEndsAtTheTop(a, rest);
    assert NoneAbove(rest, a.revision);
  }

  lemma SameEnd(bundled: Candidate, active: Candidate, accesses: seq<Access>, other: seq<Access>)
    requires Select(bundled, active).Some? && multiset(other) == multiset(accesses)
    requires !exists a, b :: Rivals(Select(bundled, active).value, accesses, a, b)
    ensures Run(bundled, active, other) == Run(bundled, active, accesses)
  {
    assert |other| == |multiset(other)| == |multiset(accesses)| == |accesses|;
    if accesses != [] {
      var base := Select(bundled, active).value;
      FirstAccessSettles(bundled, active, accesses);
      FirstAccessSettles(bundled, active, other);
      ClimbEndsAtTheTop(base, accesses);
      ClimbEndsAtTheTop(base, other);
      var x, y := Climb(base, accesses), Climb(base, other);
      assert forall access :: access in accesses <==> access in multiset(accesses);
      assert forall access :: access in other <==> access in multiset(other);
      assert !Rivals(base, accesses, x, y);
    }
  }
}
