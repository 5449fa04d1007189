/**
 The control file by which several processes share one lease for refreshing the built-in release.

 Acquiring and finishing each run under the file lock and are one step; the refresh itself, between
 the two, runs outside it. The clock never goes back, and every lease id is a new one. A process that
 dies simply never finishes.
 */
module LeaseControl {
  import opened Prelude

  datatype Control = Control(endpointKey: string, leaseId: Option<nat>, leaseUntil: nat, nextEligibleAt: nat, failureCount: nat)

  const EMPTY := Control("", None, 0, 0, 0)

  /** All in milliseconds. */
  datatype Timing = Timing(successInterval: nat, leaseDuration: nat, failureBaseDelay: nat, failureMaxDelay: nat)

  datatype Acquired = Granted | LeaseHeld | NotDue

  datatype Result = Success | Failure | Cancelled

  // -------------------------------------------------------------------------
  // The two locked sections
  // -------------------------------------------------------------------------

  function Acquire(t: Timing, current: Control, now: nat, key: string, force: bool, leaseId: nat): (Control, Acquired) {
    var sameEndpoint := current.endpointKey == key;
    if sameEndpoint && current.leaseUntil > now then (current, LeaseHeld)
    else if !force && sameEndpoint && current.nextEligibleAt > now then (current, NotDue)
    else
      (Control(key, Some(leaseId), now + t.leaseDuration,
               if sameEndpoint then current.nextEligibleAt else 0,
               if sameEndpoint then current.failureCount else 0), Granted)
  }

  function Min(a: nat, b: nat): nat {
    if a < b then a else b
  }

  function FailureDelay(t: Timing, failureCount: nat): nat {
    Min(t.failureBaseDelay * Pow2(if failureCount > 0 then failureCount - 1 else 0), t.failureMaxDelay)
  }

  function Finish(t: Timing, current: Control, now: nat, key: string, leaseId: nat, result: Result): Control {
    if current.endpointKey != key || current.leaseId != Some(leaseId) then current
    else
      var failureCount := match result
        case Cancelled => current.failureCount
        case Success => 0
        case Failure => current.failureCount + 1;
      var delay := match result
        case Cancelled => 0
        case Success => t.successInterval
        case Failure => FailureDelay(t, failureCount);
      Control(key, None, 0, now + delay, failureCount)
  }

  /** Failing more often never shortens the delay, and the cap bounds it. */
  lemma DelayGrowsToTheCap(t: Timing, fewer: nat, more: nat)
    requires fewer <= more
    ensures FailureDelay(t, fewer) <= FailureDelay(t, more) <= t.failureMaxDelay
  {
    var i, j: nat := if fewer > 0 then fewer - 1 else 0, if more > 0 then more - 1 else 0;
    Pow2Grows(i, j);
    hide Pow2;
    Scale(t.failureBaseDelay, Pow2(i), Pow2(j));
  }

  lemma {:induction false} Pow2Grows(i: nat, j: nat)
    requires i <= j
    ensures Pow2(i) <= Pow2(j)
  {
    if i < j {
      Pow2Grows(i, j - 1);
    }
  }

  lemma Scale(a: nat, x: nat, y: nat)
    requires x <= y
    ensures a * x <= a * y
  {
  }

  /** The first failure waits for the base delay, and each further one twice as long, up to the cap. */
  lemma DelayDoubles(t: Timing, failures: nat)
    requires failures > 0
    ensures FailureDelay(t, 1) == Min(t.failureBaseDelay, t.failureMaxDelay)
    ensures FailureDelay(t, failures + 1) == Min(2 * FailureDelay(t, failures), t.failureMaxDelay)
  {
    var p := Pow2(failures - 1);
    assert Pow2(0) == 1 && Pow2(failures) == 2 * p;
    hide Pow2;
    assert t.failureBaseDelay * (2 * p) == 2 * (t.failureBaseDelay * p);
  }

  // -------------------------------------------------------------------------
  // Many processes
  // -------------------------------------------------------------------------

  datatype Holder = Holder(key: string, until: nat)

  /** `unfinished` are the refreshes under way, by lease id. */
  datatype State = State(control: Control, now: nat, issued: nat, unfinished: map<nat, Holder>)

  datatype Step =
    | Pass(time: nat)
    | TryAcquire(key: string, force: bool)
    | Finished(leaseId: nat, result: Result)

  function Begin(now: nat): State {
    State(EMPTY, now, 0, map[])
  }

  function Next(t: Timing, s: State, step: Step): State {
    match step
    case Pass(time) => s.(now := s.now + time)
    case TryAcquire(key, force) =>
      var (control, acquired) := Acquire(t, s.control, s.now, key, force, s.issued);
      if acquired.Granted? then
        State(control, s.now, s.issued + 1, s.unfinished[s.issued := Holder(key, control.leaseUntil)])
      else s
    case Finished(leaseId, result) =>
      if leaseId !in s.unfinished then s
      else
        s.(control := Finish(t, s.control, s.now, s.unfinished[leaseId].key, leaseId, result),
           unfinished := s.unfinished - {leaseId})
  }

  function Run(t: Timing, s: State, steps: seq<Step>): State
    decreases steps
  {
    if steps == [] then s else Run(t, Next(t, s, steps[0]), steps[1..])
  }

  predicate Live(s: State, leaseId: nat) {
    leaseId in s.unfinished && s.unfinished[leaseId].until > s.now
  }

  ghost predicate Exclusive(s: State) {
    forall i, j :: Live(s, i) && Live(s, j) ==> i == j
  }

  /** The step acquires although the file shows a lease that still runs: the endpoint is another one. */
  predicate TakesOver(s: State, step: Step) {
    step.TryAcquire? && s.control.leaseUntil > s.now && step.key != s.control.endpointKey
  }

  ghost predicate ExclusiveThroughout(t: Timing, s: State, steps: seq<Step>)
    decreases steps
  {
    Exclusive(s) && (steps == [] || ExclusiveThroughout(t, Next(t, s, steps[0]), steps[1..]))
  }

  predicate TakeoverFree(t: Timing, s: State, steps: seq<Step>)
    decreases steps
  {
    steps == [] || (!TakesOver(s, steps[0]) && TakeoverFree(t, Next(t, s, steps[0]), steps[1..]))
  }

  // -------------------------------------------------------------------------
  // Exclusion
  // -------------------------------------------------------------------------

  /** The lease that runs, if any, is the one the file shows. */
  ghost predicate Located(t: Timing, s: State) {
    && (forall i :: i in s.unfinished ==> i < s.issued)
    && (forall i :: Live(s, i) ==>
          s.control.leaseId == Some(i) && s.control.leaseUntil == s.unfinished[i].until)
    && (forall i :: i in s.unfinished && s.control.leaseId == Some(i) ==>
          s.control.endpointKey == s.unfinished[i].key)
    && (s.control.leaseUntil > s.now ==>
          t.leaseDuration > 0 && s.control.leaseId.Some? && Live(s, s.control.leaseId.value))
  }

  lemma StepKeepsLocated(t: Timing, s: State, step: Step)
    requires Located(t, s) && !TakesOver(s, step)
    ensures Located(t, Next(t, s, step))
  {
    hide FailureDelay;
    var s' := Next(t, s, step);
    match step
    case Pass(time) =>
      assert forall i :: Live(s', i) ==> Live(s, i);
    case TryAcquire(key, force) =>
      assert forall i :: i in s'.unfinished && i != s.issued ==> (Live(s', i) <==> Live(s, i));
    case Finished(leaseId, result) =>
      assert forall i :: Live(s', i) ==> Live(s, i) && i != leaseId;
  }

  /** Two refreshes are never under way on unexpired leases, exactly when no acquisition takes over a running lease. */
  lemma {:induction false} ExclusiveIffNoTakeover(t: Timing, s: State, steps: seq<Step>)
    requires Located(t, s)
    ensures ExclusiveThroughout(t, s, steps) <==> TakeoverFree(t, s, steps)
    decreases steps
  {
    assert Exclusive(s);
    if steps != [] {
      var s' := Next(t, s, steps[0]);
      if TakesOver(s, steps[0]) {
        assert Live(s', s.issued) && Live(s', s.control.leaseId.value);
        assert !ExclusiveThroughout(t, s', steps[1..]);
      } else {
        StepKeepsLocated(t, s, steps[0]);
        ExclusiveIffNoTakeover(t, s', steps[1..]);
      }
    }
  }

  ghost predicate OneEndpoint(steps: seq<Step>, key: string) {
    forall i :: 0 <= i < |steps| && steps[i].TryAcquire? ==> steps[i].key == key
  }

  /** With one endpoint there is nothing to take over. */
  lemma {:induction false} OneEndpointIsExclusive(t: Timing, s: State, steps: seq<Step>, key: string)
    requires Located(t, s) && OneEndpoint(steps, key)
    requires s.control.leaseUntil > s.now ==> s.control.endpointKey == key
    ensures ExclusiveThroughout(t, s, steps)
    decreases steps
  {
    assert Exclusive(s);
    if steps != [] {
      StepKeepsLocated(t, s, steps[0]);
      assert OneEndpoint(steps[1..], key);
      OneEndpointIsExclusive(t, Next(t, s, steps[0]), steps[1..], key);
    }
  }

  /** From an empty control file both hold. */
  lemma ExclusionFromTheBeginning(t: Timing, now: nat, steps: seq<Step>)
    ensures ExclusiveThroughout(t, Begin(now), steps) <==> TakeoverFree(t, Begin(now), steps)
    ensures forall key :: OneEndpoint(steps, key) ==> ExclusiveThroughout(t, Begin(now), steps)
  {
    ExclusiveIffNoTakeover(t, Begin(now), steps);
    forall key | OneEndpoint(steps, key)
      ensures ExclusiveThroughout(t, Begin(now), steps)
    {
      OneEndpointIsExclusive(t, Begin(now), steps, key);
    }
  }

  /** Going to another endpoint and back lets two refreshes of the same endpoint run at once. */
  lemma ThereAndBackIsNotExclusive(t: Timing, now: nat)
    requires t.leaseDuration > 0
    ensures var s := Run(t, Begin(now), [TryAcquire("A", false), TryAcquire("B", false), TryAcquire("A", false)]);
      Live(s, 0) && Live(s, 2) && s.unfinished[0].key == s.unfinished[2].key == "A"
  {
    var a, b := TryAcquire("A", false), TryAcquire("B", false);
    var s1 := Next(t, Begin(now), a);
    var s2 := Next(t, s1, b);
    var s3 := Next(t, s2, a);
    assert [a, b, a][1..] == [b, a] && [b, a][1..] == [a];
    assert Run(t, s2, [a]) == Run(t, s3, []) == s3;
    assert Run(t, s1, [b, a]) == s3;
  }

  // -------------------------------------------------------------------------
  // Fencing and backoff
  // -------------------------------------------------------------------------

  /** A holder whose lease was replaced, even after any further steps, changes nothing when it finishes. */
  lemma {:induction false} ReplacedHolderChangesNothing(t: Timing, s: State, steps: seq<Step>, leaseId: nat, result: Result)
    requires leaseId < s.issued && s.control.leaseId != Some(leaseId)
    ensures var s' := Run(t, s, steps);
      && s'.control.leaseId != Some(leaseId)
      && Next(t, s', Finished(leaseId, result)).control == s'.control
    decreases steps
  {
    hide FailureDelay;
    if steps != [] {
      ReplacedHolderChangesNothing(t, Next(t, s, steps[0]), steps[1..], leaseId, result);
    }
  }

  ghost predicate Unforced(steps: seq<Step>, key: string) {
    forall i :: 0 <= i < |steps| && steps[i].TryAcquire? ==> steps[i].key == key && !steps[i].force
  }

  lemma {:induction false} TimePasses(t: Timing, s: State, steps: seq<Step>)
    ensures Run(t, s, steps).now >= s.now
    decreases steps
  {
    if steps != [] {
      TimePasses(t, Next(t, s, steps[0]), steps[1..]);
    }
  }

  /** Until the time a finished lease set, unforced attempts for its endpoint get nothing. */
  lemma {:induction false} NothingBeforeItIsDue(t: Timing, s: State, steps: seq<Step>)
    requires s.control.leaseId == None && Unforced(steps, s.control.endpointKey)
    requires Run(t, s, steps).now < s.control.nextEligibleAt
    ensures Run(t, s, steps).control == s.control && Run(t, s, steps).issued == s.issued
    decreases steps
  {
    hide FailureDelay;
    if steps != [] {
      TimePasses(t, s, steps);
      TimePasses(t, Next(t, s, steps[0]), steps[1..]);
      assert Unforced(steps[1..], s.control.endpointKey);
      NothingBeforeItIsDue(t, Next(t, s, steps[0]), steps[1..]);
    }
  }

  /** What finishing decides: a failure delays the next attempt of the endpoint by the delay of one more failure. */
  lemma FailureHoldsBack(t: Timing, s: State, leaseId: nat, steps: seq<Step>)
    requires leaseId in s.unfinished && s.control.leaseId == Some(leaseId)
    requires s.control.endpointKey == s.unfinished[leaseId].key && Unforced(steps, s.control.endpointKey)
    ensures var failed := Next(t, s, Finished(leaseId, Failure));
      Run(t, failed, steps).now < s.now + FailureDelay(t, s.control.failureCount + 1) ==>
        Run(t, failed, steps).issued == s.issued && Run(t, failed, steps).control.failureCount == s.control.failureCount + 1
  {
    hide FailureDelay;
    var failed := Next(t, s, Finished(leaseId, Failure));
    if Run(t, failed, steps).now < s.now + FailureDelay(t, s.control.failureCount + 1) {
      NothingBeforeItIsDue(t, failed, steps);
    }
  }

  // -------------------------------------------------------------------------
  // When the next attempt is due
  // -------------------------------------------------------------------------

  /** An attempt gets a lease. */
  predicate Grants(t: Timing, s: State, key: string, force: bool) {
    Next(t, s, TryAcquire(key, force)).issued == s.issued + 1
  }

  /** How long an endpoint is held back by what came of its refresh, the failures before it counted. */
  function HeldBack(t: Timing, failures: nat, result: Result): nat {
    match result
    case Success => t.successInterval
    case Failure => FailureDelay(t, failures + 1)
    case Cancelled => 0
  }

  function FailuresAfter(failures: nat, result: Result): nat {
    match result
    case Success => 0
    case Failure => failures + 1
    case Cancelled => failures
  }

  ghost predicate HoldsLease(s: State, leaseId: nat) {
    leaseId in s.unfinished && s.control.leaseId == Some(leaseId) && s.control.endpointKey == s.unfinished[leaseId].key
  }

  /**
   After the holder finishes, and whatever unforced attempts of its endpoint follow, none gets a lease
   before the time its result holds the endpoint back; the first at or after that time does; a forced
   one, or one for another endpoint, does at any time. Success forgets the failures, a failure adds
   one, a cancellation leaves them.
   */
  lemma DueExactly(t: Timing, s: State, leaseId: nat, result: Result, steps: seq<Step>, force: bool, key: string)
    requires HoldsLease(s, leaseId) && Unforced(steps, s.control.endpointKey)
    ensures var finished := Next(t, s, Finished(leaseId, result));
      var later, due := Run(t, finished, steps), s.now + HeldBack(t, s.control.failureCount, result);
      && finished.control.failureCount == FailuresAfter(s.control.failureCount, result)
      && leaseId !in finished.unfinished
      && (later.issued == s.issued ==>
            && later.control.failureCount == FailuresAfter(s.control.failureCount, result)
            && (Grants(t, later, key, force) <==> force || key != s.control.endpointKey || later.now >= due))
      && (later.now < due ==> later.issued == s.issued)
  {
    hide FailureDelay;
    var finished := Next(t, s, Finished(leaseId, result));
    Idle(t, finished, steps);
    if Run(t, finished, steps).now < s.now + HeldBack(t, s.control.failureCount, result) {
      NothingBeforeItIsDue(t, finished, steps);
    }
  }

  /** As long as no attempt gets a lease, the file stays as the finish left it. */
  lemma {:induction false} Idle(t: Timing, s: State, steps: seq<Step>)
    requires s.control.leaseId == None && s.control.leaseUntil == 0
    ensures var later := Run(t, s, steps);
      later.issued >= s.issued && (later.issued == s.issued ==> later.control == s.control)
    decreases steps
  {
    hide FailureDelay;
    if steps != [] {
      var next := Next(t, s, steps[0]);
      if next.issued == s.issued {
        Idle(t, next, steps[1..]);
      } else {
        IssuedGrows(t, next, steps[1..]);
      }
    }
  }

  lemma {:induction false} IssuedGrows(t: Timing, s: State, steps: seq<Step>)
    ensures Run(t, s, steps).issued >= s.issued
    decreases steps
  {
    if steps != [] {
      IssuedGrows(t, Next(t, s, steps[0]), steps[1..]);
    }
  }

  /** What an attempt that gets a lease writes: it runs for its duration; the same endpoint keeps its failures, another starts afresh. */
  lemma GrantedLease(t: Timing, s: State, key: string, force: bool)
    requires Grants(t, s, key, force)
    ensures var s' := Next(t, s, TryAcquire(key, force));
      && s'.control.leaseId == Some(s.issued) && s'.control.endpointKey == key
      && s'.control.leaseUntil == s.now + t.leaseDuration == s'.unfinished[s.issued].until
      && s'.control.failureCount == (if key == s.control.endpointKey then s.control.failureCount else 0)
      && s'.control.nextEligibleAt == (if key == s.control.endpointKey then s.control.nextEligibleAt else 0)
      && (key == s.control.endpointKey ==> s.control.leaseUntil <= s.now && (force || s.control.nextEligibleAt <= s.now))
  {
  }

  /** When an attempt gets a lease: for another endpoint always; for the same one if no lease runs and it is due or forced. */
  lemma GrantsExactly(t: Timing, s: State, key: string, force: bool)
    ensures Grants(t, s, key, force) <==>
      key != s.control.endpointKey || (s.control.leaseUntil <= s.now && (force || s.control.nextEligibleAt <= s.now))
    ensures !Grants(t, s, key, force) ==> Next(t, s, TryAcquire(key, force)) == s
  {
  }
}
