/** Which step of the account service answers whom, with what, and exactly when it rejects. */
module AccountAnswers {
  import opened RefreshWaiters
  import opened AccountRefresh
  import opened Prelude

  /** The second reading confirms the round: nothing newer is asked for, and the Built-in revision is the same. */
  predicate Confirmed(s: State, step: Step) {
    && step.RereadArrives? && s.phase.Rereading? && !s.disposed
    && s.pendingReasons == {} && step.current.builtinRevision == s.phase.config.builtinRevision
  }

  /** The account a confirmed round has resolved. */
  function Resolved(s: State): Account
    requires s.phase.Rereading?
  {
    Account(s.phase.config.builtinRevision, s.phase.content)
  }

  /** An await fails, and the error listeners do not throw; a disposed service fails by itself and has none. */
  predicate Fails(s: State, step: Step) {
    || (step.AwaitFails? && (s.disposed || !step.errorListenerThrows))
    || (s.disposed && (step.Resolves? || step.RereadArrives?))
  }

  /** The round has read its config, so an account can be denied on it. */
  predicate ConfigRead(s: State) {
    s.phase.Resolving? || s.phase.Rereading?
  }

  /** The first failure once a config was read and nothing is shown yet: everything is denied. */
  predicate Closes(s: State, step: Step) {
    Fails(s, step) && s.snapshot.None? && ConfigRead(s)
  }

  predicate Publishes(s: State, step: Step) {
    Confirmed(s, step) && s.snapshot != Some(Resolved(s))
  }

  /** Disposal, and any other failure of a round. Nothing else. */
  predicate Rejects(s: State, step: Step) {
    (step.Dispose? && !s.disposed) || (Fails(s, step) && !Closes(s, step))
  }

  predicate Requests(s: State, step: Step) {
    || (step.Read? && s.snapshot.None? && s.phase.NoLoop?)
    || step.Refresh?
    || step.ConfigChanged?
  }

  /** Those a step speaks to: a disposal to all, the end of a round to those who asked before it began. */
  function Addressed(s: State, step: Step): seq<Waiter> {
    if InRound(s) && !step.Dispose? then Due(s.waiters, s.phase.generation) else s.waiters
  }

  function Others(s: State, step: Step): seq<Waiter> {
    if InRound(s) && !step.Dispose? then Later(s.waiters, s.phase.generation) else []
  }

  /** What is shown after a step. */
  function Shown(s: State, step: Step): Option<Account> {
    if Confirmed(s, step) then Some(Resolved(s))
    else if Closes(s, step) then Some(Account(s.phase.config.builtinRevision, s.phase.config.closed))
    else s.snapshot
  }

  lemma RereadAnswers(s: State, step: Step)
    requires Inv(s) && Enabled(s, step) && step.RereadArrives?
    ensures var s' := Next(s, step);
      && s'.snapshot == Shown(s, step)
      && |s'.published| == |s.published| + (if Publishes(s, step) || Closes(s, step) then 1 else 0)
      && s'.requested == s.requested + (if Requests(s, step) then 1 else 0)
      && (Rejects(s, step) ==>
            s'.waiters == Others(s, step) && s'.answers == s.answers + Rejections(Addressed(s, step)))
      && (Confirmed(s, step) || Closes(s, step) ==>
            && s'.snapshot.Some? && s'.waiters == Others(s, step)
            && s'.answers == s.answers + Resolutions(Addressed(s, step), s'.snapshot.value, s.phase.round, s.phase.config))
      && (!Rejects(s, step) && !Confirmed(s, step) && !Closes(s, step) ==>
            && s'.answers == s.answers
            && s'.waiters == s.waiters + if Requests(s, step) then [Waiter(s'.requested, s.rounds)] else [])
  {
    hide EachOnce, GoodHistory, Due, Later, Resolutions, Rejections;
    assert s.answers + [] == s.answers && s.waiters + [] == s.waiters;
    NoneDue(s);
    if Confirmed(s, step) {
      NobodyDue(s.waiters, s.phase.generation);
      var told := s.answers + Resolutions(Addressed(s, step), Resolved(s), s.phase.round, s.phase.config);
      assert told + [] == told;
    }
  }

  /**
   In every reachable state, whatever the step: it rejects those it speaks to, or gives them the
   snapshot then shown, exactly in the cases named; and otherwise answers nobody. Shown is what a
   confirmed round has resolved, or the denial of everything.
   */
  lemma AnsweredExactly(s: State, step: Step)
    requires Inv(s) && Enabled(s, step)
    ensures var s' := Next(s, step);
      && s'.snapshot == Shown(s, step)
      && |s'.published| == |s.published| + (if Publishes(s, step) || Closes(s, step) then 1 else 0)
      && s'.requested == s.requested + (if Requests(s, step) then 1 else 0)
      && (Rejects(s, step) ==>
            s'.waiters == Others(s, step) && s'.answers == s.answers + Rejections(Addressed(s, step)))
      && (Confirmed(s, step) || Closes(s, step) ==>
            && s'.snapshot.Some? && s'.waiters == Others(s, step)
            && s'.answers == s.answers + Resolutions(Addressed(s, step), s'.snapshot.value, s.phase.round, s.phase.config))
      && (!Rejects(s, step) && !Confirmed(s, step) && !Closes(s, step) ==>
            && s'.answers == s.answers
            && s'.waiters == s.waiters + if Requests(s, step) then [Waiter(s'.requested, s.rounds)] else [])
  {
    hide EachOnce, GoodHistory, Due, Later, Resolutions, Rejections, Reread;
    assert s.answers + [] == s.answers && s.waiters + [] == s.waiters;
    NoneDue(s);
    if step.RereadArrives? {
      RereadAnswers(s, step);
    }
  }

  lemma NoneDue(s: State)
    ensures Rejections<Account, Config>([]) == []
    ensures forall generation :: Due([], generation) == [] && Later([], generation) == []
  {
  }

  // -------------------------------------------------------------------------
  // How the loop goes on
  // -------------------------------------------------------------------------

  /** A round begins: for a request that finds no loop, or between rounds as long as a reason is pending. */
  predicate Begins(s: State, step: Step) {
    || (Requests(s, step) && s.phase.NoLoop?)
    || (step.Test? && s.pendingReasons != {})
    || (step.Finish? && s.pendingReasons != {} && !s.disposed)
  }

  /** The second reading shows the round to be overtaken; what it resolved is dropped. */
  predicate Overtaken(s: State, step: Step) {
    step.RereadArrives? && !s.disposed && !Confirmed(s, step)
  }

  /**
   A round that begins covers every request so far and leaves no reason pending; an overtaken one
   makes another round follow; and otherwise reasons come from requests only.
   */
  lemma LoopGoesOn(s: State, step: Step)
    requires Inv(s) && Enabled(s, step)
    ensures var s' := Next(s, step);
      && s'.rounds == s.rounds + (if Begins(s, step) then 1 else 0)
      && (Begins(s, step) ==> s'.phase == Reading(s'.requested, s.rounds) && s'.pendingReasons == {})
      && (Overtaken(s, step) ==> s'.phase.AtTest? && s'.pendingReasons != {})
      && (Requests(s, step) && !Begins(s, step) ==> s'.pendingReasons != {} && s.pendingReasons <= s'.pendingReasons)
      && (!Begins(s, step) && !Overtaken(s, step) && !Requests(s, step) ==> s'.pendingReasons == s.pendingReasons)
      && s'.disposed == (s.disposed || step.Dispose?) && s'.started == (s.started || step.Read? || step.Refresh?)
  {
    hide EachOnce, GoodHistory, Due, Later, Resolutions, Rejections;
    assert step.Refresh? || step.ConfigChanged? ==> step.reason in s.pendingReasons + {step.reason};
    assert "superseded-resolution" in s.pendingReasons + {"superseded-resolution"};
  }

  /** A change is told to listeners, and one of them throws. */
  predicate ListenerThrows(s: State, step: Step) {
    Publishes(s, step) && s.snapshot.Some? && step.changeListenerThrows
  }

  /**
   Where the round is after a step: at its next await, with what the last one gave; or between
   rounds, after an answer or when overtaken; or over, after a rejection or a throw.
   */
  lemma RoundGoesOn(s: State, step: Step)
    requires Inv(s) && Enabled(s, step) && InRound(s)
    ensures var s', generation, round := Next(s, step), s.phase.generation, s.phase.round;
      && (step.ConfigArrives? ==> s'.phase == Resolving(generation, round, step.config))
      && (step.Resolves? && !s.disposed ==> s'.phase == Rereading(generation, round, s.phase.config, step.content))
      && (Closes(s, step) || Overtaken(s, step) || (Confirmed(s, step) && !ListenerThrows(s, step)) ==> s'.phase.AtTest?)
      && (ListenerThrows(s, step) || (Rejects(s, step) && !step.Dispose?) ==> s'.phase.Ended?)
      && (step.AwaitFails? && !Fails(s, step) ==> s'.phase.Ended?)
      && (step.Dispose? || step.Read? || step.Refresh? || step.ConfigChanged? ==> s'.phase == s.phase)
  {
    hide EachOnce, GoodHistory, Due, Later, Resolutions, Rejections;
  }

  // -------------------------------------------------------------------------
  // Over every run
  // -------------------------------------------------------------------------

  function After(s: State, step: Step): State {
    if Enabled(s, step) then Next(s, step) else s
  }

  lemma {:induction false} RunSnoc(s: State, steps: seq<Step>, last: Step)
    ensures Run(s, steps + [last]) == After(Run(s, steps), last)
    decreases |steps|
  {
    hide Next, Enabled;
    if steps == [] {
      assert [] + [last] == [last] && [last][1..] == [];
    } else {
      assert (steps + [last])[1..] == steps[1..] + [last] && (steps + [last])[0] == steps[0];
      RunSnoc(After(s, steps[0]), steps[1..], last);
    }
  }

  /** The step took place in that state, and gave that answer. */
  predicate Gives(s: State, step: Step, answer: Answer<Account, Config>) {
    && Enabled(s, step)
    && (answer.Rejected? ==> Rejects(s, step))
    && (answer.Resolved? ==> (Confirmed(s, step) || Closes(s, step)) && Shown(s, step) == Some(answer.snapshot))
  }

  ghost predicate HasCause(steps: seq<Step>, answer: Answer<Account, Config>) {
    exists k :: 0 <= k < |steps| && Gives(Run(INITIAL, steps[..k]), steps[k], answer)
  }

  lemma CauseStays(steps: seq<Step>, last: Step, answer: Answer<Account, Config>)
    requires HasCause(steps, answer)
    ensures HasCause(steps + [last], answer)
  {
    var k :| 0 <= k < |steps| && Gives(Run(INITIAL, steps[..k]), steps[k], answer);
    assert (steps + [last])[..k] == steps[..k] && (steps + [last])[k] == steps[k];
  }

  lemma AnswerOf(s: State, step: Step, i: nat)
    requires Inv(s) && Enabled(s, step)
    ensures s.answers <= Next(s, step).answers
    ensures |s.answers| <= i < |Next(s, step).answers| ==> Gives(s, step, Next(s, step).answers[i])
  {
    AnsweredExactly(s, step);
    hide Inv, Enabled, Next, Rejects, Confirmed, Closes;
  }

  lemma LastHasCause(steps: seq<Step>, last: Step, i: nat)
    requires Enabled(Run(INITIAL, steps), last)
    requires |Run(INITIAL, steps).answers| <= i < |Next(Run(INITIAL, steps), last).answers|
    ensures HasCause(steps + [last], Next(Run(INITIAL, steps), last).answers[i])
  {
    Reachable(steps);
    hide Run, Inv, Next, Enabled, Gives;
    AnswerOf(Run(INITIAL, steps), last, i);
    assert (steps + [last])[..|steps|] == steps && (steps + [last])[|steps|] == last;
  }

  /**
   Over every run: whoever was rejected, was so by a disposal or a failed round; and whoever was given
   a snapshot, was so by a confirmed round or the denial of everything, and it was the one then shown.
   */
  lemma {:induction false} AnswersHaveCauses(steps: seq<Step>)
    ensures var answers := Run(INITIAL, steps).answers; forall i :: 0 <= i < |answers| ==> HasCause(steps, answers[i])
    decreases |steps|
  {
    if steps != [] {
      var before, last := steps[..|steps| - 1], steps[|steps| - 1];
      assert steps == before + [last];
      AnswersHaveCauses(before);
      RunSnoc(INITIAL, before, last);
      Reachable(before);
      hide Run, Inv, Next, Enabled, HasCause;
      var s, answers := Run(INITIAL, before), Run(INITIAL, steps).answers;
      forall i | 0 <= i < |answers| ensures HasCause(steps, answers[i]) {
        if Enabled(s, last) {
          AnswerOf(s, last, i);
        }
        if i < |s.answers| {
          CauseStays(before, last, s.answers[i]);
        } else {
          LastHasCause(before, last, i);
        }
      }
    }
  }
}
