/** Which step of the registry service answers whom, with what, and exactly when it rejects. */
module RegistryAnswers {
  import opened RefreshWaiters
  import opened RegistryRefresh
  import opened Prelude

  /** A round ends that no request has overtaken. */
  predicate CurrentRound(s: State) {
    s.phase.Reading? && s.phase.generation == s.requested
  }

  /** The reads of a current round agree on the Built-in revision. */
  predicate Agree(s: State, step: Step) {
    CurrentRound(s) && !s.disposed && step.ReadsArrive? && step.account.basedOn == step.config.builtinRevision
  }

  predicate Disagree(s: State, step: Step) {
    CurrentRound(s) && !s.disposed && step.ReadsArrive? && step.account.basedOn != step.config.builtinRevision
  }

  /** Both revisions read are those shown already. */
  predicate Known(s: State, step: Step)
    requires step.ReadsArrive?
  {
    s.snapshot.Some? && s.snapshot.value.config.revision == step.config.revision
    && s.snapshot.value.account.revision == step.account.revision
  }

  /** A snapshot is made of what was read and shown. */
  predicate Publishes(s: State, step: Step) {
    Agree(s, step) && !Known(s, step) && !step.publication.ResolverThrows?
  }

  /** Disposal; a current round that fails, the error listeners not throwing; the finish after a throw. Nothing else. */
  predicate Rejects(s: State, step: Step) {
    || (step.Dispose? && !s.disposed)
    || (step == ReadsFail(false) && CurrentRound(s))
    || (Agree(s, step) && !Known(s, step) && step.publication.ResolverThrows? && !step.errorListenerThrows)
    || (step.Finish? && s.phase == Ended(true))
  }

  /** A current round that shows something, or finds what is shown confirmed, or has nothing better to give. */
  predicate Resolves(s: State, step: Step) {
    || Publishes(s, step)
    || (Agree(s, step) && Known(s, step))
    || (Disagree(s, step) && s.snapshot.Some?)
  }

  predicate Requests(s: State, step: Step) {
    || (step.Start? && (!s.started || s.snapshot.None?))
    || step.Refresh?
    || (step.SourceChanged? && !s.disposed)
  }

  /** What is shown after a step. */
  function Shown(s: State, step: Step): Option<Snapshot> {
    if Publishes(s, step) then Some(Snapshot(step.config, step.account)) else s.snapshot
  }

  lemma {:induction false} AllDue(waiters: seq<Waiter>, generation: nat)
    requires forall w :: w in waiters ==> w.generation <= generation
    ensures Due(waiters, generation) == waiters && Later(waiters, generation) == []
  {
    if waiters != [] {
      assert waiters == [waiters[0]] + waiters[1..];
      AllDue(waiters[1..], generation);
    }
  }

  /**
   In every reachable state, whatever the step: it rejects everybody who waits, or gives everybody the
   snapshot then shown, exactly in the cases named; and otherwise answers nobody. Shown is what an
   agreeing current round has read, unless it is known already or the resolver throws.
   */
  lemma AnsweredExactly(s: State, step: Step)
    requires Inv(s) && Enabled(s, step)
    ensures var s' := Next(s, step);
      && s'.snapshot == Shown(s, step)
      && s'.published == s.published + (if Publishes(s, step) then [Shown(s, step).value] else [])
      && s'.requested == s.requested + (if Requests(s, step) then 1 else 0)
      && (Rejects(s, step) ==> s'.waiters == [] && s'.answers == s.answers + Rejections(s.waiters))
      && (Resolves(s, step) ==>
            && s'.snapshot.Some? && s'.waiters == []
            && s'.answers == s.answers + Resolutions(s.waiters, s'.snapshot.value, s.phase.round,
                                                     Basis(Snapshot(step.config, step.account), |s'.published|)))
      && (!Rejects(s, step) && !Resolves(s, step) ==>
            && s'.answers == s.answers
            && s'.waiters == s.waiters + if Requests(s, step) then [Waiter(s'.requested, s.rounds)] else [])
  {
    hide EachOnce, PublishedConsistent, GoodAnswers, NoLostWakeUp, Due, Later;
    AllDue(s.waiters, s.requested);
    AllDue([], s.requested);
    assert s.answers + [] == s.answers && s.waiters + [] == s.waiters && s.published + [] == s.published;
    match step
    case ReadsArrive(_, _, _, _) => ReadsAnswer(s, step);
    case _ => assert Rejections<Snapshot, Basis>([]) == [];
  }

  lemma ReadsAnswer(s: State, step: Step)
    requires Inv(s) && Enabled(s, step) && step.ReadsArrive?
    ensures var s' := Next(s, step);
      && s'.snapshot == Shown(s, step)
      && s'.published == s.published + (if Publishes(s, step) then [Shown(s, step).value] else [])
      && s'.requested == s.requested
      && (Rejects(s, step) ==> s'.waiters == [] && s'.answers == s.answers + Rejections(s.waiters))
      && (Resolves(s, step) ==>
            && s'.snapshot.Some? && s'.waiters == []
            && s'.answers == s.answers + Resolutions(s.waiters, s'.snapshot.value, s.phase.round,
                                                     Basis(Snapshot(step.config, step.account), |s'.published|)))
      && (!Rejects(s, step) && !Resolves(s, step) ==> s'.answers == s.answers && s'.waiters == s.waiters)
  {
    hide EachOnce, PublishedConsistent, GoodAnswers, NoLostWakeUp, Due, Later;
    AllDue(s.waiters, s.requested);
    AllDue([], s.requested);
    assert Rejections<Snapshot, Basis>([]) == [];
    var told := Resolutions(s.waiters, Snapshot(step.config, step.account), s.phase.round,
                            Basis(Snapshot(step.config, step.account), |s.published| + 1));
    assert (s.answers + told) + [] == s.answers + told;
    assert s.published + [] == s.published;
  }

  // -------------------------------------------------------------------------
  // How the loop goes on
  // -------------------------------------------------------------------------

  /** A round of reads begins: for a request that finds no loop, or between rounds as long as something is not completed. */
  predicate Begins(s: State, step: Step) {
    || (Requests(s, step) && s.phase.NoLoop? && !s.disposed)
    || (step.Test? && s.completed < s.requested)
    || (step.Finish? && s.completed < s.requested && !s.disposed)
  }

  /** A current round completes its generation, unless the service was disposed meanwhile. */
  predicate Completes(s: State, step: Step) {
    CurrentRound(s) && (step.ReadsFail? || (step.ReadsArrive? && !s.disposed))
  }

  /** The loop ends by a throw its finish handler will see. */
  predicate Throws(s: State, step: Step) {
    && CurrentRound(s)
    && (|| step == ReadsFail(true)
        || (step.ReadsArrive? && s.disposed)
        || (Agree(s, step) && !Known(s, step) && !step.publication.Publishes? && step.errorListenerThrows))
  }

  lemma ReadsGoOn(s: State, step: Step)
    requires Inv(s) && Enabled(s, step) && step.ReadsArrive?
    ensures var s' := Next(s, step);
      && s'.rounds == s.rounds + (if Begins(s, step) then 1 else 0)
      && (Begins(s, step) ==> s'.phase == Reading(s'.requested, s.rounds))
      && s'.completed == (if Completes(s, step) then s.requested else s.completed)
      && (Throws(s, step) ==> s'.phase == Ended(true))
      && (s.phase.Reading? && !Throws(s, step) ==> s'.phase != Ended(true))
      && s'.disposed == (s.disposed || step.Dispose?) && s'.started == (s.started || step.Start?)
  {
    hide EachOnce, PublishedConsistent, GoodAnswers, NoLostWakeUp, NobodyForgotten, Due, Later, Resolutions, Rejections;
  }

  /** Rounds begin, complete their generation and throw exactly so; nothing but a disposal disposes. */
  lemma LoopGoesOn(s: State, step: Step)
    requires Inv(s) && Enabled(s, step)
    ensures var s' := Next(s, step);
      && s'.rounds == s.rounds + (if Begins(s, step) then 1 else 0)
      && (Begins(s, step) ==> s'.phase == Reading(s'.requested, s.rounds))
      && s'.completed == (if Completes(s, step) then s.requested else s.completed)
      && (Throws(s, step) ==> s'.phase == Ended(true))
      && (s.phase.Reading? && !Throws(s, step) ==> s'.phase != Ended(true))
      && s'.disposed == (s.disposed || step.Dispose?) && s'.started == (s.started || step.Start?)
  {
    hide EachOnce, PublishedConsistent, GoodAnswers, NoLostWakeUp, NobodyForgotten, Due, Later, Resolutions, Rejections, Arrived;
    if step.ReadsArrive? {
      ReadsGoOn(s, step);
    }
  }

  /** A listener told of a new snapshot throws. */
  predicate ListenerThrows(s: State, step: Step) {
    Publishes(s, step) && step.publication.ChangeListenerThrows?
  }

  /** Where the loop is after a round: at its test, or, after a rejection or a throw, at its end. */
  lemma RoundEndsSo(s: State, step: Step)
    requires Inv(s) && Enabled(s, step) && (step.ReadsArrive? || step.ReadsFail?)
    ensures var s' := Next(s, step);
      && (!CurrentRound(s) || (Resolves(s, step) && !ListenerThrows(s, step)) || Disagree(s, step) ==> s'.phase.AtTest?)
      && (Rejects(s, step) ==> s'.phase == Ended(false))
      && (ListenerThrows(s, step) ==> s'.phase == Ended(step.errorListenerThrows))
  {
    hide EachOnce, PublishedConsistent, GoodAnswers, NoLostWakeUp, NobodyForgotten, Due, Later, Resolutions, Rejections;
  }

  // -------------------------------------------------------------------------
  // Over every run
  // -------------------------------------------------------------------------

  lemma {:induction false} RunSnoc(s: State, steps: seq<Step>, last: Step)
    ensures Run(s, steps + [last]) == After(Run(s, steps), last)
    decreases |steps|
  {
    hide Next, Enabled;
    if steps == [] {
      assert [] + [last] == [last] && [last][1..] == [];
    } else {
      assert (steps + [last])[1..] == steps[1..] + [last] && (steps + [last])[0] == steps[0];
      RunSnoc(After(s, steps[0]), steps[1..], last);
    }
  }

  /** The step took place in that state, and gave that answer. */
  predicate Gives(s: State, step: Step, answer: Answer<Snapshot, Basis>) {
    && Enabled(s, step)
    && (answer.Rejected? ==> Rejects(s, step))
    && (answer.Resolved? ==> Resolves(s, step) && Shown(s, step) == Some(answer.snapshot))
  }

  ghost predicate HasCause(steps: seq<Step>, answer: Answer<Snapshot, Basis>) {
    exists k :: 0 <= k < |steps| && Gives(Run(INITIAL, steps[..k]), steps[k], answer)
  }

  lemma CauseStays(steps: seq<Step>, last: Step, answer: Answer<Snapshot, Basis>)
    requires HasCause(steps, answer)
    ensures HasCause(steps + [last], answer)
  {
    var k :| 0 <= k < |steps| && Gives(Run(INITIAL, steps[..k]), steps[k], answer);
    assert (steps + [last])[..k] == steps[..k] && (steps + [last])[k] == steps[k];
  }

  lemma AnswerOf(s: State, step: Step, i: nat)
    requires Inv(s) && Enabled(s, step) && |s.answers| <= i < |Next(s, step).answers|
    ensures Gives(s, step, Next(s, step).answers[i])
  {
    AnsweredExactly(s, step);
    hide Inv, Enabled, Next, Rejects, Resolves;
  }

  lemma AnswersGrow(s: State, step: Step)
    requires Inv(s) && Enabled(s, step)
    ensures s.answers <= Next(s, step).answers
  {
    AnsweredExactly(s, step);
    hide Inv, Enabled, Next, Rejects, Resolves;
  }

  lemma LastHasCause(steps: seq<Step>, last: Step, i: nat)
    requires Enabled(Run(INITIAL, steps), last)
    requires |Run(INITIAL, steps).answers| <= i < |Next(Run(INITIAL, steps), last).answers|
    ensures HasCause(steps + [last], Next(Run(INITIAL, steps), last).answers[i])
  {
    Reachable(steps);
    hide Run, Inv, Next, Enabled, Gives;
    AnswerOf(Run(INITIAL, steps), last, i);
    assert (steps + [last])[..|steps|] == steps && (steps + [last])[|steps|] == last;
  }

  /**
   Over every run: whoever was rejected, was so by a disposal, a failed round or the finish after a
   throw; and whoever was given a snapshot, was so by a current round, and it was the one then shown.
   */
  lemma {:induction false} AnswersHaveCauses(steps: seq<Step>)
    ensures var answers := Run(INITIAL, steps).answers; forall i :: 0 <= i < |answers| ==> HasCause(steps, answers[i])
    decreases |steps|
  {
    if steps != [] {
      var before, last := steps[..|steps| - 1], steps[|steps| - 1];
      assert steps == before + [last];
      AnswersHaveCauses(before);
      RunSnoc(INITIAL, before, last);
      Reachable(before);
      hide Run, Inv, Next, Enabled, HasCause;
      var s, answers := Run(INITIAL, before), Run(INITIAL, steps).answers;
      forall i | 0 <= i < |answers| ensures HasCause(steps, answers[i]) {
        if Enabled(s, last) {
          AnswersGrow(s, last);
        }
        if i < |s.answers| {
          CauseStays(before, last, s.answers[i]);
        } else {
          LastHasCause(before, last, i);
        }
      }
    }
  }
}
