/**
 `ProviderRegistryService`: concurrent refresh requests coalesced by generation counters.

 Each stretch of code between two awaits is one step; requests, source changes and `dispose` come in
 between. Reads may fail, the resolver and the listeners may throw. The loop's test is a step of its
 own, so that what a listener does while it is being told also comes in between.
 */
module RegistryRefresh {
  import opened RefreshWaiters
  import opened Prelude

  /** Of the two source snapshots only their revisions matter here. */
  datatype Config = Config(revision: string, builtinRevision: string)
  datatype Account = Account(revision: string, basedOn: string)

  datatype Snapshot = Snapshot(config: Config, account: Account)

  /** What an answer rests on: what its round read, and how many snapshots had been published when it was given. */
  datatype Basis = Basis(found: Snapshot, published: nat)

  datatype Phase =
    | NoLoop                                 // no refresh in flight
    | AtTest                                 // about to test the loop condition
    | Reading(generation: nat, round: nat)   // both reads begun, neither continued
    | Ended(threw: bool)                     // the loop is over, its finish handler still to run

  datatype State = State(
    started: bool,
    disposed: bool,
    requested: nat,
    completed: nat,
    waiters: seq<Waiter>,
    snapshot: Option<Snapshot>,
    phase: Phase,
    rounds: nat,
    answers: seq<Answer<Snapshot, Basis>>,
    published: seq<Snapshot>)

  const INITIAL := State(false, false, 0, 0, [], None, NoLoop, 0, [], [])

  /** How the last part of a successful round ends. */
  datatype Publication = Publishes | ResolverThrows | ChangeListenerThrows

  datatype Step =
    | Start
    | Refresh
    | SourceChanged
    | Dispose
    | Test
    | ReadsFail(errorListenerThrows: bool)
    | ReadsArrive(config: Config, account: Account, publication: Publication, errorListenerThrows: bool)
    | Finish

  // -------------------------------------------------------------------------
  // The steps
  // -------------------------------------------------------------------------

  function ResolveDue(s: State, generation: nat, snapshot: Snapshot, round: nat, found: Snapshot): State {
    s.(waiters := Later(s.waiters, generation),
       answers := s.answers + Resolutions(Due(s.waiters, generation), snapshot, round, Basis(found, |s.published|)))
  }

  function RejectDue(s: State, generation: nat): State {
    s.(waiters := Later(s.waiters, generation),
       answers := s.answers + Rejections(Due(s.waiters, generation)))
  }

  /** The loop condition and, if it holds, the start of a round. */
  function TestLoop(s: State): State {
    if s.completed < s.requested
    then s.(phase := Reading(s.requested, s.rounds), rounds := s.rounds + 1)
    else s.(phase := Ended(false))
  }

  function EnsureLoop(s: State): State {
    if s.phase != NoLoop || s.disposed then s else TestLoop(s)
  }

  function Request(s: State): State {
    EnsureLoop(s.(requested := s.requested + 1,
                  waiters := s.waiters + [Waiter(s.requested + 1, s.rounds)]))
  }

  function Disposed(s: State): State {
    if s.disposed then s
    else s.(disposed := true, waiters := [], answers := s.answers + Rejections(s.waiters))
  }

  /** A round that ends in an error its waiters are told of. */
  function Failed(s: State, generation: nat, errorListenerThrows: bool): State {
    var done := s.(completed := generation);
    if errorListenerThrows then done.(phase := Ended(true))
    else RejectDue(done, generation).(phase := Ended(false))
  }

  function SameRevisions(s: State, found: Snapshot): bool {
    s.snapshot.Some?
    && s.snapshot.value.config.revision == found.config.revision
    && s.snapshot.value.account.revision == found.account.revision
  }

  /** A new snapshot is shown, its waiters are answered, and the listeners told, one of whom may throw. */
  function Published(s: State, generation: nat, round: nat, found: Snapshot, publication: Publication, errorListenerThrows: bool): State {
    var done := ResolveDue(s.(snapshot := Some(found), published := s.published + [found], completed := generation),
                           generation, found, round, found);
    if publication == ChangeListenerThrows then Failed(done, generation, errorListenerThrows)
    else done.(phase := AtTest)
  }

  function Arrived(s: State, found: Snapshot, publication: Publication, errorListenerThrows: bool): State
    requires s.phase.Reading?
  {
    var generation, round := s.phase.generation, s.phase.round;
    if generation < s.requested then s.(phase := AtTest)
    else if s.disposed then s.(phase := Ended(true))
    else if found.account.basedOn != found.config.builtinRevision then
      var done := s.(completed := generation, phase := AtTest);
      if s.snapshot.Some? then ResolveDue(done, generation, s.snapshot.value, round, found) else done
    else if SameRevisions(s, found) then
      ResolveDue(s.(completed := generation, phase := AtTest), generation, s.snapshot.value, round, found)
    else if publication == ResolverThrows then Failed(s, generation, errorListenerThrows)
    else Published(s, generation, round, found, publication, errorListenerThrows)
  }

  function ReadsFailed(s: State, errorListenerThrows: bool): State
    requires s.phase.Reading?
  {
    var generation := s.phase.generation;
    if generation < s.requested then s.(phase := AtTest) else Failed(s, generation, errorListenerThrows)
  }

  function Finished(s: State): State
    requires s.phase.Ended?
  {
    var told := if s.phase.threw then RejectDue(s, s.requested) else s;
    var idle := told.(phase := NoLoop);
    if idle.completed < idle.requested then EnsureLoop(idle) else idle
  }

  /** Calls that throw at their first line are not steps; nothing happens on the others' turn. */
  predicate Enabled(s: State, step: Step) {
    match step
    case Start => !s.disposed
    case Refresh => !s.disposed && s.started
    case SourceChanged => s.started
    case Dispose => true
    case Test => s.phase.AtTest?
    case ReadsFail(_) => s.phase.Reading?
    case ReadsArrive(_, _, _, _) => s.phase.Reading?
    case Finish => s.phase.Ended?
  }

  function Next(s: State, step: Step): State
    requires Enabled(s, step)
  {
    match step
    case Start =>
      if !s.started then Request(s.(started := true))
      else if s.snapshot.None? then Request(s) else s
    case Refresh => Request(s)
    case SourceChanged => if s.disposed then s else Request(s)
    case Dispose => Disposed(s)
    case Test => TestLoop(s)
    case ReadsFail(throws) => ReadsFailed(s, throws)
    case ReadsArrive(config, account, publication, throws) =>
      Arrived(s, Snapshot(config, account), publication, throws)
    case Finish => Finished(s)
  }

  function Run(s: State, steps: seq<Step>): State
    decreases |steps|
  {
    if steps == [] then s
    else Run(if Enabled(s, steps[0]) then Next(s, steps[0]) else s, steps[1..])
  }

  // -------------------------------------------------------------------------
  // The invariant
  // -------------------------------------------------------------------------

  predicate Consistent(snapshot: Snapshot) {
    snapshot.account.basedOn == snapshot.config.builtinRevision
  }

  /** Every promise handed out is waiting or was settled, and only once. */
  predicate EachOnce(s: State) {
    Waiting(s.waiters) + Answered(s.answers) == UpTo(s.requested)
  }

  /** A round in progress began after every request it will answer. */
  predicate RoundCovers(s: State) {
    && (forall w :: w in s.waiters ==> 1 <= w.generation <= s.requested && w.roundsBefore <= s.rounds)
    && s.completed <= s.requested
    && (s.phase.Reading? ==>
          && s.completed < s.phase.generation <= s.requested && s.phase.round < s.rounds
          && forall w :: w in s.waiters && w.generation <= s.phase.generation ==> w.roundsBefore <= s.phase.round)
  }

  /** A loop, or the handler that will start one, is there as long as a request is not completed. */
  predicate NoLostWakeUp(s: State) {
    s.completed < s.requested && !s.disposed ==> s.phase != NoLoop
  }

  /** With a snapshot to give, nobody waits for a completed generation, except while a throw is being handled. */
  predicate NobodyForgotten(s: State) {
    && (s.disposed ==> s.waiters == [])
    && (s.snapshot.Some? && s.phase != Ended(true) ==>
          forall w :: w in s.waiters ==> w.generation > s.completed)
  }

  predicate PublishedConsistent(s: State) {
    && (s.snapshot.Some? ==> s.published != [] && s.snapshot.value == s.published[|s.published| - 1])
    && (forall i :: 0 <= i < |s.published| ==> Consistent(s.published[i]))
  }

  /**
   A resolution comes from a round of reads begun after the request, and gives the last snapshot that
   had been published; which is at the revisions read, unless those disagree on the Built-in revision.
   */
  predicate GoodAnswer(answer: Answer<Snapshot, Basis>, published: seq<Snapshot>) {
    answer.Resolved? ==>
      && answer.waiter.roundsBefore <= answer.round
      && 0 < answer.basis.published <= |published|
      && answer.snapshot == published[answer.basis.published - 1]
      && (Consistent(answer.basis.found) ==>
            && answer.snapshot.config.revision == answer.basis.found.config.revision
            && answer.snapshot.account.revision == answer.basis.found.account.revision)
  }

  predicate GoodAnswers(s: State) {
    forall i :: 0 <= i < |s.answers| ==> GoodAnswer(s.answers[i], s.published)
  }

  predicate Inv(s: State) {
    EachOnce(s) && RoundCovers(s) && NoLostWakeUp(s) && NobodyForgotten(s) && PublishedConsistent(s) && GoodAnswers(s)
  }

  // -------------------------------------------------------------------------
  // Every step keeps it
  // -------------------------------------------------------------------------

  lemma ResolveKeepsOnce(s: State, generation: nat, snapshot: Snapshot, round: nat, found: Snapshot)
    requires EachOnce(s)
    ensures EachOnce(ResolveDue(s, generation, snapshot, round, found))
  {
    var due := Due(s.waiters, generation);
    DueAndLater(s.waiters, generation);
    var basis := Basis(found, |s.published|);
    ResolutionsAnswer(due, snapshot, round, basis);
    AnsweredConcat(s.answers, Resolutions(due, snapshot, round, basis));
  }

  lemma RejectKeepsOnce(s: State, generation: nat)
    requires EachOnce(s)
    ensures EachOnce(RejectDue(s, generation))
  {
    var due := Due(s.waiters, generation);
    DueAndLater(s.waiters, generation);
    RejectionsAnswer<Snapshot, Basis>(due);
    AnsweredConcat(s.answers, Rejections(due));
  }

  lemma ResolveGood(s: State, generation: nat, snapshot: Snapshot, round: nat, found: Snapshot)
    requires GoodAnswers(s) && s.published != [] && snapshot == s.published[|s.published| - 1]
    requires forall w :: w in s.waiters && w.generation <= generation ==> w.roundsBefore <= round
    requires Consistent(found) ==>
      snapshot.config.revision == found.config.revision && snapshot.account.revision == found.account.revision
    ensures GoodAnswers(ResolveDue(s, generation, snapshot, round, found))
  {
  }

  lemma RejectGood(s: State, generation: nat)
    requires GoodAnswers(s)
    ensures GoodAnswers(RejectDue(s, generation))
  {
  }

  lemma RequestKeepsOnce(s: State)
    requires EachOnce(s)
    ensures EachOnce(Request(s))
  {
    hide Waiting, Answered, UpTo;
    OneMore(s.waiters, s.answers, s.requested, s.rounds);
  }

  lemma RequestKeepsHistory(s: State)
    requires PublishedConsistent(s) && GoodAnswers(s)
    ensures PublishedConsistent(Request(s)) && GoodAnswers(Request(s))
  {
    hide GoodAnswer, Consistent;
  }

  lemma RequestKeeps(s: State)
    requires Inv(s) && !s.disposed
    ensures Inv(Request(s))
  {
    hide EachOnce, GoodAnswers, PublishedConsistent;
    RequestKeepsOnce(s);
    RequestKeepsHistory(s);
  }

  lemma DisposeKeeps(s: State)
    requires Inv(s)
    ensures Inv(Disposed(s))
  {
    hide Waiting, Answered, UpTo, Consistent;
    AllRejected(s.waiters, s.answers, s.requested);
  }

  lemma FailKeeps(s: State, generation: nat, throws: bool)
    requires EachOnce(s) && PublishedConsistent(s) && GoodAnswers(s)
    requires s.completed <= generation <= s.requested && (s.disposed ==> s.waiters == [])
    requires forall w :: w in s.waiters ==> 1 <= w.generation <= s.requested && w.roundsBefore <= s.rounds
    ensures Inv(Failed(s, generation, throws))
  {
    hide EachOnce, GoodAnswers, PublishedConsistent, Due, Later;
    var done := s.(completed := generation);
    SameHistory(s, done);
    SameHistory(done, done.(phase := Ended(true)));
    RejectKeepsOnce(done, generation);
    RejectGood(done, generation);
    var told := RejectDue(done, generation);
    assert told == done.(waiters := told.waiters, answers := told.answers);
    SameHistory(told, told.(phase := Ended(false)));
    SamePublished(s, Failed(s, generation, throws));
  }

  lemma SamePublished(s: State, s': State)
    requires s'.published == s.published && s'.snapshot == s.snapshot
    ensures PublishedConsistent(s) ==> PublishedConsistent(s')
  {
  }

  /** A round that answers its waiters with a snapshot already published. */
  lemma AnswerKeeps(s: State, snapshot: Snapshot, round: nat, found: Snapshot)
    requires EachOnce(s) && PublishedConsistent(s) && GoodAnswers(s)
    requires s.completed <= s.requested && !s.disposed && s.phase.AtTest?
    requires s.published != [] && snapshot == s.published[|s.published| - 1]
    requires forall w :: w in s.waiters ==> 1 <= w.generation <= s.requested && w.roundsBefore <= round <= s.rounds
    requires Consistent(found) ==>
      snapshot.config.revision == found.config.revision && snapshot.account.revision == found.account.revision
    ensures Inv(ResolveDue(s, s.completed, snapshot, round, found))
  {
    hide Waiting, Answered, UpTo, Due, Later, GoodAnswers, EachOnce;
    ResolveKeepsOnce(s, s.completed, snapshot, round, found);
    ResolveGood(s, s.completed, snapshot, round, found);
  }

  lemma PublishKeeps(s: State, found: Snapshot)
    requires PublishedConsistent(s) && GoodAnswers(s) && Consistent(found)
    ensures var shown := s.(snapshot := Some(found), published := s.published + [found]);
      PublishedConsistent(shown) && GoodAnswers(shown)
  {
    var published := s.published + [found];
    assert published[|s.published|] == found;
    forall i | 0 <= i < |s.answers| ensures GoodAnswer(s.answers[i], published) {
      assert GoodAnswer(s.answers[i], s.published);
    }
  }

  lemma NewSnapshotKeeps(s: State, found: Snapshot, publication: Publication, throws: bool)
    requires Inv(s) && s.phase.Reading? && s.phase.generation == s.requested && !s.disposed && Consistent(found)
    ensures Inv(Published(s, s.phase.generation, s.phase.round, found, publication, throws))
  {
    var generation, round := s.phase.generation, s.phase.round;
    hide EachOnce, GoodAnswers, ResolveDue, Failed;
    var shown := s.(snapshot := Some(found), published := s.published + [found]);
    PublishKeeps(s, found);
    SameHistory(s, shown);
    var done := shown.(completed := generation, phase := AtTest);
    SameHistory(shown, done);
    AnswerKeeps(done, found, round, found);
    var answered := ResolveDue(done, generation, found, round, found);
    ResolvePhase(shown.(completed := generation), generation, found, round, found, AtTest);
    if publication == ChangeListenerThrows {
      FailPhase(answered, generation, throws, s.phase);
      FailKeeps(answered, generation, throws);
    }
  }

  lemma ArriveKeeps(s: State, found: Snapshot, publication: Publication, throws: bool)
    requires Inv(s) && s.phase.Reading?
    ensures Inv(Arrived(s, found, publication, throws))
  {
    var generation, round := s.phase.generation, s.phase.round;
    hide EachOnce, GoodAnswers, ResolveDue, Failed, Published;
    if generation < s.requested || s.disposed {
      hide PublishedConsistent;
      SameHistory(s, Arrived(s, found, publication, throws));
    } else if !Consistent(found) || SameRevisions(s, found) {
      var done := s.(completed := generation, phase := AtTest);
      SameHistory(s, done);
      if s.snapshot.Some? {
        AnswerKeeps(done, s.snapshot.value, round, found);
      }
    } else if publication == ResolverThrows {
      FailKeeps(s, generation, throws);
    } else {
      NewSnapshotKeeps(s, found, publication, throws);
    }
  }

  /** Answering does not look at the phase. */
  lemma ResolvePhase(s: State, generation: nat, snapshot: Snapshot, round: nat, found: Snapshot, phase: Phase)
    ensures ResolveDue(s.(phase := phase), generation, snapshot, round, found)
         == ResolveDue(s, generation, snapshot, round, found).(phase := phase)
  {
  }

  lemma FailPhase(s: State, generation: nat, throws: bool, phase: Phase)
    ensures Failed(s, generation, throws) == Failed(s.(phase := phase), generation, throws)
  {
  }

  lemma SameHistory(s: State, s': State)
    requires s'.waiters == s.waiters && s'.answers == s.answers && s'.requested == s.requested
    ensures EachOnce(s) ==> EachOnce(s')
    ensures s'.published == s.published ==> GoodAnswers(s) ==> GoodAnswers(s')
    ensures s'.published == s.published && s'.snapshot == s.snapshot ==> PublishedConsistent(s) ==> PublishedConsistent(s')
  {
  }

  lemma FinishKeeps(s: State)
    requires Inv(s) && s.phase.Ended?
    ensures Inv(Finished(s))
  {
    hide Waiting, Answered, UpTo, Due, Later, GoodAnswer, Consistent;
    RejectKeepsOnce(s, s.requested);
    RejectGood(s, s.requested);
  }

  lemma StepKeeps(s: State, step: Step)
    requires Inv(s) && Enabled(s, step)
    ensures Inv(Next(s, step))
  {
    hide Waiting, Answered, UpTo, Request, Arrived, Finished, Failed, Disposed;
    match step
    case Start => RequestKeeps(s); RequestKeeps(s.(started := true));
    case Refresh => RequestKeeps(s);
    case SourceChanged => if !s.disposed { RequestKeeps(s); }
    case Dispose => DisposeKeeps(s);
    case Test =>
    case ReadsFail(throws) => FailKeeps(s, s.phase.generation, throws);
    case ReadsArrive(config, account, publication, throws) =>
      ArriveKeeps(s, Snapshot(config, account), publication, throws);
    case Finish => FinishKeeps(s);
  }

  lemma {:induction false} RunKeeps(s: State, steps: seq<Step>)
    requires Inv(s)
    ensures Inv(Run(s, steps))
    decreases |steps|
  {
    if steps != [] {
      hide Inv, Next;
      if Enabled(s, steps[0]) {
        StepKeeps(s, steps[0]);
        RunKeeps(Next(s, steps[0]), steps[1..]);
      } else {
        RunKeeps(s, steps[1..]);
      }
    }
  }

  // -------------------------------------------------------------------------
  // Guarantees over every run
  // -------------------------------------------------------------------------

  lemma InitialHolds()
    ensures Inv(INITIAL)
  {
  }

  lemma Reachable(steps: seq<Step>)
    ensures Inv(Run(INITIAL, steps))
  {
    InitialHolds();
    RunKeeps(INITIAL, steps);
  }

  /**
   Whatever is interleaved with what: a request not completed has a loop or a finish handler to
   complete it; once there is a snapshot nobody waits for a completed generation, unless the loop has
   just thrown; every request is waiting or was answered, exactly once; a resolution came from a
   round of reads begun after the request; every published snapshot is consistent.
   */
  lemma RefreshGuarantees(steps: seq<Step>)
    ensures var s := Run(INITIAL, steps);
      && (s.completed < s.requested && !s.disposed ==> s.phase != NoLoop)
      && (s.snapshot.Some? && s.phase != Ended(true) ==> forall w :: w in s.waiters ==> w.generation > s.completed)
      && (forall g: nat :: Waiting(s.waiters)[g] + Answered(s.answers)[g] == if 1 <= g <= s.requested then 1 else 0)
      && (forall i :: 0 <= i < |s.answers| ==> GoodAnswer(s.answers[i], s.published))
      && (forall i :: 0 <= i < |s.published| ==> Consistent(s.published[i]))
  {
    var s := Run(INITIAL, steps);
    Reachable(steps);
    forall g: nat
      ensures Waiting(s.waiters)[g] + Answered(s.answers)[g] == if 1 <= g <= s.requested then 1 else 0
    {
      UpToCounts(s.requested, g);
      assert (Waiting(s.waiters) + Answered(s.answers))[g] == UpTo(s.requested)[g];
    }
  }

  /**
   When nothing is in flight, nobody is waiting: everybody was answered. The one exception is a
   service that has never had a snapshot to give and was not disposed.
   */
  lemma IdleMeansAnswered(steps: seq<Step>)
    ensures var s := Run(INITIAL, steps);
      s.phase == NoLoop && s.waiters != [] ==> s.snapshot.None? && s.published == [] && !s.disposed
  {
    Reachable(steps);
    var s := Run(INITIAL, steps);
    if s.phase == NoLoop && s.waiters != [] {
      assert s.waiters[0] in s.waiters;
      HasPublished(INITIAL, steps);
    }
  }

  // Who is left waiting for a completed generation, exactly.

  ghost predicate NobodyBehind(s: State) {
    forall w :: w in s.waiters ==> w.generation > s.completed
  }

  /** Unless the loop has just thrown, nobody waits for a completed generation. */
  ghost predicate NobodyLeftBehind(s: State) {
    s.phase != Ended(true) ==> NobodyBehind(s)
  }

  /** Once there is a snapshot, nobody waits for a completed generation. */
  ghost predicate NobodyDelayed(s: State) {
    s.snapshot.Some? ==> NobodyBehind(s)
  }

  /** A round ends that nothing newer has overtaken, and somebody is waiting. */
  predicate RoundEnds(s: State) {
    s.phase.Reading? && s.phase.generation == s.requested && s.waiters != []
  }

  /** The one way to leave somebody waiting: the sources disagree before there is any snapshot. */
  predicate Leaves(s: State, step: Step) {
    && step.ReadsArrive? && step.account.basedOn != step.config.builtinRevision
    && RoundEnds(s) && !s.disposed && s.snapshot.None?
  }

  /** The one way to put an answer off: the reads or the resolver fail, and an error listener throws. */
  predicate Delays(s: State, step: Step) {
    && RoundEnds(s) && s.snapshot.Some?
    && (step == ReadsFail(true)
        || (step.ReadsArrive? && step.publication.ResolverThrows? && step.errorListenerThrows && !s.disposed
            && step.account.basedOn == step.config.builtinRevision && !SameRevisions(s, Snapshot(step.config, step.account))))
  }

  lemma LeftByReadsExactly(s: State, step: Step)
    requires Inv(s) && Enabled(s, step) && NobodyLeftBehind(s) && step.ReadsArrive?
    ensures NobodyLeftBehind(Next(s, step)) <==> !Leaves(s, step)
  {
    hide EachOnce, PublishedConsistent, GoodAnswers, Due, Later;
    if s.waiters != [] {
      assert s.waiters[0] in s.waiters;
    }
  }

  lemma LeftExactly(s: State, step: Step)
    requires Inv(s) && Enabled(s, step) && NobodyLeftBehind(s)
    ensures NobodyLeftBehind(Next(s, step)) <==> !Leaves(s, step)
  {
    hide EachOnce, PublishedConsistent, GoodAnswers, Due, Later, Arrived;
    if step.ReadsArrive? {
      LeftByReadsExactly(s, step);
    } else if s.waiters != [] {
      assert s.waiters[0] in s.waiters;
    }
  }

  lemma DelayedByReadsExactly(s: State, step: Step)
    requires Inv(s) && Enabled(s, step) && NobodyDelayed(s) && step.ReadsArrive?
    ensures NobodyDelayed(Next(s, step)) <==> !Delays(s, step)
  {
    hide EachOnce, PublishedConsistent, GoodAnswers, Due, Later;
    if s.waiters != [] {
      assert s.waiters[0] in s.waiters;
    }
  }

  lemma DelayedExactly(s: State, step: Step)
    requires Inv(s) && Enabled(s, step) && NobodyDelayed(s)
    ensures NobodyDelayed(Next(s, step)) <==> !Delays(s, step)
  {
    hide EachOnce, PublishedConsistent, GoodAnswers, Due, Later, Arrived;
    if step.ReadsArrive? {
      DelayedByReadsExactly(s, step);
    } else if s.waiters != [] {
      assert s.waiters[0] in s.waiters;
    }
  }

  function After(s: State, step: Step): State {
    if Enabled(s, step) then Next(s, step) else s
  }

  predicate NoneLeaves(s: State, steps: seq<Step>)
    decreases |steps|
  {
    steps == [] || (!(Enabled(s, steps[0]) && Leaves(s, steps[0])) && NoneLeaves(After(s, steps[0]), steps[1..]))
  }

  predicate NoneDelays(s: State, steps: seq<Step>)
    decreases |steps|
  {
    steps == [] || (!(Enabled(s, steps[0]) && Delays(s, steps[0])) && NoneDelays(After(s, steps[0]), steps[1..]))
  }

  ghost predicate NeverLeftBehind(s: State, steps: seq<Step>)
    decreases |steps|
  {
    NobodyLeftBehind(s) && (steps == [] || NeverLeftBehind(After(s, steps[0]), steps[1..]))
  }

  ghost predicate NeverDelayed(s: State, steps: seq<Step>)
    decreases |steps|
  {
    NobodyDelayed(s) && (steps == [] || NeverDelayed(After(s, steps[0]), steps[1..]))
  }

  lemma {:induction false} NeverLeftBehindIff(s: State, steps: seq<Step>)
    requires Inv(s) && NobodyLeftBehind(s)
    ensures NeverLeftBehind(s, steps) <==> NoneLeaves(s, steps)
    decreases |steps|
  {
    hide Inv, Next, Enabled, Leaves, NobodyLeftBehind;
    if steps != [] {
      if Enabled(s, steps[0]) {
        StepKeeps(s, steps[0]);
        LeftExactly(s, steps[0]);
      }
      if NobodyLeftBehind(After(s, steps[0])) {
        NeverLeftBehindIff(After(s, steps[0]), steps[1..]);
      }
    }
  }

  lemma {:induction false} NeverDelayedIff(s: State, steps: seq<Step>)
    requires Inv(s) && NobodyDelayed(s)
    ensures NeverDelayed(s, steps) <==> NoneDelays(s, steps)
    decreases |steps|
  {
    hide Inv, Next, Enabled, Delays, NobodyDelayed;
    if steps != [] {
      if Enabled(s, steps[0]) {
        StepKeeps(s, steps[0]);
        DelayedExactly(s, steps[0]);
      }
      if NobodyDelayed(After(s, steps[0])) {
        NeverDelayedIff(After(s, steps[0]), steps[1..]);
      }
    }
  }

  lemma {:induction false} NeverLeftBehindEnds(s: State, steps: seq<Step>)
    requires NeverLeftBehind(s, steps)
    ensures NobodyLeftBehind(Run(s, steps))
    decreases |steps|
  {
    hide Next, Enabled, NobodyLeftBehind;
    if steps != [] {
      NeverLeftBehindEnds(After(s, steps[0]), steps[1..]);
    }
  }

  /**
   Over a run nobody is ever left waiting for a completed generation, except while a throw is handled,
   if and only if the sources never disagree before the first snapshot; and then nobody waits once
   nothing is in flight.
   */
  lemma RunsLeaveNobodyIff(steps: seq<Step>)
    ensures NeverLeftBehind(INITIAL, steps) <==> NoneLeaves(INITIAL, steps)
    ensures NoneLeaves(INITIAL, steps) && Run(INITIAL, steps).phase == NoLoop ==> Run(INITIAL, steps).waiters == []
  {
    InitialHolds();
    NeverLeftBehindIff(INITIAL, steps);
    Reachable(steps);
    if NoneLeaves(INITIAL, steps) {
      NeverLeftBehindEnds(INITIAL, steps);
      var s := Run(INITIAL, steps);
      hide Run, EachOnce, PublishedConsistent, GoodAnswers;
      if s.waiters != [] {
        assert s.waiters[0] in s.waiters;
      }
    }
  }

  /**
   Over a run nobody is ever left waiting for a completed generation once there is a snapshot, if and
   only if no error listener throws when a round with somebody waiting fails.
   */
  lemma RunsDelayNobodyIff(steps: seq<Step>)
    ensures NeverDelayed(INITIAL, steps) <==> NoneDelays(INITIAL, steps)
  {
    InitialHolds();
    NeverDelayedIff(INITIAL, steps);
  }

  lemma HasPublishedStep(s: State, step: Step)
    requires s.snapshot.None? ==> s.published == []
    ensures Enabled(s, step) && Next(s, step).snapshot.None? ==> Next(s, step).published == []
  {
    hide Due, Later;
  }

  lemma {:induction false} HasPublished(s: State, steps: seq<Step>)
    requires s.snapshot.None? ==> s.published == []
    ensures Run(s, steps).snapshot.None? ==> Run(s, steps).published == []
    decreases |steps|
  {
    if steps != [] {
      HasPublishedStep(s, steps[0]);
      hide Next, Enabled;
      HasPublished(if Enabled(s, steps[0]) then Next(s, steps[0]) else s, steps[1..]);
    }
  }

  /** And that exception is real: reads that disagree before the first snapshot leave their request waiting. */
  lemma FirstReadsDisagree(config: Config, account: Account)
    requires account.basedOn != config.builtinRevision
    ensures var s := Run(INITIAL, [Start, ReadsArrive(config, account, Publishes, false), Test, Finish]);
      s.phase == NoLoop && s.completed == s.requested == 1 && s.waiters == [Waiter(1, 0)]
  {
    var arrive := ReadsArrive(config, account, Publishes, false);
    var s1 := Next(INITIAL, Start);
    var s2 := Next(s1, arrive);
    var s3 := Next(s2, Test);
    assert s1.waiters == [Waiter(1, 0)];
    assert [Start, arrive, Test, Finish] == [Start] + [arrive, Test, Finish];
    assert [arrive, Test, Finish] == [arrive] + [Test, Finish];
    assert [Test, Finish] == [Test] + [Finish] && [Finish] == [Finish] + [];
    hide Run;
    RunFirst(INITIAL, Start, [arrive, Test, Finish]);
    RunFirst(s1, arrive, [Test, Finish]);
    RunFirst(s2, Test, [Finish]);
    RunFirst(s3, Finish, []);
    RunNone(Next(s3, Finish));
  }

  /** And so is the other: an error listener that throws leaves the rejection to the finish handler. */
  lemma ThrowingListenerDelays(config: Config, account: Account)
    requires account.basedOn == config.builtinRevision
    ensures var s := Run(INITIAL, [Start, ReadsArrive(config, account, Publishes, false), Refresh, Test, ReadsFail(true)]);
      && s.snapshot.Some? && s.phase == Ended(true) && s.completed == 2 && s.waiters == [Waiter(2, 1)]
      && Finished(s).waiters == []
  {
    var arrive, fail := ReadsArrive(config, account, Publishes, false), ReadsFail(true);
    var s1 := Next(INITIAL, Start);
    assert s1.waiters == [Waiter(1, 0)];
    var s2 := Next(s1, arrive);
    assert s2.waiters == [] && s2.phase == AtTest;
    var s3 := Next(s2, Refresh);
    assert s3.waiters == [Waiter(2, 1)];
    var s4 := Next(s3, Test);
    var s5 := Next(s4, fail);
    hide Run;
    RunFive(INITIAL, Start, s1, arrive, s2, Refresh, s3, Test, s4, fail, s5);
  }

  lemma RunFive(s0: State, a: Step, s1: State, b: Step, s2: State, c: Step, s3: State, d: Step, s4: State, e: Step, s5: State)
    requires Enabled(s0, a) && s1 == Next(s0, a) && Enabled(s1, b) && s2 == Next(s1, b) && Enabled(s2, c) && s3 == Next(s2, c)
    requires Enabled(s3, d) && s4 == Next(s3, d) && Enabled(s4, e) && s5 == Next(s4, e)
    ensures Run(s0, [a, b, c, d, e]) == s5
  {
    hide Run, Next, Enabled;
    assert [a, b, c, d, e] == [a] + [b, c, d, e] && [b, c, d, e] == [b] + [c, d, e];
    assert [c, d, e] == [c] + [d, e] && [d, e] == [d] + [e] && [e] == [e] + [];
    RunFirst(s0, a, [b, c, d, e]);
    RunFirst(s1, b, [c, d, e]);
    RunFirst(s2, c, [d, e]);
    RunFirst(s3, d, [e]);
    RunFirst(s4, e, []);
    RunNone(s5);
  }

  lemma RunFirst(s: State, first: Step, rest: seq<Step>)
    requires Enabled(s, first)
    ensures Run(s, [first] + rest) == Run(Next(s, first), rest)
  {
    assert ([first] + rest)[1..] == rest;
  }

  lemma RunNone(s: State)
    ensures Run(s, []) == s
  {
  }
}
