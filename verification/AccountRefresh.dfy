/**
 `AccountProviderService`: rounds that resolve the account overlay, drop what was overtaken, and
 start fail-closed.

 A round has three awaits: the first reading of the config, the resolver, and a second reading. Each
 stretch in between is one step; requests, config changes and `dispose` come at any time. Any await
 may fail and listeners may throw.
 */
module AccountRefresh {
  import opened RefreshWaiters
  import opened Prelude

  /** A config snapshot: its Built-in revision, and the overlay that denies every account on it. */
  datatype Config = Config(builtinRevision: string, closed: string)

  /** Providers and states, as one content; the snapshot's revision is the two fields together. */
  datatype Account = Account(basedOn: string, content: string)

  datatype Phase =
    | NoLoop
    | AtTest
    | Reading(generation: nat, round: nat)
    | Resolving(generation: nat, round: nat, config: Config)
    | Rereading(generation: nat, round: nat, config: Config, content: string)
    | Ended

  /** A snapshot put out: when it was, the requests made by then, and what the second reading found. */
  datatype Publication =
    | Normal(snapshot: Account, generation: nat, requestedByThen: nat, reread: Config)
    | FailClosed(snapshot: Account)

  datatype State = State(
    started: bool,
    disposed: bool,
    requested: nat,
    pendingReasons: set<string>,
    waiters: seq<Waiter>,
    snapshot: Option<Account>,
    latest: Option<Account>,
    phase: Phase,
    rounds: nat,
    answers: seq<Answer<Account, Config>>,
    published: seq<Publication>)

  const INITIAL := State(false, false, 0, {}, [], None, None, NoLoop, 0, [], [])

  datatype Step =
    | Read
    | Refresh(reason: string)
    | ConfigChanged(reason: string)
    | Dispose
    | Test
    | ConfigArrives(config: Config)
    | Resolves(content: string, errorListenerThrows: bool)
    | RereadArrives(current: Config, changeListenerThrows: bool, errorListenerThrows: bool)
    | AwaitFails(errorListenerThrows: bool)
    | Finish

  // -------------------------------------------------------------------------
  // The steps
  // -------------------------------------------------------------------------

  predicate InRound(s: State) {
    s.phase.Reading? || s.phase.Resolving? || s.phase.Rereading?
  }

  function ResolveDue(s: State, generation: nat, snapshot: Account, round: nat, config: Config): State {
    s.(waiters := Later(s.waiters, generation),
       answers := s.answers + Resolutions(Due(s.waiters, generation), snapshot, round, config))
  }

  function RejectDue(s: State, generation: nat): State {
    s.(waiters := Later(s.waiters, generation),
       answers := s.answers + Rejections(Due(s.waiters, generation)))
  }

  /** The loop condition and, if it holds, the start of a round. */
  function TestLoop(s: State): State {
    if s.pendingReasons != {}
    then s.(phase := Reading(s.requested, s.rounds), rounds := s.rounds + 1, pendingReasons := {})
    else s.(phase := Ended)
  }

  function StartLoop(s: State): State {
    TestLoop(s.(latest := s.snapshot))
  }

  function Request(s: State, reason: string): State {
    var asked := s.(requested := s.requested + 1,
                    pendingReasons := s.pendingReasons + {reason},
                    waiters := s.waiters + [Waiter(s.requested + 1, s.rounds)]);
    if s.phase.NoLoop? then StartLoop(asked) else asked
  }

  function Disposed(s: State): State {
    if s.disposed then s
    else s.(disposed := true, waiters := [], answers := s.answers + Rejections(s.waiters))
  }

  function ClosedFor(config: Config): Account {
    Account(config.builtinRevision, config.closed)
  }

  /** The round's catch block. `dispose` has removed the error listeners. */
  function Caught(s: State, config: Option<Config>, errorListenerThrows: bool): State
    requires InRound(s)
  {
    var generation, round := s.phase.generation, s.phase.round;
    if errorListenerThrows && !s.disposed then s.(phase := Ended)
    else if s.latest.None? && config.Some? then
      var closed := ClosedFor(config.value);
      ResolveDue(s.(latest := Some(closed), snapshot := Some(closed), published := s.published + [FailClosed(closed)]),
                 generation, closed, round, config.value).(phase := AtTest)
    else RejectDue(s, generation).(phase := Ended)
  }

  function ConfigOf(s: State): Option<Config> {
    if s.phase.Resolving? || s.phase.Rereading? then Some(s.phase.config) else None
  }

  function Reread(s: State, current: Config, changeListenerThrows: bool, errorListenerThrows: bool): State
    requires s.phase.Rereading?
  {
    var Rereading(generation, round, config, content) := s.phase;
    if s.disposed then Caught(s, Some(config), errorListenerThrows)
    else if s.pendingReasons != {} || current.builtinRevision != config.builtinRevision then
      s.(pendingReasons := s.pendingReasons + {"superseded-resolution"}, phase := AtTest)
    else
      var next := Account(config.builtinRevision, content);
      if s.latest == Some(next) then ResolveDue(s, generation, next, round, config).(phase := AtTest)
      else
        var shown := ResolveDue(s.(latest := Some(next), snapshot := Some(next),
                                   published := s.published + [Normal(next, generation, s.requested, current)]),
                                generation, next, round, config);
        if s.latest.Some? && changeListenerThrows then Caught(shown, Some(config), errorListenerThrows)
        else shown.(phase := AtTest)
  }

  function Finished(s: State): State {
    var idle := s.(phase := NoLoop);
    if s.disposed || s.pendingReasons == {} then idle else StartLoop(idle)
  }

  predicate Enabled(s: State, step: Step) {
    match step
    case Read => !s.disposed
    case Refresh(_) => !s.disposed
    case ConfigChanged(_) => s.started && !s.disposed
    case Dispose => true
    case Test => s.phase.AtTest?
    case ConfigArrives(_) => s.phase.Reading?
    case Resolves(_, _) => s.phase.Resolving?
    case RereadArrives(_, _, _) => s.phase.Rereading?
    case AwaitFails(_) => InRound(s)
    case Finish => s.phase.Ended?
  }

  function Next(s: State, step: Step): State
    requires Enabled(s, step)
  {
    match step
    case Read =>
      var begun := s.(started := true);
      if s.snapshot.Some? || !s.phase.NoLoop? then begun else Request(begun, "start")
    case Refresh(reason) => Request(s.(started := true), reason)
    case ConfigChanged(reason) => Request(s, reason)
    case Dispose => Disposed(s)
    case Test => TestLoop(s)
    case ConfigArrives(config) => s.(phase := Resolving(s.phase.generation, s.phase.round, config))
    case Resolves(content, throws) =>
      if s.disposed then Caught(s, Some(s.phase.config), throws)
      else s.(phase := Rereading(s.phase.generation, s.phase.round, s.phase.config, content))
    case RereadArrives(current, changeThrows, errorThrows) => Reread(s, current, changeThrows, errorThrows)
    case AwaitFails(throws) => Caught(s, ConfigOf(s), throws)
    case Finish => Finished(s)
  }

  function Run(s: State, steps: seq<Step>): State
    decreases |steps|
  {
    if steps == [] then s
    else Run(if Enabled(s, steps[0]) then Next(s, steps[0]) else s, steps[1..])
  }

  // -------------------------------------------------------------------------
  // The invariant
  // -------------------------------------------------------------------------

  predicate EachOnce(s: State) {
    Waiting(s.waiters) + Answered(s.answers) == UpTo(s.requested)
  }

  /** A round in progress began after every request it will answer, and after it nothing was asked unless pending. */
  predicate RoundCovers(s: State) {
    && (forall w :: w in s.waiters ==> 1 <= w.generation <= s.requested && w.roundsBefore <= s.rounds)
    && (s.disposed ==> s.waiters == [])
    && (!s.phase.NoLoop? ==> s.latest == s.snapshot)
    && (s.pendingReasons != {} && !s.disposed ==> !s.phase.NoLoop?)
    && (InRound(s) ==>
          && s.phase.generation <= s.requested && s.phase.round < s.rounds
          && (s.pendingReasons == {} ==> s.phase.generation == s.requested)
          && forall w :: w in s.waiters && w.generation <= s.phase.generation ==> w.roundsBefore <= s.phase.round)
  }

  /** A resolution comes from a round begun after the request, on the Built-in revision that round read. */
  predicate GoodAnswer(answer: Answer<Account, Config>) {
    answer.Resolved? ==>
      answer.waiter.roundsBefore <= answer.round && answer.snapshot.basedOn == answer.basis.builtinRevision
  }

  /** What is published normally answers the latest request, on the revision the second reading confirmed. */
  predicate NotOvertaken(publication: Publication) {
    publication.Normal? ==>
      && publication.generation == publication.requestedByThen
      && publication.reread.builtinRevision == publication.snapshot.basedOn
  }

  predicate GoodHistory(s: State) {
    && (forall i :: 0 <= i < |s.answers| ==> GoodAnswer(s.answers[i]))
    && (forall i :: 0 <= i < |s.published| ==> NotOvertaken(s.published[i]))
  }

  predicate Inv(s: State) {
    EachOnce(s) && RoundCovers(s) && GoodHistory(s)
  }

  /** Somebody is going to answer every waiter: the round in progress, or one that is bound to start. */
  predicate NobodyOrphaned(s: State) {
    s.pendingReasons == {} && !InRound(s) ==> s.waiters == []
  }

  /** The one way to lose waiters: an error is caught, an error listener throws, and nothing newer is pending. */
  predicate Orphans(s: State, step: Step) {
    && InRound(s) && !s.disposed && s.pendingReasons == {} && s.waiters != []
    && step.AwaitFails? && step.errorListenerThrows
  }

  // -------------------------------------------------------------------------
  // Every step keeps the invariant
  // -------------------------------------------------------------------------

  lemma ResolveKeeps(s: State, generation: nat, snapshot: Account, round: nat, config: Config)
    requires EachOnce(s) && GoodHistory(s) && snapshot.basedOn == config.builtinRevision
    requires forall w :: w in s.waiters && w.generation <= generation ==> w.roundsBefore <= round
    ensures var s' := ResolveDue(s, generation, snapshot, round, config); EachOnce(s') && GoodHistory(s')
  {
    var due := Due(s.waiters, generation);
    DueAndLater(s.waiters, generation);
    ResolutionsAnswer(due, snapshot, round, config);
    AnsweredConcat(s.answers, Resolutions(due, snapshot, round, config));
    hide Due, Later, Waiting, Answered, UpTo;
  }

  lemma RejectKeeps(s: State, generation: nat)
    requires EachOnce(s) && GoodHistory(s)
    ensures var s' := RejectDue(s, generation); EachOnce(s') && GoodHistory(s')
  {
    var due := Due(s.waiters, generation);
    DueAndLater(s.waiters, generation);
    RejectionsAnswer<Account, Config>(due);
    AnsweredConcat(s.answers, Rejections(due));
    hide Due, Later, Waiting, Answered, UpTo;
  }

  lemma PublishKeeps(s: State, s': State, publication: Publication)
    requires EachOnce(s) && GoodHistory(s) && NotOvertaken(publication)
    requires s' == s.(latest := s'.latest, snapshot := s'.snapshot, published := s.published + [publication])
    ensures EachOnce(s') && GoodHistory(s')
  {
    hide NotOvertaken, GoodAnswer, Waiting, Answered, UpTo;
  }

  lemma RequestKeeps(s: State, reason: string)
    requires Inv(s) && !s.disposed
    ensures Inv(Request(s, reason))
  {
    hide Waiting, Answered, UpTo, GoodAnswer, NotOvertaken;
    OneMore(s.waiters, s.answers, s.requested, s.rounds);
  }

  lemma DisposeKeeps(s: State)
    requires Inv(s)
    ensures Inv(Disposed(s))
  {
    hide Waiting, Answered, UpTo, NotOvertaken;
    AllRejected(s.waiters, s.answers, s.requested);
  }

  /** Between rounds, with no more waiters than before. */
  lemma FewerWaiters(s: State, s': State)
    requires RoundCovers(s)
    requires |s'.waiters| <= |s.waiters| && forall w :: w in s'.waiters ==> w in s.waiters
    requires s'.requested == s.requested && s'.rounds == s.rounds && s'.disposed == s.disposed
    requires (s'.phase.AtTest? || s'.phase.Ended?) && s'.latest == s'.snapshot
    ensures RoundCovers(s')
  {
  }

  /** Answering the due waiters, then leaving the round. */
  lemma ResolvedLeaves(s: State, generation: nat, snapshot: Account, round: nat, config: Config, phase: Phase)
    requires RoundCovers(s) && EachOnce(s) && GoodHistory(s) && s.latest == s.snapshot
    requires (phase.AtTest? || phase.Ended?) && snapshot.basedOn == config.builtinRevision
    requires forall w :: w in s.waiters && w.generation <= generation ==> w.roundsBefore <= round
    ensures Inv(ResolveDue(s, generation, snapshot, round, config).(phase := phase))
  {
    hide EachOnce, GoodHistory, RoundCovers, Due, Later;
    ResolveKeeps(s, generation, snapshot, round, config);
    var told := ResolveDue(s, generation, snapshot, round, config);
    SamePast(told, told.(phase := phase));
    FewerWaiters(s, told.(phase := phase));
  }

  lemma RejectedLeaves(s: State, generation: nat)
    requires RoundCovers(s) && EachOnce(s) && GoodHistory(s) && s.latest == s.snapshot
    ensures Inv(RejectDue(s, generation).(phase := Ended))
  {
    hide EachOnce, GoodHistory, RoundCovers, Due, Later;
    RejectKeeps(s, generation);
    var told := RejectDue(s, generation);
    SamePast(told, told.(phase := Ended));
    FewerWaiters(s, told.(phase := Ended));
  }

  lemma Putting(s: State, s': State, next: Account, publication: Publication)
    requires Inv(s) && InRound(s) && NotOvertaken(publication)
    requires s' == s.(latest := Some(next), snapshot := Some(next), published := s.published + [publication])
    ensures RoundCovers(s') && EachOnce(s') && GoodHistory(s')
  {
    hide EachOnce, GoodHistory;
    PublishKeeps(s, s', publication);
  }

  lemma CaughtKeeps(s: State, config: Option<Config>, throws: bool)
    requires Inv(s) && InRound(s)
    ensures Inv(Caught(s, config, throws))
  {
    var generation, round := s.phase.generation, s.phase.round;
    hide EachOnce, GoodHistory, ResolveDue, RejectDue;
    if throws && !s.disposed {
      SamePast(s, s.(phase := Ended));
    } else if s.latest.None? && config.Some? {
      var closed := ClosedFor(config.value);
      var put := s.(latest := Some(closed), snapshot := Some(closed), published := s.published + [FailClosed(closed)]);
      Putting(s, put, closed, FailClosed(closed));
      ResolvedLeaves(put, generation, closed, round, config.value, AtTest);
    } else {
      RejectedLeaves(s, generation);
    }
  }

  lemma SamePast(s: State, s': State)
    requires s'.waiters == s.waiters && s'.answers == s.answers && s'.requested == s.requested && s'.published == s.published
    ensures EachOnce(s) ==> EachOnce(s')
    ensures GoodHistory(s) ==> GoodHistory(s')
  {
  }

  lemma ResolveStaysInRound(s: State, generation: nat, snapshot: Account, round: nat, config: Config)
    requires RoundCovers(s) && EachOnce(s) && GoodHistory(s) && snapshot.basedOn == config.builtinRevision
    requires forall w :: w in s.waiters && w.generation <= generation ==> w.roundsBefore <= round
    ensures Inv(ResolveDue(s, generation, snapshot, round, config))
  {
    hide EachOnce, GoodHistory, Due, Later;
    ResolveKeeps(s, generation, snapshot, round, config);
  }

  lemma RereadKeeps(s: State, current: Config, changeThrows: bool, errorThrows: bool)
    requires Inv(s) && s.phase.Rereading?
    ensures Inv(Reread(s, current, changeThrows, errorThrows))
  {
    var Rereading(generation, round, config, content) := s.phase;
    hide EachOnce, GoodHistory, ResolveDue, Caught;
    if s.disposed {
      CaughtKeeps(s, Some(config), errorThrows);
    } else if s.pendingReasons != {} || current.builtinRevision != config.builtinRevision {
      SamePast(s, s.(pendingReasons := s.pendingReasons + {"superseded-resolution"}, phase := AtTest));
    } else {
      var next := Account(config.builtinRevision, content);
      if s.latest == Some(next) {
        ResolvedLeaves(s, generation, next, round, config, AtTest);
      } else {
        var publication := Normal(next, generation, s.requested, current);
        var put := s.(latest := Some(next), snapshot := Some(next), published := s.published + [publication]);
        Putting(s, put, next, publication);
        if s.latest.Some? && changeThrows {
          ResolveStaysInRound(put, generation, next, round, config);
          assert InRound(ResolveDue(put, generation, next, round, config)) by { ResolvePhase(put, generation, next, round, config); }
          CaughtKeeps(ResolveDue(put, generation, next, round, config), Some(config), errorThrows);
        } else {
          ResolvedLeaves(put, generation, next, round, config, AtTest);
        }
      }
    }
  }

  lemma ResolvePhase(s: State, generation: nat, snapshot: Account, round: nat, config: Config)
    ensures ResolveDue(s, generation, snapshot, round, config).phase == s.phase
  {
  }

  lemma StepKeeps(s: State, step: Step)
    requires Inv(s) && Enabled(s, step)
    ensures Inv(Next(s, step))
  {
    hide EachOnce, GoodHistory, Request, Caught, Reread, Disposed;
    match step
    case Read =>
      SamePast(s, s.(started := true));
      RequestKeeps(s.(started := true), "start");
    case Refresh(reason) =>
      SamePast(s, s.(started := true));
      RequestKeeps(s.(started := true), reason);
    case ConfigChanged(reason) => RequestKeeps(s, reason);
    case Dispose => DisposeKeeps(s);
    case Resolves(_, throws) =>
      if s.disposed {
        CaughtKeeps(s, Some(s.phase.config), throws);
      } else {
        SamePast(s, Next(s, step));
      }
    case RereadArrives(current, changeThrows, errorThrows) => RereadKeeps(s, current, changeThrows, errorThrows);
    case AwaitFails(throws) => CaughtKeeps(s, ConfigOf(s), throws);
    case _ => SamePast(s, Next(s, step));
  }

  lemma {:induction false} RunKeeps(s: State, steps: seq<Step>)
    requires Inv(s)
    ensures Inv(Run(s, steps))
    decreases |steps|
  {
    if steps != [] {
      hide Inv, Next;
      if Enabled(s, steps[0]) {
        StepKeeps(s, steps[0]);
        RunKeeps(Next(s, steps[0]), steps[1..]);
      } else {
        RunKeeps(s, steps[1..]);
      }
    }
  }

  // -------------------------------------------------------------------------
  // Guarantees over every run
  // -------------------------------------------------------------------------

  lemma Reachable(steps: seq<Step>)
    ensures Inv(Run(INITIAL, steps))
  {
    assert Waiting([]) == multiset{} && Answered<Account, Config>([]) == multiset{};
    RunKeeps(INITIAL, steps);
  }

  /**
   Whatever is interleaved with what: every request is waiting or was answered, exactly once; a
   resolution came from a round begun after the request, on the Built-in revision that round read;
   and what was published normally was overtaken neither by a request nor by a Built-in revision.
   */
  lemma RefreshGuarantees(steps: seq<Step>)
    ensures var s := Run(INITIAL, steps);
      && (forall g: nat :: Waiting(s.waiters)[g] + Answered(s.answers)[g] == if 1 <= g <= s.requested then 1 else 0)
      && (forall i :: 0 <= i < |s.answers| ==> GoodAnswer(s.answers[i]))
      && (forall i :: 0 <= i < |s.published| ==> NotOvertaken(s.published[i]))
      && (s.pendingReasons != {} && !s.disposed ==> !s.phase.NoLoop?)
  {
    var s := Run(INITIAL, steps);
    Reachable(steps);
    forall g: nat
      ensures Waiting(s.waiters)[g] + Answered(s.answers)[g] == if 1 <= g <= s.requested then 1 else 0
    {
      UpToCounts(s.requested, g);
      assert (Waiting(s.waiters) + Answered(s.answers))[g] == UpTo(s.requested)[g];
    }
  }

  lemma {:induction false} NobodyDue(waiters: seq<Waiter>, generation: nat)
    requires forall w :: w in waiters ==> w.generation <= generation
    ensures Later(waiters, generation) == []
  {
    if waiters != [] {
      NobodyDue(waiters[1..], generation);
    }
  }

  /** A normal publication answers everybody who is waiting. */
  lemma PublicationAnswersAll(s: State, current: Config, changeThrows: bool, errorThrows: bool)
    requires Inv(s) && s.phase.Rereading? && !s.disposed
    requires s.pendingReasons == {} && current.builtinRevision == s.phase.config.builtinRevision
    ensures var s' := Reread(s, current, changeThrows, errorThrows);
      && s'.waiters == []
      && s'.latest == Some(Account(s.phase.config.builtinRevision, s.phase.content))
  {
    hide EachOnce, GoodHistory, Due, Later;
    NobodyDue(s.waiters, s.phase.generation);
    NobodyDue([], s.phase.generation);
  }

  /** A step leaves somebody with no one to answer them exactly when it is the orphaning one. */
  lemma OrphanedExactly(s: State, step: Step)
    requires Inv(s) && NobodyOrphaned(s) && Enabled(s, step)
    ensures NobodyOrphaned(Next(s, step)) <==> !Orphans(s, step)
  {
    hide EachOnce, GoodHistory, Due, Later;
    NobodyDue([], s.requested);
    if InRound(s) && s.pendingReasons == {} {
      NobodyDue(s.waiters, s.phase.generation);
    }
    match step
    case RereadArrives(current, changeThrows, errorThrows) =>
      if !s.disposed && s.pendingReasons == {} && current.builtinRevision == s.phase.config.builtinRevision {
        PublicationAnswersAll(s, current, changeThrows, errorThrows);
      }
    case _ =>
  }

  /** No step of a run is the orphaning one. */
  predicate Orderly(s: State, steps: seq<Step>)
    decreases |steps|
  {
    steps != [] ==>
      && (Enabled(s, steps[0]) ==> !Orphans(s, steps[0]))
      && Orderly(if Enabled(s, steps[0]) then Next(s, steps[0]) else s, steps[1..])
  }

  lemma {:induction false} OrderlyKeeps(s: State, steps: seq<Step>)
    requires Inv(s) && NobodyOrphaned(s) && Orderly(s, steps)
    ensures NobodyOrphaned(Run(s, steps))
    decreases |steps|
  {
    if steps != [] {
      hide Inv, Next, Orphans, NobodyOrphaned;
      if Enabled(s, steps[0]) {
        StepKeeps(s, steps[0]);
        OrphanedExactly(s, steps[0]);
        OrderlyKeeps(Next(s, steps[0]), steps[1..]);
      } else {
        OrderlyKeeps(s, steps[1..]);
      }
    }
  }

  /** As long as no step is the orphaning one, nobody waits once nothing is in flight. */
  lemma IdleMeansAnswered(steps: seq<Step>)
    requires Orderly(INITIAL, steps)
    ensures var s := Run(INITIAL, steps);
      && NobodyOrphaned(s)
      && (s.phase.NoLoop? ==> s.waiters == [])
  {
    Reachable([]);
    Reachable(steps);
    OrderlyKeeps(INITIAL, steps);
  }

  ghost predicate NeverOrphaned(s: State, steps: seq<Step>)
    decreases |steps|
  {
    NobodyOrphaned(s)
    && (steps == [] || NeverOrphaned(if Enabled(s, steps[0]) then Next(s, steps[0]) else s, steps[1..]))
  }

  lemma {:induction false} NeverOrphanedIff(s: State, steps: seq<Step>)
    requires Inv(s) && NobodyOrphaned(s)
    ensures NeverOrphaned(s, steps) <==> Orderly(s, steps)
    decreases |steps|
  {
    hide Inv, Next, Enabled, Orphans, NobodyOrphaned;
    if steps != [] {
      if Enabled(s, steps[0]) {
        StepKeeps(s, steps[0]);
        OrphanedExactly(s, steps[0]);
        if !Orphans(s, steps[0]) {
          NeverOrphanedIff(Next(s, steps[0]), steps[1..]);
        }
      } else {
        NeverOrphanedIff(s, steps[1..]);
      }
    }
  }

  /** Over a run everybody always has someone to answer them, if and only if no step is the orphaning one. */
  lemma RunsOrphanNobodyIff(steps: seq<Step>)
    ensures NeverOrphaned(INITIAL, steps) <==> Orderly(INITIAL, steps)
  {
    Reachable([]);
    NeverOrphanedIff(INITIAL, steps);
  }

  /** The orphaning step is real: the first reading fails and an error listener throws. */
  lemma ThrowingListenerOrphans()
    ensures var s := Run(INITIAL, [Read, AwaitFails(true), Finish]);
      s.phase.NoLoop? && !s.disposed && s.pendingReasons == {} && s.waiters == [Waiter(1, 0)]
  {
    var s1 := Next(INITIAL, Read);
    assert s1.waiters == [Waiter(1, 0)] && "start" in {"start"};
    var s2 := Next(s1, AwaitFails(true));
    assert [Read, AwaitFails(true), Finish] == [Read] + [AwaitFails(true), Finish];
    assert [AwaitFails(true), Finish] == [AwaitFails(true)] + [Finish] && [Finish] == [Finish] + [];
    hide Run;
    RunFirst(INITIAL, Read, [AwaitFails(true), Finish]);
    RunFirst(s1, AwaitFails(true), [Finish]);
    RunFirst(s2, Finish, []);
    RunNone(Next(s2, Finish));
  }

  lemma RunFirst(s: State, first: Step, rest: seq<Step>)
    requires Enabled(s, first)
    ensures Run(s, [first] + rest) == Run(Next(s, first), rest)
  {
    assert ([first] + rest)[1..] == rest;
  }

  lemma RunNone(s: State)
    ensures Run(s, []) == s
  {
  }
}
