/** Waiters for a refresh, shared by the two coalescing services: who is due, and who was answered. */
module RefreshWaiters {
  import opened Prelude

  /** A pending promise: its generation and, as history, how many rounds of reads had begun before it. */
  datatype Waiter = Waiter(generation: nat, roundsBefore: nat)

  /** How a promise was settled; a resolution also records the round and what that round had read. */
  datatype Answer<+S, +B> =
    | Resolved(waiter: Waiter, snapshot: S, round: nat, basis: B)
    | Rejected(waiter: Waiter)

  function Due(waiters: seq<Waiter>, generation: nat): (due: seq<Waiter>)
    ensures |due| <= |waiters|
    ensures forall w :: w in due ==> w in waiters && w.generation <= generation
  {
    if waiters == [] then []
    else (if waiters[0].generation <= generation then [waiters[0]] else []) + Due(waiters[1..], generation)
  }

  function Later(waiters: seq<Waiter>, generation: nat): (later: seq<Waiter>)
    ensures |later| <= |waiters|
    ensures forall w :: w in later ==> w in waiters && w.generation > generation
  {
    if waiters == [] then []
    else (if waiters[0].generation > generation then [waiters[0]] else []) + Later(waiters[1..], generation)
  }

  function Resolutions<S, B>(due: seq<Waiter>, snapshot: S, round: nat, basis: B): (answers: seq<Answer<S, B>>)
    ensures |answers| == |due|
    ensures forall i :: 0 <= i < |due| ==> answers[i] == Resolved(due[i], snapshot, round, basis)
  {
    if due == [] then [] else [Resolved(due[0], snapshot, round, basis)] + Resolutions(due[1..], snapshot, round, basis)
  }

  function Rejections<S, B>(due: seq<Waiter>): (answers: seq<Answer<S, B>>)
    ensures |answers| == |due|
    ensures forall i :: 0 <= i < |due| ==> answers[i] == Rejected(due[i])
  {
    if due == [] then [] else [Rejected(due[0])] + Rejections(due[1..])
  }

  // -------------------------------------------------------------------------
  // Each request is waiting or answered, once
  // -------------------------------------------------------------------------

  function Waiting(waiters: seq<Waiter>): multiset<nat> {
    if waiters == [] then multiset{} else multiset{waiters[0].generation} + Waiting(waiters[1..])
  }

  function Answered<S, B>(answers: seq<Answer<S, B>>): multiset<nat> {
    if answers == [] then multiset{} else multiset{answers[0].waiter.generation} + Answered(answers[1..])
  }

  /** The generations 1..n, each once. */
  function UpTo(n: nat): multiset<nat> {
    if n == 0 then multiset{} else UpTo(n - 1) + multiset{n}
  }

  lemma {:induction false} UpToCounts(n: nat, k: nat)
    ensures UpTo(n)[k] == if 1 <= k <= n then 1 else 0
  {
    if n > 0 { UpToCounts(n - 1, k); }
  }

  lemma {:induction false} WaitingConcat(left: seq<Waiter>, right: seq<Waiter>)
    ensures Waiting(left + right) == Waiting(left) + Waiting(right)
  {
    if left == [] {
      assert left + right == right;
    } else {
      assert (left + right)[1..] == left[1..] + right && (left + right)[0] == left[0];
      WaitingConcat(left[1..], right);
    }
  }

  lemma {:induction false} AnsweredConcat<S, B>(left: seq<Answer<S, B>>, right: seq<Answer<S, B>>)
    ensures Answered(left + right) == Answered(left) + Answered(right)
  {
    if left == [] {
      assert left + right == right;
    } else {
      assert (left + right)[1..] == left[1..] + right && (left + right)[0] == left[0];
      AnsweredConcat(left[1..], right);
    }
  }

  lemma {:induction false} DueAndLater(waiters: seq<Waiter>, generation: nat)
    ensures Waiting(waiters) == Waiting(Due(waiters, generation)) + Waiting(Later(waiters, generation))
  {
    if waiters != [] {
      var first, rest := waiters[0], waiters[1..];
      DueAndLater(rest, generation);
      var due, later := Due(rest, generation), Later(rest, generation);
      if first.generation <= generation {
        assert Due(waiters, generation) == [first] + due && Later(waiters, generation) == [] + later == later;
      } else {
        assert Later(waiters, generation) == [first] + later && Due(waiters, generation) == [] + due == due;
      }
      hide Due, Later, Waiting;
      WaitingFirst([first] + due);
      WaitingFirst([first] + later);
      assert ([first] + due)[1..] == due && ([first] + later)[1..] == later;
      WaitingFirst(waiters);
    }
  }

  lemma WaitingFirst(waiters: seq<Waiter>)
    requires waiters != []
    ensures Waiting(waiters) == multiset{waiters[0].generation} + Waiting(waiters[1..])
  {
  }

  lemma {:induction false} ResolutionsAnswer<S, B>(due: seq<Waiter>, snapshot: S, round: nat, basis: B)
    ensures Answered(Resolutions(due, snapshot, round, basis)) == Waiting(due)
  {
    if due != [] { ResolutionsAnswer(due[1..], snapshot, round, basis); }
  }

  lemma {:induction false} RejectionsAnswer<S, B>(due: seq<Waiter>)
    ensures Answered(Rejections<S, B>(due)) == Waiting(due)
  {
    if due != [] { RejectionsAnswer<S, B>(due[1..]); }
  }

  lemma {:induction false} WaitingHas(waiters: seq<Waiter>, i: nat)
    requires i < |waiters|
    ensures waiters[i].generation in Waiting(waiters)
  {
    if i > 0 { WaitingHas(waiters[1..], i - 1); }
  }

  /** A new request: the next generation joins those waiting. */
  lemma OneMore<S, B>(waiters: seq<Waiter>, answers: seq<Answer<S, B>>, requested: nat, rounds: nat)
    requires Waiting(waiters) + Answered(answers) == UpTo(requested)
    ensures Waiting(waiters + [Waiter(requested + 1, rounds)]) + Answered(answers) == UpTo(requested + 1)
  {
    var waiter := Waiter(requested + 1, rounds);
    WaitingConcat(waiters, [waiter]);
    WaitingFirst([waiter]);
    assert Waiting([]) == multiset{};
    assert UpTo(requested + 1) == UpTo(requested) + multiset{requested + 1};
    hide Waiting, Answered, UpTo;
    var a, b, one := Waiting(waiters), Answered(answers), multiset{requested + 1};
    assert [waiter][1..] == [];
    assert (a + one) + b == (a + b) + one;
  }

  /** Disposal: everybody waiting is rejected. */
  lemma AllRejected<S, B>(waiters: seq<Waiter>, answers: seq<Answer<S, B>>, requested: nat)
    requires Waiting(waiters) + Answered(answers) == UpTo(requested)
    ensures Waiting([]) + Answered(answers + Rejections(waiters)) == UpTo(requested)
  {
    RejectionsAnswer<S, B>(waiters);
    AnsweredConcat(answers, Rejections(waiters));
    assert Waiting([]) == multiset{};
    hide Waiting, Answered, UpTo;
    var a, b := Waiting(waiters), Answered(answers);
    assert multiset{} + (b + a) == a + b;
  }

  // -------------------------------------------------------------------------
  // The loops, which are the same in both services
  // -------------------------------------------------------------------------

  method ResolveEach<S, B>(waiters: seq<Waiter>, generation: nat, answers: seq<Answer<S, B>>, snapshot: S, round: nat, basis: B)
      returns (remaining: seq<Waiter>, told: seq<Answer<S, B>>)
    ensures remaining == Later(waiters, generation)
    ensures told == answers + Resolutions(Due(waiters, generation), snapshot, round, basis)
  {
    hide Due, Later, Resolutions;
    remaining, told := [], answers;
    var i := 0;
    assert waiters[0..] == waiters;
    while i < |waiters|
      invariant 0 <= i <= |waiters|
      invariant remaining + Later(waiters[i..], generation) == Later(waiters, generation)
      invariant told + Resolutions(Due(waiters[i..], generation), snapshot, round, basis)
             == answers + Resolutions(Due(waiters, generation), snapshot, round, basis)
    {
      TurnAddsUp(waiters, i, generation, told, remaining, snapshot, round, basis);
      if waiters[i].generation <= generation {
        told := told + [Resolved(waiters[i], snapshot, round, basis)];
      } else {
        remaining := remaining + [waiters[i]];
      }
      i := i + 1;
    }
    assert waiters[i..] == [];
    NobodyLeft(generation, snapshot, round, basis);
  }

  method RejectEach<S, B>(waiters: seq<Waiter>, generation: nat, answers: seq<Answer<S, B>>)
      returns (remaining: seq<Waiter>, told: seq<Answer<S, B>>)
    ensures remaining == Later(waiters, generation)
    ensures told == answers + Rejections(Due(waiters, generation))
  {
    hide Due, Later, Rejections;
    remaining, told := [], answers;
    var i := 0;
    assert waiters[0..] == waiters;
    while i < |waiters|
      invariant 0 <= i <= |waiters|
      invariant remaining + Later(waiters[i..], generation) == Later(waiters, generation)
      invariant told + Rejections(Due(waiters[i..], generation)) == answers + Rejections(Due(waiters, generation))
    {
      RejectingAddsUp(waiters, i, generation, told, remaining);
      if waiters[i].generation <= generation {
        told := told + [Rejected(waiters[i])];
      } else {
        remaining := remaining + [waiters[i]];
      }
      i := i + 1;
    }
    assert waiters[i..] == [];
    NoneLeft<S, B>(generation);
  }

  /** One turn of a loop over the waiters. */
  lemma Turn(waiters: seq<Waiter>, i: nat, generation: nat)
    requires i < |waiters|
    ensures var w, rest := waiters[i], waiters[i + 1..];
      if w.generation <= generation
      then Later(waiters[i..], generation) == Later(rest, generation) && Due(waiters[i..], generation) == [w] + Due(rest, generation)
      else Later(waiters[i..], generation) == [w] + Later(rest, generation) && Due(waiters[i..], generation) == Due(rest, generation)
  {
    var rest := waiters[i + 1..];
    assert waiters[i..][0] == waiters[i] && waiters[i..][1..] == rest;
    assert [] + Later(rest, generation) == Later(rest, generation);
    assert [] + Due(rest, generation) == Due(rest, generation);
  }

  /** What the loops have done so far and still have to do adds up the same after a turn. */
  lemma TurnAddsUp<S, B>(waiters: seq<Waiter>, i: nat, generation: nat, answers: seq<Answer<S, B>>, remaining: seq<Waiter>,
                         snapshot: S, round: nat, basis: B)
    requires i < |waiters|
    ensures var w := waiters[i];
      var due, rest := Due(waiters[i..], generation), Due(waiters[i + 1..], generation);
      if w.generation <= generation then
        && (answers + [Resolved(w, snapshot, round, basis)]) + Resolutions(rest, snapshot, round, basis)
          == answers + Resolutions(due, snapshot, round, basis)
        && remaining + Later(waiters[i + 1..], generation) == remaining + Later(waiters[i..], generation)
      else
        && Resolutions(rest, snapshot, round, basis) == Resolutions(due, snapshot, round, basis)
        && (remaining + [w]) + Later(waiters[i + 1..], generation) == remaining + Later(waiters[i..], generation)
  {
    hide Due, Later;
    var w, rest := waiters[i], Due(waiters[i + 1..], generation);
    Turn(waiters, i, generation);
    assert ([w] + rest)[1..] == rest;
    Regroup(answers, [Resolved(w, snapshot, round, basis)], Resolutions(rest, snapshot, round, basis));
    Regroup(remaining, [w], Later(waiters[i + 1..], generation));
  }

  lemma RejectingAddsUp<S, B>(waiters: seq<Waiter>, i: nat, generation: nat, answers: seq<Answer<S, B>>, remaining: seq<Waiter>)
    requires i < |waiters|
    ensures var w := waiters[i];
      var due, rest := Due(waiters[i..], generation), Due(waiters[i + 1..], generation);
      if w.generation <= generation then
        && (answers + [Rejected(w)]) + Rejections(rest) == answers + Rejections(due)
        && remaining + Later(waiters[i + 1..], generation) == remaining + Later(waiters[i..], generation)
      else
        && Rejections<S, B>(rest) == Rejections(due)
        && (remaining + [w]) + Later(waiters[i + 1..], generation) == remaining + Later(waiters[i..], generation)
  {
    hide Due, Later;
    var w, rest := waiters[i], Due(waiters[i + 1..], generation);
    Turn(waiters, i, generation);
    assert ([w] + rest)[1..] == rest;
    Regroup(answers, [Rejected(w)], Rejections(rest));
    Regroup(remaining, [w], Later(waiters[i + 1..], generation));
  }

  lemma NobodyLeft<S, B>(generation: nat, snapshot: S, round: nat, basis: B)
    ensures Due([], generation) == [] && Later([], generation) == []
    ensures Resolutions<S, B>([], snapshot, round, basis) == []
  {
  }

  lemma NoneLeft<S, B>(generation: nat)
    ensures Due([], generation) == [] && Later([], generation) == []
    ensures Rejections<S, B>([]) == []
  {
  }
}
