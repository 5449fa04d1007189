/**
 What expressions mean: laws, one per construct, about any function from expressions and inputs to
 results. Evaluation is the one function that meets them all.
 */
module CelMeaning {
  import opened CelSyntax
  import opened CelEvaluator

  type Meaning<!N> = (Expr, Value<N>) -> Result<Value<N>>

  /** A number comes out, if it is JSON-safe. */
  predicate Gives<N(==)>(a: Arithmetic<N>, r: Result<Value<N>>, number: N) {
    if a.isSafe(number) then r == Done(Number(number)) else r == Fails(NotJsonSafe)
  }

  predicate IsTrue<N(==)>(r: Result<Value<N>>) { r == Done(Bool(true)) }

  predicate IsFalse<N(==)>(r: Result<Value<N>>) { r == Done(Bool(false)) }

  predicate IsNoBoolean<N>(r: Result<Value<N>>) { r.Done? && !r.value.Bool? }

  predicate AreNumbers<N>(p: Value<N>, q: Value<N>) { p.Number? && q.Number? }

  predicate AreTexts<N>(p: Value<N>, q: Value<N>) { p.Text? && q.Text? }

  /** One text is in front of another: at the first difference, or as a proper beginning of it. */
  ghost predicate Before(s: string, t: string) {
    exists k :: FirstDifference(s, t, k)
  }

  predicate FirstDifference(s: string, t: string, k: int) {
    0 <= k <= |s| && k < |t| && s[..k] == t[..k] && (k == |s| || s[k] < t[k])
  }

  // -------------------------------------------------------------------------
  // The laws
  // -------------------------------------------------------------------------

  ghost predicate Literals<N(!new)>(a: Arithmetic<N>, m: Meaning<N>) {
    && (forall text, input :: m(StringLiteral(text), input) == Done(Text(text)))
    && (forall digits, input :: m(NumberLiteral(digits), input) == Done(Number(a.parse(digits))))
    && (forall value, input :: m(BoolLiteral(value), input) == Done(Bool(value)))
    && (forall input :: m(NullLiteral, input) == Done(Null))
    && (forall input :: m(Expr.Input, input) == Done(input))
  }

  /** The branch the condition selects, and nothing of the other. */
  ghost predicate ConditionalAt<N(!new)>(m: Meaning<N>, c: Expr, t: Expr, f: Expr, input: Value<N>) {
    var r := m(Conditional(c, t, f), input);
    && (IsTrue(m(c, input)) ==> r == m(t, input))
    && (IsFalse(m(c, input)) ==> r == m(f, input))
    && (IsNoBoolean(m(c, input)) ==> r == Fails(BooleanRequired))
    && (m(c, input).Fails? ==> r == m(c, input))
  }

  /** The left operand decides alone, or the right one does, and then has to be a boolean. */
  ghost predicate ConnectiveAt<N(!new)>(m: Meaning<N>, op: BinaryOp, left: Expr, right: Expr, input: Value<N>) {
    var l, r, both := m(left, input), m(right, input), m(Binary(op, left, right), input);
    && (op.And? && IsFalse(l) ==> IsFalse(both))
    && (op.Or? && IsTrue(l) ==> IsTrue(both))
    && ((op.And? && IsTrue(l)) || (op.Or? && IsFalse(l)) ==> both == if IsNoBoolean(r) then Fails(BooleanRequired) else r)
    && ((op.And? || op.Or?) && IsNoBoolean(l) ==> both == Fails(BooleanRequired))
  }

  /** A failing left operand fails the whole, and but for `&&` and `||` so does a failing right one. */
  ghost predicate StrictAt<N(!new)>(m: Meaning<N>, op: BinaryOp, left: Expr, right: Expr, input: Value<N>) {
    var l, r, both := m(left, input), m(right, input), m(Binary(op, left, right), input);
    && (l.Fails? ==> both == l)
    && (!op.And? && !op.Or? && l.Done? && r.Fails? ==> both == r)
  }

  ghost predicate SignAt<N(!new)>(a: Arithmetic<N>, m: Meaning<N>, op: UnaryOp, operand: Expr, input: Value<N>) {
    var o, r := m(operand, input), m(Unary(op, operand), input);
    && (o.Fails? ==> r == o)
    && (o.Done? && op.Not? ==> r == if o.value.Bool? then Done(Bool(!o.value.value)) else Fails(BooleanRequired))
    && (o.Done? && !op.Not? && !o.value.Number? ==> r == Fails(NumberRequired))
    && (o.Done? && op.Neg? && o.value.Number? ==> Gives(a, r, a.negate(o.value.number)))
    && (o.Done? && op.Plus? && o.value.Number? ==> Gives(a, r, o.value.number))
  }

  /** Each operator is its operation on two numbers; adding texts puts one behind the other. */
  predicate Summed<N(==)>(a: Arithmetic<N>, op: BinaryOp, p: Value<N>, q: Value<N>, r: Result<Value<N>>) {
    && (AreNumbers(p, q) && op.Add? ==> Gives(a, r, a.add(p.number, q.number)))
    && (AreNumbers(p, q) && op.Sub? ==> Gives(a, r, a.subtract(p.number, q.number)))
    && (AreNumbers(p, q) && op.Mul? ==> Gives(a, r, a.multiply(p.number, q.number)))
    && (AreNumbers(p, q) && op.Div? ==> Gives(a, r, a.divide(p.number, q.number)))
    && (AreNumbers(p, q) && op.Mod? ==> Gives(a, r, a.remainder(p.number, q.number)))
    && (AreTexts(p, q) && op.Add? ==> r == Done(Text(p.text + q.text)))
    && (!AreNumbers(p, q) && !(AreTexts(p, q) && op.Add?) ==> r == Fails(NumberRequired))
  }

  /** Equality is of the whole values; the order is that of numbers, or that of texts. */
  ghost predicate Compared<N>(a: Arithmetic<N>, op: BinaryOp, p: Value<N>, q: Value<N>, r: Result<Value<N>>) {
    && (op.Eq? ==> r == Done(Bool(p == q)))
    && (op.Ne? ==> r == Done(Bool(p != q)))
    && (AreNumbers(p, q) && op.Lt? ==> r == Done(Bool(a.less(p.number, q.number))))
    && (AreNumbers(p, q) && op.Ge? ==> r == Done(Bool(!a.less(p.number, q.number))))
    && (AreNumbers(p, q) && op.Gt? ==> r == Done(Bool(a.less(q.number, p.number) && !a.less(p.number, q.number))))
    && (AreNumbers(p, q) && op.Le? ==> r == Done(Bool(!a.less(q.number, p.number) || a.less(p.number, q.number))))
    && (AreTexts(p, q) && op.Lt? ==> r == Done(Bool(Before(p.text, q.text))))
    && (AreTexts(p, q) && op.Ge? ==> r == Done(Bool(!Before(p.text, q.text))))
    && (AreTexts(p, q) && op.Gt? ==> r == Done(Bool(Before(q.text, p.text))))
    && (AreTexts(p, q) && op.Le? ==> r == Done(Bool(!Before(q.text, p.text))))
    && (!op.Eq? && !op.Ne? && !AreNumbers(p, q) && !AreTexts(p, q) ==> r == Fails(NotComparable))
  }

  predicate IsSum(op: BinaryOp) { op.Add? || op.Sub? || op.Mul? || op.Div? || op.Mod? }

  predicate IsComparison(op: BinaryOp) { op.Eq? || op.Ne? || op.Lt? || op.Le? || op.Gt? || op.Ge? }

  ghost predicate OperationAt<N(!new)>(a: Arithmetic<N>, m: Meaning<N>, op: BinaryOp, left: Expr, right: Expr, input: Value<N>) {
    m(left, input).Done? && m(right, input).Done? ==>
      var p, q, r := m(left, input).value, m(right, input).value, m(Binary(op, left, right), input);
      && (IsSum(op) ==> Summed(a, op, p, q, r))
      && (IsComparison(op) ==> Compared(a, op, p, q, r))
  }

  /** The first expression that fails, and the values of those in front of it. */
  ghost predicate FailsAt<N(!new)>(m: Meaning<N>, parts: seq<Expr>, input: Value<N>, k: int) {
    0 <= k < |parts| && m(parts[k], input).Fails? && forall i :: 0 <= i < k ==> m(parts[i], input).Done?
  }

  ghost predicate AllDone<N(!new)>(m: Meaning<N>, parts: seq<Expr>, input: Value<N>) {
    forall i :: 0 <= i < |parts| ==> m(parts[i], input).Done?
  }

  /** The values of the elements, in order; or the first failure. */
  ghost predicate ArrayAt<N(!new)>(m: Meaning<N>, elements: seq<Expr>, input: Value<N>) {
    var r := m(ArrayExpr(elements), input);
    && (AllDone(m, elements, input) ==>
          && r.Done? && r.value.Array? && |r.value.elements| == |elements|
          && forall i :: 0 <= i < |elements| ==> r.value.elements[i] == m(elements[i], input).value)
    && (forall k :: FailsAt(m, elements, input, k) ==> r == m(elements[k], input))
  }

  function Values(entries: seq<Entry>): (values: seq<Expr>)
    ensures |values| == |entries| && forall i :: 0 <= i < |entries| ==> values[i] == entries[i].value
  {
    seq(|entries|, i requires 0 <= i < |entries| => entries[i].value)
  }

  /** The entry is the last one of its key. */
  predicate LastOfKey(entries: seq<Entry>, k: int) {
    0 <= k < |entries| && forall j :: k < j < |entries| ==> entries[j].key != entries[k].key
  }

  /** The fields made of some entries: each key, with the value of its last entry. */
  ghost predicate FieldsOf<N(!new)>(m: Meaning<N>, entries: seq<Entry>, input: Value<N>, fields: map<string, Value<N>>) {
    && (forall key :: key in fields <==> exists k :: 0 <= k < |entries| && entries[k].key == key)
    && (forall k | LastOfKey(entries, k) :: entries[k].key in fields && m(entries[k].value, input) == Done(fields[entries[k].key]))
  }

  /** Such fields; or the first failure. */
  ghost predicate ObjectAt<N(!new)>(m: Meaning<N>, entries: seq<Entry>, input: Value<N>) {
    var r := m(ObjectExpr(entries), input);
    && (AllDone(m, Values(entries), input) ==> r.Done? && r.value.Object? && FieldsOf(m, entries, input, r.value.fields))
    && (forall k :: FailsAt(m, Values(entries), input, k) ==> r == m(entries[k].value, input))
  }

  /** All of them, on all expressions and inputs. */
  ghost predicate Lawful<N(!new)>(a: Arithmetic<N>, m: Meaning<N>) {
    && Literals(a, m)
    && (forall c, t, f, input :: ConditionalAt(m, c, t, f, input))
    && (forall op, left, right, input :: ConnectiveAt(m, op, left, right, input))
    && (forall op, left, right, input :: StrictAt(m, op, left, right, input))
    && (forall op, left, right, input :: OperationAt(a, m, op, left, right, input))
    && (forall op, operand, input :: SignAt(a, m, op, operand, input))
    && (forall elements, input :: ArrayAt(m, elements, input))
    && (forall entries, input :: ObjectAt(m, entries, input))
  }

  // -------------------------------------------------------------------------
  // Evaluation meets them
  // -------------------------------------------------------------------------

  function Evaluating<N(==)>(a: Arithmetic<N>): Meaning<N> {
    (e: Expr, input: Value<N>) => Evaluate(a, e, input)
  }

  lemma {:induction false} TextLessIsBefore(s: string, t: string)
    ensures TextLess(s, t) <==> Before(s, t)
  {
    if s != [] && t != [] && s[0] == t[0] {
      TextLessIsBefore(s[1..], t[1..]);
      assert s == [s[0]] + s[1..] && t == [t[0]] + t[1..];
      if Before(s[1..], t[1..]) {
        var k :| FirstDifference(s[1..], t[1..], k);
        assert s[..k + 1] == [s[0]] + s[1..][..k] && t[..k + 1] == [t[0]] + t[1..][..k];
        assert FirstDifference(s, t, k + 1);
      }
      if Before(s, t) {
        var k :| FirstDifference(s, t, k);
        assert k > 0;
        assert s[1..][..k - 1] == s[..k][1..] && t[1..][..k - 1] == t[..k][1..];
        assert FirstDifference(s[1..], t[1..], k - 1);
      }
    } else if t != [] && (s == [] || s[0] < t[0]) {
      assert FirstDifference(s, t, 0);
    } else if s != [] && t != [] {
      assert forall k :: 0 < k <= |s| && k < |t| ==> s[..k][0] == s[0] && t[..k][0] == t[0];
    }
  }

  lemma EvaluatingIs<N>(a: Arithmetic<N>, e: Expr, input: Value<N>)
    ensures Evaluating(a)(e, input) == Evaluate(a, e, input)
  {
    hide Evaluate;
  }

  lemma EvaluatesLiterals<N(!new)>(a: Arithmetic<N>)
    ensures Literals(a, Evaluating(a))
  {
  }

  lemma Selects<N>(a: Arithmetic<N>, c: Expr, t: Expr, f: Expr, input: Value<N>)
    ensures Evaluate(a, Conditional(c, t, f), input) ==
      match Evaluate(a, c, input)
      case Fails(fault) => Fails(fault)
      case Done(v) =>
        if !v.Bool? then Fails(BooleanRequired) else if v.value then Evaluate(a, t, input) else Evaluate(a, f, input)
  {
    hide EvaluateBinary, EvaluateUnary, EvaluateElements, EvaluateEntries;
  }

  lemma EvaluatesConditionals<N(!new)>(a: Arithmetic<N>, c: Expr, t: Expr, f: Expr, input: Value<N>)
    ensures ConditionalAt(Evaluating(a), c, t, f, input)
  {
    hide Evaluate, Evaluating;
    Selects(a, c, t, f, input);
    EvaluatingIs(a, c, input);
    EvaluatingIs(a, t, input);
    EvaluatingIs(a, f, input);
    EvaluatingIs(a, Conditional(c, t, f), input);
  }

  lemma EvaluatesConnectives<N(!new)>(a: Arithmetic<N>, op: BinaryOp, left: Expr, right: Expr, input: Value<N>)
    ensures ConnectiveAt(Evaluating(a), op, left, right, input) && StrictAt(Evaluating(a), op, left, right, input)
  {
    IsBinary(a, op, left, right, input);
    EvaluatingIs(a, left, input);
    EvaluatingIs(a, right, input);
    EvaluatingIs(a, Binary(op, left, right), input);
    hide Evaluate, Evaluating, Operate;
  }

  lemma EvaluatesSigns<N(!new)>(a: Arithmetic<N>, op: UnaryOp, operand: Expr, input: Value<N>)
    ensures SignAt(a, Evaluating(a), op, operand, input)
  {
  }

  lemma OperateSums<N>(a: Arithmetic<N>, op: BinaryOp, p: Value<N>, q: Value<N>)
    requires IsSum(op)
    ensures Summed(a, op, p, q, Operate(a, op, p, q))
  {
  }

  lemma OperateCompares<N>(a: Arithmetic<N>, op: BinaryOp, p: Value<N>, q: Value<N>)
    requires IsComparison(op)
    ensures Compared(a, op, p, q, Operate(a, op, p, q))
  {
    JsonEqualsIsEquality(p, q);
    if AreTexts(p, q) {
      TextOrderIsTotal(p.text, q.text);
      TextLessIsBefore(p.text, q.text);
      TextLessIsBefore(q.text, p.text);
    }
    hide TextLess, Before, JsonEquals;
  }

  lemma IsBinary<N>(a: Arithmetic<N>, op: BinaryOp, left: Expr, right: Expr, input: Value<N>)
    ensures Evaluate(a, Binary(op, left, right), input) == EvaluateBinary(a, Binary(op, left, right), input)
  {
    hide EvaluateBinary;
  }

  lemma Operates<N>(a: Arithmetic<N>, op: BinaryOp, left: Expr, right: Expr, input: Value<N>)
    requires !op.And? && !op.Or? && Evaluate(a, left, input).Done? && Evaluate(a, right, input).Done?
    ensures Evaluate(a, Binary(op, left, right), input) == Operate(a, op, Evaluate(a, left, input).value, Evaluate(a, right, input).value)
  {
    IsBinary(a, op, left, right, input);
    hide Evaluate, Operate, RequireBoolean, BooleanOf;
  }

  lemma EvaluatesOperations<N(!new)>(a: Arithmetic<N>, op: BinaryOp, left: Expr, right: Expr, input: Value<N>)
    ensures OperationAt(a, Evaluating(a), op, left, right, input)
  {
    hide Operate, Summed, Compared, Evaluate, Evaluating;
    EvaluatingIs(a, left, input);
    EvaluatingIs(a, right, input);
    EvaluatingIs(a, Binary(op, left, right), input);
    if Evaluate(a, left, input).Done? && Evaluate(a, right, input).Done? && !op.And? && !op.Or? {
      var p, q := Evaluate(a, left, input).value, Evaluate(a, right, input).value;
      Operates(a, op, left, right, input);
      if IsSum(op) {
        OperateSums(a, op, p, q);
      } else {
        OperateCompares(a, op, p, q);
      }
    }
  }

  lemma ElementsSnoc<N>(a: Arithmetic<N>, before: seq<Expr>, last: Expr, input: Value<N>)
    ensures EvaluateElements(a, before + [last], input) ==
      match EvaluateElements(a, before, input)
      case Fails(f) => Fails(f)
      case Done(values) =>
        match Evaluate(a, last, input)
        case Fails(f) => Fails(f)
        case Done(v) => Done(values + [v])
  {
    hide Evaluate;
    assert (before + [last])[..|before|] == before;
  }

  /** In order, up to the first failure. */
  lemma {:induction false} ElementsEvaluate<N(!new)>(a: Arithmetic<N>, elements: seq<Expr>, input: Value<N>)
    ensures var m, r := Evaluating(a), EvaluateElements(a, elements, input);
      && (AllDone(m, elements, input) ==>
            && r.Done? && |r.value| == |elements|
            && forall i :: 0 <= i < |elements| ==> r.value[i] == m(elements[i], input).value)
      && (forall k :: FailsAt(m, elements, input, k) ==> r.Fails? && m(elements[k], input) == Fails(r.fault))
    decreases |elements|
  {
    hide Evaluate, Evaluating, EvaluateElements, AllDone, FailsAt;
    if elements == [] {
      NoElements(a, input);
    } else {
      var m, before, last := Evaluating(a), elements[..|elements| - 1], elements[|elements| - 1];
      ElementsEvaluate(a, before, input);
      assert elements == before + [last];
      ElementsSnoc(a, before, last, input);
      PartsSnoc(m, before, last, input);
      EvaluatingIs(a, last, input);
      assert forall k :: 0 <= k < |before| ==> elements[k] == before[k];
    }
  }

  lemma NoElements<N(!new)>(a: Arithmetic<N>, input: Value<N>)
    ensures EvaluateElements(a, [], input) == Done([]) && forall k :: !FailsAt(Evaluating(a), [], input, k)
  {
  }

  lemma EvaluatesArrays<N(!new)>(a: Arithmetic<N>, elements: seq<Expr>, input: Value<N>)
    ensures ArrayAt(Evaluating(a), elements, input)
  {
    ElementsEvaluate(a, elements, input);
  }

  lemma FieldAdded<N(!new)>(m: Meaning<N>, before: seq<Entry>, last: Entry, input: Value<N>, fields: map<string, Value<N>>)
    requires FieldsOf(m, before, input, fields) && m(last.value, input).Done?
    ensures FieldsOf(m, before + [last], input, fields[last.key := m(last.value, input).value])
  {
    var entries, fields' := before + [last], fields[last.key := m(last.value, input).value];
    forall key ensures key in fields' <==> exists k :: 0 <= k < |entries| && entries[k].key == key {
      if key in fields {
        var k :| 0 <= k < |before| && before[k].key == key;
        assert entries[k].key == key;
      }
      if key == last.key {
        assert entries[|before|].key == key;
      }
      if k :| 0 <= k < |entries| && entries[k].key == key && key != last.key {
        assert before[k].key == key;
      }
    }
    forall k | LastOfKey(entries, k) ensures m(entries[k].value, input) == Done(fields'[entries[k].key]) {
      if k < |before| {
        assert entries[|before|].key != entries[k].key;
        forall j | k < j < |before| ensures before[j].key != before[k].key {
          assert entries[j].key != entries[k].key;
        }
        assert LastOfKey(before, k);
      }
    }
  }

  lemma EntriesSnoc<N>(a: Arithmetic<N>, before: seq<Entry>, last: Entry, input: Value<N>)
    ensures EvaluateEntries(a, before + [last], input) ==
      match EvaluateEntries(a, before, input)
      case Fails(f) => Fails(f)
      case Done(fields) =>
        match Evaluate(a, last.value, input)
        case Fails(f) => Fails(f)
        case Done(v) => Done(fields[last.key := v])
  {
    hide Evaluate;
    assert (before + [last])[..|before|] == before;
  }

  lemma {:induction false} EntriesEvaluate<N(!new)>(a: Arithmetic<N>, entries: seq<Entry>, input: Value<N>)
    ensures var m, r := Evaluating(a), EvaluateEntries(a, entries, input);
      && (AllDone(m, Values(entries), input) ==> r.Done? && FieldsOf(m, entries, input, r.value))
      && (forall k :: FailsAt(m, Values(entries), input, k) ==> r.Fails? && m(entries[k].value, input) == Fails(r.fault))
    decreases |entries|
  {
    hide FieldsOf, AllDone, FailsAt, Evaluate, Evaluating, EvaluateEntries;
    if entries == [] {
      NoEntries(a, input);
    } else {
      var m, before, last := Evaluating(a), entries[..|entries| - 1], entries[|entries| - 1];
      EntriesEvaluate(a, before, input);
      assert Values(entries) == Values(before) + [last.value];
      assert entries == before + [last] && forall k :: 0 <= k < |before| ==> entries[k] == before[k];
      PartsSnoc(m, Values(before), last.value, input);
      EntriesSnoc(a, before, last, input);
      EvaluatingIs(a, last.value, input);
      if AllDone(m, Values(entries), input) {
        FieldAdded(m, before, last, input, EvaluateEntries(a, before, input).value);
      }
      forall k | FailsAt(m, Values(entries), input, k)
        ensures EvaluateEntries(a, entries, input).Fails?
        ensures m(entries[k].value, input) == Fails(EvaluateEntries(a, entries, input).fault)
      {
        if FailsAt(m, Values(before), input, k) {
          assert entries[k] == before[k];
        }
      }
    }
  }

  lemma NoEntries<N(!new)>(a: Arithmetic<N>, input: Value<N>)
    ensures EvaluateEntries(a, [], input) == Done(map[]) && FieldsOf(Evaluating(a), [], input, map[])
    ensures forall k :: !FailsAt(Evaluating(a), Values([]), input, k)
  {
  }

  lemma PartsSnoc<N(!new)>(m: Meaning<N>, before: seq<Expr>, last: Expr, input: Value<N>)
    ensures var parts := before + [last];
      && (AllDone(m, parts, input) <==> AllDone(m, before, input) && m(last, input).Done?)
      && (forall k :: FailsAt(m, before, input, k) ==> 0 <= k < |before|)
      && (forall k :: FailsAt(m, parts, input, k) <==>
            FailsAt(m, before, input, k) || (k == |before| && AllDone(m, before, input) && m(last, input).Fails?))
  {
    var parts := before + [last];
    assert parts[|before|] == last && parts[..|before|] == before;
    assert forall i :: 0 <= i < |before| ==> parts[i] == before[i];
  }

  lemma EvaluatesObjects<N(!new)>(a: Arithmetic<N>, entries: seq<Entry>, input: Value<N>)
    ensures ObjectAt(Evaluating(a), entries, input)
  {
    EntriesEvaluate(a, entries, input);
    hide FieldsOf;
  }

  // -------------------------------------------------------------------------
  // And nothing else does
  // -------------------------------------------------------------------------

  lemma EvaluationIsLawful<N(!new)>(a: Arithmetic<N>)
    ensures Lawful(a, Evaluating(a))
  {
    hide Evaluating, ConditionalAt, ConnectiveAt, StrictAt, OperationAt, SignAt, ArrayAt, ObjectAt, Literals;
    var m := Evaluating(a);
    EvaluatesLiterals(a);
    forall c, t, f, input ensures ConditionalAt(m, c, t, f, input) {
      EvaluatesConditionals(a, c, t, f, input);
    }
    forall op, left, right, input
      ensures ConnectiveAt(m, op, left, right, input) && StrictAt(m, op, left, right, input) && OperationAt(a, m, op, left, right, input)
    {
      EvaluatesConnectives(a, op, left, right, input);
      EvaluatesOperations(a, op, left, right, input);
    }
    forall op, operand, input ensures SignAt(a, m, op, operand, input) {
      EvaluatesSigns(a, op, operand, input);
    }
    forall elements, input ensures ArrayAt(m, elements, input) {
      EvaluatesArrays(a, elements, input);
    }
    forall entries, input ensures ObjectAt(m, entries, input) {
      EvaluatesObjects(a, entries, input);
    }
  }

  /** Either all parts have values, or there is a first that fails. */
  lemma {:induction false} DoneOrFails<N(!new)>(m: Meaning<N>, parts: seq<Expr>, input: Value<N>)
    ensures AllDone(m, parts, input) || exists k :: FailsAt(m, parts, input, k)
    decreases |parts|
  {
    if parts != [] {
      var before, last := parts[..|parts| - 1], parts[|parts| - 1];
      assert parts == before + [last];
      DoneOrFails(m, before, input);
      PartsSnoc(m, before, last, input);
      if k :| FailsAt(m, before, input, k) {
        assert FailsAt(m, parts, input, k);
      } else if !m(last, input).Done? {
        assert FailsAt(m, parts, input, |before|);
      }
    }
  }

  /** The last entry of a key that has one. */
  lemma {:induction false} LastFound(entries: seq<Entry>, k: nat) returns (last: nat)
    requires k < |entries|
    ensures LastOfKey(entries, last) && entries[last].key == entries[k].key
    decreases |entries| - k
  {
    if LastOfKey(entries, k) {
      last := k;
    } else {
      var j :| k < j < |entries| && entries[j].key == entries[k].key;
      last := LastFound(entries, j);
    }
  }

  /** Two functions that give the same on the parts. */
  ghost predicate Agree<N(!new)>(m: Meaning<N>, m': Meaning<N>, parts: seq<Expr>, input: Value<N>) {
    forall i :: 0 <= i < |parts| ==> m(parts[i], input) == m'(parts[i], input)
  }

  lemma ArraysAgree<N(!new)>(m: Meaning<N>, m': Meaning<N>, elements: seq<Expr>, input: Value<N>)
    requires ArrayAt(m, elements, input) && ArrayAt(m', elements, input) && Agree(m, m', elements, input)
    ensures m(ArrayExpr(elements), input) == m'(ArrayExpr(elements), input)
  {
    DoneOrFails(m, elements, input);
    if AllDone(m, elements, input) {
      assert AllDone(m', elements, input);
      var r, r' := m(ArrayExpr(elements), input), m'(ArrayExpr(elements), input);
      assert r.value.elements == r'.value.elements;
    } else {
      var k :| FailsAt(m, elements, input, k);
      assert FailsAt(m', elements, input, k);
    }
  }

  lemma FieldsAgree<N(!new)>(m: Meaning<N>, m': Meaning<N>, entries: seq<Entry>, input: Value<N>,
                             fields: map<string, Value<N>>, fields': map<string, Value<N>>)
    requires FieldsOf(m, entries, input, fields) && FieldsOf(m', entries, input, fields')
    requires Agree(m, m', Values(entries), input)
    ensures fields == fields'
  {
    forall key | key in fields ensures key in fields' && fields[key] == fields'[key] {
      var k :| 0 <= k < |entries| && entries[k].key == key;
      var last := LastFound(entries, k);
      assert m(Values(entries)[last], input) == m'(Values(entries)[last], input);
    }
    assert fields.Keys == fields'.Keys;
  }

  lemma ObjectsAgree<N(!new)>(m: Meaning<N>, m': Meaning<N>, entries: seq<Entry>, input: Value<N>)
    requires ObjectAt(m, entries, input) && ObjectAt(m', entries, input) && Agree(m, m', Values(entries), input)
    ensures m(ObjectExpr(entries), input) == m'(ObjectExpr(entries), input)
  {
    hide FieldsOf;
    var parts := Values(entries);
    DoneOrFails(m, parts, input);
    if AllDone(m, parts, input) {
      assert AllDone(m', parts, input);
      FieldsAgree(m, m', entries, input, m(ObjectExpr(entries), input).value.fields, m'(ObjectExpr(entries), input).value.fields);
    } else {
      var k :| FailsAt(m, parts, input, k);
      assert FailsAt(m', parts, input, k);
      assert parts[k] == entries[k].value;
    }
  }

  lemma OperationsAgree<N>(a: Arithmetic<N>, op: BinaryOp, p: Value<N>, q: Value<N>, r: Result<Value<N>>, r': Result<Value<N>>)
    requires IsSum(op) ==> Summed(a, op, p, q, r) && Summed(a, op, p, q, r')
    requires IsComparison(op) ==> Compared(a, op, p, q, r) && Compared(a, op, p, q, r')
    requires !op.And? && !op.Or?
    ensures r == r'
  {
    hide Before;
  }

  lemma BinariesAgree<N(!new)>(a: Arithmetic<N>, m: Meaning<N>, m': Meaning<N>, op: BinaryOp, left: Expr, right: Expr, input: Value<N>)
    requires ConnectiveAt(m, op, left, right, input) && ConnectiveAt(m', op, left, right, input)
    requires StrictAt(m, op, left, right, input) && StrictAt(m', op, left, right, input)
    requires OperationAt(a, m, op, left, right, input) && OperationAt(a, m', op, left, right, input)
    requires m(left, input) == m'(left, input) && m(right, input) == m'(right, input)
    ensures m(Binary(op, left, right), input) == m'(Binary(op, left, right), input)
  {
    hide Summed, Compared;
    if !op.And? && !op.Or? && m(left, input).Done? && m(right, input).Done? {
      OperationsAgree(a, op, m(left, input).value, m(right, input).value,
                      m(Binary(op, left, right), input), m'(Binary(op, left, right), input));
    }
  }

  lemma {:induction false} LawsAgree<N(!new)>(a: Arithmetic<N>, m: Meaning<N>, m': Meaning<N>, e: Expr, input: Value<N>)
    requires Lawful(a, m) && Lawful(a, m')
    ensures m(e, input) == m'(e, input)
    decreases e
  {
    match e
    case ArrayExpr(elements) =>
      forall i | 0 <= i < |elements| ensures m(elements[i], input) == m'(elements[i], input) {
        LawsAgree(a, m, m', elements[i], input);
      }
      hide ArrayAt;
      assert ArrayAt(m, elements, input) && ArrayAt(m', elements, input);
      ArraysAgree(m, m', elements, input);
    case ObjectExpr(entries) =>
      forall i | 0 <= i < |entries| ensures m(Values(entries)[i], input) == m'(Values(entries)[i], input) {
        LawsAgree(a, m, m', entries[i].value, input);
      }
      hide ObjectAt;
      assert ObjectAt(m, entries, input) && ObjectAt(m', entries, input);
      ObjectsAgree(m, m', entries, input);
    case Unary(op, operand) =>
      LawsAgree(a, m, m', operand, input);
      assert SignAt(a, m, op, operand, input) && SignAt(a, m', op, operand, input);
    case Binary(op, left, right) =>
      LawsAgree(a, m, m', left, input);
      LawsAgree(a, m, m', right, input);
      hide ConnectiveAt, StrictAt, OperationAt;
      assert ConnectiveAt(m, op, left, right, input) && ConnectiveAt(m', op, left, right, input);
      assert StrictAt(m, op, left, right, input) && StrictAt(m', op, left, right, input);
      assert OperationAt(a, m, op, left, right, input) && OperationAt(a, m', op, left, right, input);
      BinariesAgree(a, m, m', op, left, right, input);
    case Conditional(c, t, f) =>
      LawsAgree(a, m, m', c, input);
      LawsAgree(a, m, m', t, input);
      LawsAgree(a, m, m', f, input);
      assert ConditionalAt(m, c, t, f, input) && ConditionalAt(m', c, t, f, input);
    case _ =>
  }

  /** The laws say all there is to say: a function meets them if and only if it is evaluation, on every expression and input. */
  lemma LawfulIffEvaluation<N(!new)>(a: Arithmetic<N>, m: Meaning<N>)
    ensures Lawful(a, m) ==> forall e, input :: m(e, input) == Evaluate(a, e, input)
    ensures Lawful(a, (e: Expr, input: Value<N>) => Evaluate(a, e, input))
  {
    EvaluationIsLawful(a);
    assert Lawful(a, Evaluating(a));
    if Lawful(a, m) {
      forall e, input ensures m(e, input) == Evaluate(a, e, input) {
        LawsAgree(a, m, Evaluating(a), e, input);
      }
    }
    hide Lawful;
  }

  /** Texts and JSON-safe numbers are evaluated on; other numbers are refused as unsafe, and everything else as no input. */
  lemma InputsAreTested<N>(a: Arithmetic<N>, e: Expr, input: Value<N>)
    ensures var fits := input.Text? || (input.Number? && a.isSafe(input.number));
      && (fits ==> EvaluateRestrictedCel(a, e, input) == Evaluate(a, e, input))
      && (!fits ==> EvaluateRestrictedCel(a, e, input) == Fails(if input.Number? then NotJsonSafe else BadInput))
  {
    hide Evaluate;
  }
}
