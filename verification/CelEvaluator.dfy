/**
 Evaluating expressions of the restricted language.

 Numbers are abstract: a record of operations with a test of which are JSON-safe, that is finite and,
 when whole, safe integers. Equality of numbers is `Object.is`, which tells negative zero from zero. Objects are unordered maps; the offsets in errors are not kept.
 */
module CelEvaluator {
  import opened CelSyntax
  import opened CelParser
  import opened Prelude

  datatype Value<N> =
    | Null
    | Bool(value: bool)
    | Number(number: N)
    | Text(text: string)
    | Array(elements: seq<Value<N>>)
    | Object(fields: map<string, Value<N>>)

  datatype Arithmetic<!N> = Arithmetic(
    parse: string -> N,
    isSafe: N -> bool,
    negate: N -> N,
    add: (N, N) -> N,
    subtract: (N, N) -> N,
    multiply: (N, N) -> N,
    divide: (N, N) -> N,
    remainder: (N, N) -> N,
    less: (N, N) -> bool)

  datatype Fault = BooleanRequired | NumberRequired | NotJsonSafe | NotComparable | BadInput

  datatype Result<+T> = Done(value: T) | Fails(fault: Fault)

  // -------------------------------------------------------------------------
  // Equality
  // -------------------------------------------------------------------------

  /** `jsonEquals`: objects by equal key counts and one inclusion. */
  predicate JsonEquals<N(==)>(left: Value<N>, right: Value<N>)
    decreases left
  {
    match (left, right)
    case (Array(a), Array(b)) => |a| == |b| && forall i :: 0 <= i < |a| ==> JsonEquals(a[i], b[i])
    case (Object(f), Object(g)) =>
      |f.Keys| == |g.Keys| && forall key :: key in f ==> key in g && JsonEquals(f[key], g[key])
    case (Null, Null) => true
    case (Bool(a), Bool(b)) => a == b
    case (Number(a), Number(b)) => a == b
    case (Text(a), Text(b)) => a == b
    case (_, _) => false
  }

  lemma SameSizeInclusion<T>(a: set<T>, b: set<T>)
    requires a <= b && |a| == |b|
    ensures a == b
  {
    assert |b - a| == |b| - |a|;
  }

  /** It is exactly structural equality. */
  lemma {:induction false} JsonEqualsIsEquality<N>(left: Value<N>, right: Value<N>)
    ensures JsonEquals(left, right) <==> left == right
    decreases left
  {
    match (left, right)
    case (Array(a), Array(b)) =>
      if |a| == |b| {
        forall i | 0 <= i < |a| ensures JsonEquals(a[i], b[i]) <==> a[i] == b[i] {
          JsonEqualsIsEquality(a[i], b[i]);
        }
        assert (forall i :: 0 <= i < |a| ==> a[i] == b[i]) <==> a == b;
      }
    case (Object(f), Object(g)) =>
      forall key | key in f && key in g ensures JsonEquals(f[key], g[key]) <==> f[key] == g[key] {
        JsonEqualsIsEquality(f[key], g[key]);
      }
      if JsonEquals(left, right) {
        SameSizeInclusion(f.Keys, g.Keys);
        assert f == g;
      }
    case (_, _) =>
  }

  // -------------------------------------------------------------------------
  // Operators
  // -------------------------------------------------------------------------

  function RequireBoolean<N>(v: Value<N>): Result<bool> {
    if v.Bool? then Done(v.value) else Fails(BooleanRequired)
  }

  function RequireNumber<N>(v: Value<N>): Result<N> {
    if v.Number? then Done(v.number) else Fails(NumberRequired)
  }

  function AssertNumber<N>(a: Arithmetic<N>, number: N): Result<Value<N>> {
    if a.isSafe(number) then Done(Number(number)) else Fails(NotJsonSafe)
  }

  function EvaluateUnary<N>(a: Arithmetic<N>, op: UnaryOp, operand: Value<N>): Result<Value<N>> {
    match op
    case Not => (match RequireBoolean(operand) case Fails(f) => Fails(f) case Done(b) => Done(Bool(!b)))
    case Neg => (match RequireNumber(operand) case Fails(f) => Fails(f) case Done(n) => AssertNumber(a, a.negate(n)))
    case Plus => (match RequireNumber(operand) case Fails(f) => Fails(f) case Done(n) => AssertNumber(a, n))
  }

  function NumericBinary<N>(a: Arithmetic<N>, left: Value<N>, right: Value<N>, operation: (N, N) -> N): Result<Value<N>> {
    match RequireNumber(left)
    case Fails(f) => Fails(f)
    case Done(l) =>
      match RequireNumber(right)
      case Fails(f) => Fails(f)
      case Done(r) => AssertNumber(a, operation(l, r))
  }

  /** Strings compare unit by unit. */
  predicate TextLess(left: string, right: string) {
    if right == [] then false
    else if left == [] then true
    else left[0] < right[0] || (left[0] == right[0] && TextLess(left[1..], right[1..]))
  }

  /** -1, 0 or 1. */
  function Comparison<N>(a: Arithmetic<N>, left: Value<N>, right: Value<N>): Result<int> {
    if left.Number? && right.Number? then
      Done(if a.less(left.number, right.number) then -1 else if a.less(right.number, left.number) then 1 else 0)
    else if left.Text? && right.Text? then
      Done(if TextLess(left.text, right.text) then -1 else if TextLess(right.text, left.text) then 1 else 0)
    else Fails(NotComparable)
  }

  /** The operators that need both operands. */
  function Operate<N(==)>(a: Arithmetic<N>, op: BinaryOp, left: Value<N>, right: Value<N>): Result<Value<N>>
    requires !op.And? && !op.Or?
  {
    match op
    case Eq => Done(Bool(JsonEquals(left, right)))
    case Ne => Done(Bool(!JsonEquals(left, right)))
    case Add =>
      if left.Text? && right.Text? then Done(Text(left.text + right.text)) else NumericBinary(a, left, right, a.add)
    case Sub => NumericBinary(a, left, right, a.subtract)
    case Mul => NumericBinary(a, left, right, a.multiply)
    case Div => NumericBinary(a, left, right, a.divide)
    case Mod => NumericBinary(a, left, right, a.remainder)
    case Lt => (match Comparison(a, left, right) case Fails(f) => Fails(f) case Done(c) => Done(Bool(c < 0)))
    case Le => (match Comparison(a, left, right) case Fails(f) => Fails(f) case Done(c) => Done(Bool(c <= 0)))
    case Gt => (match Comparison(a, left, right) case Fails(f) => Fails(f) case Done(c) => Done(Bool(c > 0)))
    case Ge => (match Comparison(a, left, right) case Fails(f) => Fails(f) case Done(c) => Done(Bool(c >= 0)))
  }

  // -------------------------------------------------------------------------
  // Expressions
  // -------------------------------------------------------------------------

  function Evaluate<N(==)>(a: Arithmetic<N>, e: Expr, input: Value<N>): Result<Value<N>>
    decreases e, 1
  {
    match e
    case StringLiteral(text) => Done(Text(text))
    case NumberLiteral(digits) => Done(Number(a.parse(digits)))
    case BoolLiteral(value) => Done(Bool(value))
    case NullLiteral => Done(Null)
    case Input => Done(input)
    case ArrayExpr(elements) =>
      (match EvaluateElements(a, elements, input) case Fails(f) => Fails(f) case Done(values) => Done(Array(values)))
    case ObjectExpr(entries) =>
      (match EvaluateEntries(a, entries, input) case Fails(f) => Fails(f) case Done(fields) => Done(Object(fields)))
    case Unary(op, operand) =>
      (match Evaluate(a, operand, input) case Fails(f) => Fails(f) case Done(v) => EvaluateUnary(a, op, v))
    case Binary(_, _, _) => EvaluateBinary(a, e, input)
    case Conditional(condition, whenTrue, whenFalse) =>
      (match Evaluate(a, condition, input)
       case Fails(f) => Fails(f)
       case Done(c) =>
         match RequireBoolean(c)
         case Fails(f) => Fails(f)
         case Done(b) => if b then Evaluate(a, whenTrue, input) else Evaluate(a, whenFalse, input))
  }

  /** The right operand only counts if the left one does not decide. */
  function EvaluateBinary<N(==)>(a: Arithmetic<N>, e: Expr, input: Value<N>): Result<Value<N>>
    requires e.Binary?
    decreases e, 0
  {
    match Evaluate(a, e.left, input)
    case Fails(f) => Fails(f)
    case Done(l) =>
      if e.op.And? || e.op.Or? then
        match RequireBoolean(l)
        case Fails(f) => Fails(f)
        case Done(b) => if b == e.op.Or? then Done(Bool(b)) else BooleanOf(Evaluate(a, e.right, input))
      else
        match Evaluate(a, e.right, input)
        case Fails(f) => Fails(f)
        case Done(r) => Operate(a, e.op, l, r)
  }

  function BooleanOf<N>(r: Result<Value<N>>): Result<Value<N>> {
    match r
    case Fails(f) => Fails(f)
    case Done(v) => if v.Bool? then Done(v) else Fails(BooleanRequired)
  }

  /** In order, up to the first that fails. */
  function EvaluateElements<N(==)>(a: Arithmetic<N>, elements: seq<Expr>, input: Value<N>): Result<seq<Value<N>>>
    decreases elements, 0
  {
    if elements == [] then Done([])
    else
      var last := |elements| - 1;
      match EvaluateElements(a, elements[..last], input)
      case Fails(f) => Fails(f)
      case Done(values) =>
        match Evaluate(a, elements[last], input)
        case Fails(f) => Fails(f)
        case Done(v) => Done(values + [v])
  }

  /** In order, up to the first that fails; a later entry of a key replaces an earlier one. */
  function EvaluateEntries<N(==)>(a: Arithmetic<N>, entries: seq<Entry>, input: Value<N>): Result<map<string, Value<N>>>
    decreases entries, 0
  {
    if entries == [] then Done(map[])
    else
      var last := |entries| - 1;
      match EvaluateEntries(a, entries[..last], input)
      case Fails(f) => Fails(f)
      case Done(fields) =>
        match Evaluate(a, entries[last].value, input)
        case Fails(f) => Fails(f)
        case Done(v) => Done(fields[entries[last].key := v])
  }

  /** The loop over the entries of an object. */
  method BuildObject<N(==)>(a: Arithmetic<N>, entries: seq<Entry>, input: Value<N>) returns (r: Result<Value<N>>)
    ensures r == Evaluate(a, ObjectExpr(entries), input)
  {
    var result: map<string, Value<N>> := map[];
    var i := 0;
    while i < |entries|
      invariant 0 <= i <= |entries|
      invariant EvaluateEntries(a, entries[..i], input) == Done(result)
    {
      assert entries[..i + 1][..i] == entries[..i];
      var value := Evaluate(a, entries[i].value, input);
      if value.Fails? {
        FailureStays(a, entries, i + 1, input);
        return Fails(value.fault);
      }
      result := result[entries[i].key := value.value];
      i := i + 1;
    }
    assert entries[..i] == entries;
    return Done(Object(result));
  }

  /** What fails on the first entries fails so on all. */
  lemma {:induction false} FailureStays<N>(a: Arithmetic<N>, entries: seq<Entry>, n: nat, input: Value<N>)
    requires n <= |entries| && EvaluateEntries(a, entries[..n], input).Fails?
    ensures EvaluateEntries(a, entries, input) == EvaluateEntries(a, entries[..n], input)
    decreases |entries|
  {
    if n == |entries| {
      assert entries[..n] == entries;
    } else {
      assert entries[..|entries| - 1][..n] == entries[..n];
      FailureStays(a, entries[..|entries| - 1], n, input);
    }
  }

  /** `evaluateRestrictedCel`: the input is a string or a JSON-safe number. */
  function EvaluateRestrictedCel<N(==)>(a: Arithmetic<N>, e: Expr, input: Value<N>): Result<Value<N>> {
    if input.Text? then Evaluate(a, e, input)
    else if !input.Number? then Fails(BadInput)
    else if !a.isSafe(input.number) then Fails(NotJsonSafe)
    else Evaluate(a, e, input)
  }

  // -------------------------------------------------------------------------
  // Every number in a result is JSON-safe
  // -------------------------------------------------------------------------

  predicate AllSafe<N>(a: Arithmetic<N>, v: Value<N>)
    decreases v
  {
    match v
    case Number(n) => a.isSafe(n)
    case Array(elements) => forall i :: 0 <= i < |elements| ==> AllSafe(a, elements[i])
    case Object(fields) => forall key :: key in fields ==> AllSafe(a, fields[key])
    case _ => true
  }

  /** Every numeric literal passed the parser's test. */
  predicate SafeLiterals(g: Grammar, e: Expr)
    decreases e
  {
    match e
    case NumberLiteral(digits) => g.isSafe(digits)
    case ArrayExpr(elements) => forall i :: 0 <= i < |elements| ==> SafeLiterals(g, elements[i])
    case ObjectExpr(entries) => forall i :: 0 <= i < |entries| ==> SafeLiterals(g, entries[i].value)
    case Unary(_, operand) => SafeLiterals(g, operand)
    case Binary(_, left, right) => SafeLiterals(g, left) && SafeLiterals(g, right)
    case Conditional(condition, whenTrue, whenFalse) =>
      SafeLiterals(g, condition) && SafeLiterals(g, whenTrue) && SafeLiterals(g, whenFalse)
    case _ => true
  }

  /** The parser tests the literals as the evaluator tests its results. */
  ghost predicate SameTest<N>(g: Grammar, a: Arithmetic<N>) {
    forall digits :: g.isSafe(digits) <==> a.isSafe(a.parse(digits))
  }

  lemma {:induction false} EvaluationIsSafe<N>(g: Grammar, a: Arithmetic<N>, e: Expr, input: Value<N>)
    requires SameTest(g, a) && SafeLiterals(g, e) && AllSafe(a, input)
    ensures Evaluate(a, e, input).Done? ==> AllSafe(a, Evaluate(a, e, input).value)
    decreases e, 1
  {
    hide Operate, EvaluateUnary, SameTest;
    match e
    case NumberLiteral(digits) => LiteralIsSafe(g, a, digits);
    case ArrayExpr(elements) => ElementsAreSafe(g, a, elements, input);
    case ObjectExpr(entries) => EntriesAreSafe(g, a, entries, input);
    case Unary(op, operand) =>
      var v := Evaluate(a, operand, input);
      if v.Done? {
        UnaryIsSafe(a, op, v.value);
      }
    case Binary(op, left, right) =>
      var l, r := Evaluate(a, left, input), Evaluate(a, right, input);
      if l.Done? && r.Done? && !op.And? && !op.Or? {
        OperateIsSafe(a, op, l.value, r.value);
      }
    case Conditional(condition, whenTrue, whenFalse) =>
      EvaluationIsSafe(g, a, whenTrue, input);
      EvaluationIsSafe(g, a, whenFalse, input);
    case _ =>
  }

  lemma UnaryIsSafe<N>(a: Arithmetic<N>, op: UnaryOp, v: Value<N>)
    ensures EvaluateUnary(a, op, v).Done? ==> AllSafe(a, EvaluateUnary(a, op, v).value)
  {
  }

  lemma OperateIsSafe<N>(a: Arithmetic<N>, op: BinaryOp, left: Value<N>, right: Value<N>)
    requires !op.And? && !op.Or?
    ensures Operate(a, op, left, right).Done? ==> AllSafe(a, Operate(a, op, left, right).value)
  {
    hide JsonEquals, Comparison;
  }

  lemma LiteralIsSafe<N>(g: Grammar, a: Arithmetic<N>, digits: string)
    requires SameTest(g, a) && g.isSafe(digits)
    ensures a.isSafe(a.parse(digits))
  {
  }

  lemma {:induction false} ElementsAreSafe<N>(g: Grammar, a: Arithmetic<N>, elements: seq<Expr>, input: Value<N>)
    requires SameTest(g, a) && AllSafe(a, input) && forall i :: 0 <= i < |elements| ==> SafeLiterals(g, elements[i])
    ensures EvaluateElements(a, elements, input).Done? ==>
      forall i :: 0 <= i < |EvaluateElements(a, elements, input).value| ==> AllSafe(a, EvaluateElements(a, elements, input).value[i])
    decreases elements, 0
  {
    hide SameTest, AllSafe, SafeLiterals, Evaluate;
    if elements != [] {
      ElementsAreSafe(g, a, elements[..|elements| - 1], input);
      EvaluationIsSafe(g, a, elements[|elements| - 1], input);
    }
  }

  lemma {:induction false} EntriesAreSafe<N>(g: Grammar, a: Arithmetic<N>, entries: seq<Entry>, input: Value<N>)
    requires SameTest(g, a) && AllSafe(a, input) && forall i :: 0 <= i < |entries| ==> SafeLiterals(g, entries[i].value)
    ensures EvaluateEntries(a, entries, input).Done? ==>
      forall key :: key in EvaluateEntries(a, entries, input).value ==> AllSafe(a, EvaluateEntries(a, entries, input).value[key])
    decreases entries, 0
  {
    hide SameTest, AllSafe, SafeLiterals, Evaluate;
    if entries != [] {
      EntriesAreSafe(g, a, entries[..|entries| - 1], input);
      EvaluationIsSafe(g, a, entries[|entries| - 1].value, input);
    }
  }

  // -------------------------------------------------------------------------
  // What the parser gives has safe literals
  // -------------------------------------------------------------------------

  lemma {:induction false} ParsedLiteralsAreSafe(g: Grammar, level: nat, tokens: seq<Token>, i: nat)
    requires WellEnded(tokens) && i < |tokens| && level <= 8
    ensures Parse(g, level, tokens, i).Ok? ==> SafeLiterals(g, Parse(g, level, tokens, i).value)
    decreases |tokens| - i, 10 - level
  {
    if level == 0 {
      ParsedLiteralsAreSafe(g, 1, tokens, i);
      var c := Parse(g, 1, tokens, i);
      if c.Ok? && tokens[c.next].value == "?" {
        ParsedLiteralsAreSafe(g, 0, tokens, c.next + 1);
        var t := Parse(g, 0, tokens, c.next + 1);
        if t.Ok? && t.next + 1 < |tokens| {
          ParsedLiteralsAreSafe(g, 0, tokens, t.next + 1);
        }
      }
    } else if level <= 6 {
      ParsedLiteralsAreSafe(g, level + 1, tokens, i);
      var first := Parse(g, level + 1, tokens, i);
      if first.Ok? {
        ChainedLiteralsAreSafe(g, level, tokens, first.value, first.next);
      }
    } else if level == 7 {
      if UnaryAt(tokens[i]).Some? {
        ParsedLiteralsAreSafe(g, 7, tokens, i + 1);
      } else {
        ParsedLiteralsAreSafe(g, 8, tokens, i);
      }
    } else {
      PrimaryLiteralsAreSafe(g, tokens, i);
    }
  }

  lemma {:induction false} ChainedLiteralsAreSafe(g: Grammar, level: nat, tokens: seq<Token>, left: Expr, j: nat)
    requires WellEnded(tokens) && j < |tokens| && 1 <= level <= 6 && SafeLiterals(g, left)
    ensures Chain(g, level, tokens, left, j).Ok? ==> SafeLiterals(g, Chain(g, level, tokens, left, j).value)
    decreases |tokens| - j, 10 - level
  {
    var op := OperatorAt(level, tokens[j]);
    if op.Some? {
      ParsedLiteralsAreSafe(g, level + 1, tokens, j + 1);
      var right := Parse(g, level + 1, tokens, j + 1);
      if right.Ok? {
        ChainedLiteralsAreSafe(g, level, tokens, Binary(op.value, left, right.value), right.next);
      }
    }
  }

  lemma {:induction false} PrimaryLiteralsAreSafe(g: Grammar, tokens: seq<Token>, i: nat)
    requires WellEnded(tokens) && i < |tokens|
    ensures Primary(g, tokens, i).Ok? ==> SafeLiterals(g, Primary(g, tokens, i).value)
    decreases |tokens| - i, 1
  {
    if i + 1 < |tokens| {
      ParsedLiteralsAreSafe(g, 0, tokens, i + 1);
      if tokens[i + 1].value != "]" {
        ElementLiteralsAreSafe(g, tokens, i + 1);
      }
      if tokens[i + 1].value != "}" {
        EntryLiteralsAreSafe(g, tokens, i + 1, {});
      }
    }
  }

  lemma {:induction false} ElementLiteralsAreSafe(g: Grammar, tokens: seq<Token>, i: nat)
    requires WellEnded(tokens) && i < |tokens|
    ensures Elements(g, tokens, i).Ok? ==>
      forall k :: 0 <= k < |Elements(g, tokens, i).value| ==> SafeLiterals(g, Elements(g, tokens, i).value[k])
    decreases |tokens| - i, 11
  {
    ParsedLiteralsAreSafe(g, 0, tokens, i);
    var first := Parse(g, 0, tokens, i);
    if first.Ok? && tokens[first.next].value == "," {
      ElementLiteralsAreSafe(g, tokens, first.next + 1);
    }
  }

  lemma {:induction false} EntryLiteralsAreSafe(g: Grammar, tokens: seq<Token>, i: nat, keys: set<string>)
    requires WellEnded(tokens) && i < |tokens|
    ensures Entries(g, tokens, i, keys).Ok? ==>
      forall k :: 0 <= k < |Entries(g, tokens, i, keys).value| ==> SafeLiterals(g, Entries(g, tokens, i, keys).value[k].value)
    decreases |tokens| - i, 11
  {
    if tokens[i].kind.StringToken? && i + 2 < |tokens| {
      ParsedLiteralsAreSafe(g, 0, tokens, i + 2);
      var value := Parse(g, 0, tokens, i + 2);
      if value.Ok? && tokens[value.next].value == "," {
        EntryLiteralsAreSafe(g, tokens, value.next + 1, keys + {tokens[i].value});
      }
    }
  }

  // -------------------------------------------------------------------------
  // Option maps
  // -------------------------------------------------------------------------

  /** `assertObjectResultExpression`. */
  predicate ObjectResult(e: Expr)
    decreases e
  {
    e.ObjectExpr? || (e.Conditional? && ObjectResult(e.whenTrue) && ObjectResult(e.whenFalse))
  }

  lemma {:induction false} ObjectOrFailure<N>(a: Arithmetic<N>, e: Expr, input: Value<N>)
    requires ObjectResult(e)
    ensures Evaluate(a, e, input).Done? ==> Evaluate(a, e, input).value.Object?
    decreases e
  {
    if e.Conditional? {
      ObjectOrFailure(a, e.whenTrue, input);
      ObjectOrFailure(a, e.whenFalse, input);
    }
  }

  /**
   Whatever was parsed and accepted as an option map, on whatever input: a failure, or an object with
   only JSON-safe numbers in it at any depth.
   */
  lemma OptionMapsAreSafeObjects<N>(g: Grammar, a: Arithmetic<N>, tokens: seq<Token>, input: Value<N>)
    requires SameTest(g, a) && WellEnded(tokens)
    ensures ParseAll(g, tokens).Ok? && EvaluateRestrictedCel(a, ParseAll(g, tokens).value, input).Done? ==>
      var result := EvaluateRestrictedCel(a, ParseAll(g, tokens).value, input).value;
      AllSafe(a, result) && (ObjectResult(ParseAll(g, tokens).value) ==> result.Object?)
  {
    ParsedLiteralsAreSafe(g, 0, tokens, 0);
    var parsed := ParseAll(g, tokens);
    if parsed.Ok? && EvaluateRestrictedCel(a, parsed.value, input).Done? {
      hide Parse, SameTest, Evaluate, ObjectResult, SafeLiterals;
      EvaluationIsSafe(g, a, parsed.value, input);
      if ObjectResult(parsed.value) {
        ObjectOrFailure(a, parsed.value, input);
      }
    }
  }

  // -------------------------------------------------------------------------
  // Comparisons
  // -------------------------------------------------------------------------

  lemma {:induction false} TextOrderIsTotal(left: string, right: string)
    ensures TextLess(left, right) || TextLess(right, left) <==> left != right
    ensures !(TextLess(left, right) && TextLess(right, left))
  {
    if left != [] && right != [] && left[0] == right[0] {
      TextOrderIsTotal(left[1..], right[1..]);
      assert left == [left[0]] + left[1..] && right == [right[0]] + right[1..];
    }
  }

  /** What comparing floating-point numbers keeps to: at most one of two numbers is less than the other. */
  ghost predicate Asymmetric<N(!new)>(a: Arithmetic<N>) {
    forall x, y :: !(a.less(x, y) && a.less(y, x))
  }

  /** Different numbers that comparing does not tell apart, as zero and negative zero. */
  predicate Twins<N(==)>(a: Arithmetic<N>, left: Value<N>, right: Value<N>) {
    && left.Number? && right.Number? && left.number != right.number
    && !a.less(left.number, right.number) && !a.less(right.number, left.number)
  }

  predicate Holds<N(==)>(a: Arithmetic<N>, op: BinaryOp, left: Value<N>, right: Value<N>)
    requires !op.And? && !op.Or?
  {
    Operate(a, op, left, right) == Done(Bool(true))
  }

  /**
   Where two values compare at all, at most one of `<`, `==` and `>` holds, and one does unless they
   are twins; the other operators are the negations. So `<=` means less or equal except on twins.
   */
  lemma ComparisonsAgree<N(!new)>(a: Arithmetic<N>, left: Value<N>, right: Value<N>)
    requires Asymmetric(a) && Comparison(a, left, right).Done?
    ensures !(Holds(a, Lt, left, right) && Holds(a, Gt, left, right))
    ensures Holds(a, Eq, left, right) ==> !Holds(a, Lt, left, right) && !Holds(a, Gt, left, right)
    ensures Holds(a, Lt, left, right) || Holds(a, Eq, left, right) || Holds(a, Gt, left, right) <==> !Twins(a, left, right)
    ensures Holds(a, Le, left, right) <==> !Holds(a, Gt, left, right)
    ensures Holds(a, Ge, left, right) <==> !Holds(a, Lt, left, right)
    ensures Holds(a, Ne, left, right) <==> !Holds(a, Eq, left, right)
    ensures (Holds(a, Le, left, right) <==> Holds(a, Lt, left, right) || Holds(a, Eq, left, right)) <==> !Twins(a, left, right)
    ensures (Holds(a, Ge, left, right) <==> Holds(a, Gt, left, right) || Holds(a, Eq, left, right)) <==> !Twins(a, left, right)
  {
    JsonEqualsIsEquality(left, right);
    if left.Text? {
      TextOrderIsTotal(left.text, right.text);
    } else {
      assert a.less(left.number, right.number) ==> !a.less(right.number, left.number);
    }
    hide JsonEquals, TextLess;
  }

  /** Whole numbers and a negative zero: enough of floating point for the example. */
  datatype Double = Whole(value: int) | NegativeZero

  function AsInt(x: Double): int {
    if x.Whole? then x.value else 0
  }

  const DOUBLES := Arithmetic(
    (digits: string) => Whole(|digits|),
    (x: Double) => -0x20_0000_0000_0000 < AsInt(x) < 0x20_0000_0000_0000,
    (x: Double) => if x == Whole(0) then NegativeZero else Whole(-AsInt(x)),
    (x: Double, y: Double) => if x == y == NegativeZero then x else Whole(AsInt(x) + AsInt(y)),
    (x: Double, y: Double) => if x == NegativeZero && y == Whole(0) then x else Whole(AsInt(x) - AsInt(y)),
    (x: Double, y: Double) => Whole(AsInt(x) * AsInt(y)),
    (x: Double, y: Double) => x,
    (x: Double, y: Double) => x,
    (x: Double, y: Double) => AsInt(x) < AsInt(y))

  lemma AgainstItsNegation(op: BinaryOp)
    requires !op.And? && !op.Or?
    ensures var input, negated := Number(Whole(0)), Unary(Neg, Input);
      && EvaluateRestrictedCel(DOUBLES, negated, input) == Done(Number(NegativeZero))
      && EvaluateRestrictedCel(DOUBLES, Binary(op, Input, negated), input)
           == Operate(DOUBLES, op, input, Number(NegativeZero))
  {
    hide Operate;
    var input := Number(Whole(0));
    assert Evaluate(DOUBLES, Input, input) == Done(input);
    assert Evaluate(DOUBLES, Unary(Neg, Input), input) == Done(Number(NegativeZero));
  }

  /** Twins are real: on input zero the input and its negation are neither less, equal nor greater. */
  lemma ZeroAgainstItsNegation()
    ensures var input, negated := Number(Whole(0)), Unary(Neg, Input);
      && Asymmetric(DOUBLES) && Twins(DOUBLES, input, Number(NegativeZero))
      && EvaluateRestrictedCel(DOUBLES, Binary(Eq, Input, negated), input) == Done(Bool(false))
      && EvaluateRestrictedCel(DOUBLES, Binary(Lt, Input, negated), input) == Done(Bool(false))
      && EvaluateRestrictedCel(DOUBLES, Binary(Gt, Input, negated), input) == Done(Bool(false))
      && EvaluateRestrictedCel(DOUBLES, Binary(Le, Input, negated), input) == Done(Bool(true))
      && EvaluateRestrictedCel(DOUBLES, Binary(Ge, Input, negated), input) == Done(Bool(true))
  {
    forall op: BinaryOp | !op.And? && !op.Or?
      ensures EvaluateRestrictedCel(DOUBLES, Binary(op, Input, Unary(Neg, Input)), Number(Whole(0)))
        == Operate(DOUBLES, op, Number(Whole(0)), Number(NegativeZero))
    {
      AgainstItsNegation(op);
    }
    hide EvaluateRestrictedCel, Evaluate;
  }
}
