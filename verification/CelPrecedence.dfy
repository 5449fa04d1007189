/**
 How operators bind, from the symbols alone: six groups, each applied from the left, below them the
 conditional, which nests to the right, and above them the signs.
 */
module CelPrecedence {
  import opened CelSyntax
  import opened CelParser
  import opened CelRoundTrip
  import CelTightness
  import opened Prelude

  // -------------------------------------------------------------------------
  // Symbols
  // -------------------------------------------------------------------------

  /** The groups of operators, the loosest first. */
  const GROUPS: seq<set<string>> := [{"||"}, {"&&"}, {"==", "!="}, {"<", "<=", ">", ">="}, {"+", "-"}, {"*", "/", "%"}]

  predicate Binds(symbol: string, group: int) {
    0 <= group < |GROUPS| && symbol in GROUPS[group]
  }

  /** One operator is in a tighter group than another. */
  ghost predicate Tighter(symbol: string, other: string) {
    exists i, j :: i > j && Binds(symbol, i) && Binds(other, j)
  }

  function BinarySymbol(op: BinaryOp): string {
    match op
    case Or => "||" case And => "&&" case Eq => "==" case Ne => "!="
    case Lt => "<" case Le => "<=" case Gt => ">" case Ge => ">="
    case Add => "+" case Sub => "-" case Mul => "*" case Div => "/" case Mod => "%"
  }

  function SignOf(op: UnaryOp): string {
    match op case Not => "!" case Neg => "-" case Plus => "+"
  }

  /** What one token by itself stands for. */
  function Single(g: Grammar, token: Token): Option<Expr> {
    if token.kind.NumberToken? then (if g.isSafe(token.value) then Some(NumberLiteral(token.value)) else None)
    else if token.kind.StringToken? then Some(StringLiteral(token.value))
    else if !token.kind.Identifier? then None
    else if token.value == g.variable then Some(Input)
    else if token.value == "true" then Some(BoolLiteral(true))
    else if token.value == "false" then Some(BoolLiteral(false))
    else if token.value == "null" then Some(NullLiteral)
    else None
  }

  // -------------------------------------------------------------------------
  // Expressions without parentheses
  // -------------------------------------------------------------------------

  /** Made of single tokens, signs, operators and conditionals. */
  predicate Flat(e: Expr)
    decreases e
  {
    match e
    case Unary(_, operand) => Flat(operand)
    case Binary(_, left, right) => Flat(left) && Flat(right)
    case Conditional(condition, whenTrue, whenFalse) => Flat(condition) && Flat(whenTrue) && Flat(whenFalse)
    case ArrayExpr(_) => false
    case ObjectExpr(_) => false
    case _ => true
  }

  /** The tokens are those of the expression from left to right, without any parentheses. */
  ghost predicate Reads(g: Grammar, tokens: seq<Token>, e: Expr)
    decreases e
  {
    match e
    case Unary(op, operand) =>
      tokens != [] && tokens[0].kind.Operator? && tokens[0].value == SignOf(op) && Reads(g, tokens[1..], operand)
    case Binary(op, left, right) =>
      exists k :: OperatorStands(tokens, k, BinarySymbol(op)) && Reads(g, tokens[..k], left) && Reads(g, tokens[k + 1..], right)
    case Conditional(c, t, f) =>
      exists k, l ::
        && PunctuationStands(tokens, k, "?") && k < l && PunctuationStands(tokens, l, ":")
        && Reads(g, tokens[..k], c) && Reads(g, tokens[k + 1..l], t) && Reads(g, tokens[l + 1..], f)
    case _ => |tokens| == 1 && Single(g, tokens[0]) == Some(e)
  }

  predicate OperatorStands(tokens: seq<Token>, k: int, symbol: string) {
    0 <= k < |tokens| && tokens[k].kind.Operator? && tokens[k].value == symbol
  }

  predicate PunctuationStands(tokens: seq<Token>, k: int, value: string) {
    0 <= k < |tokens| && tokens[k].kind.Punctuation? && tokens[k].value == value
  }

  /**
   Every operator stands where its group has it: an operand on the left is not looser, one on the right
   is tighter; conditionals are only inside conditionals, and not in front.
   */
  ghost predicate WellNested(e: Expr)
    decreases e
  {
    match e
    case Unary(_, operand) => WellNested(operand) && !operand.Binary? && !operand.Conditional?
    case Binary(op, left, right) =>
      && WellNested(left) && !left.Conditional? && (left.Binary? ==> !Tighter(BinarySymbol(op), BinarySymbol(left.op)))
      && WellNested(right) && !right.Conditional? && (right.Binary? ==> Tighter(BinarySymbol(right.op), BinarySymbol(op)))
    case Conditional(c, t, f) => WellNested(c) && !c.Conditional? && WellNested(t) && WellNested(f)
    case _ => true
  }

  // -------------------------------------------------------------------------
  // What the parser's table comes to
  // -------------------------------------------------------------------------

  lemma SymbolsAgree(op: BinaryOp)
    ensures BinarySymbol(op) == Symbol(op)
    ensures forall group :: Binds(BinarySymbol(op), group) <==> group == Level(op) - 1
  {
  }

  lemma TighterIsLevel(op: BinaryOp, other: BinaryOp)
    ensures Tighter(BinarySymbol(op), BinarySymbol(other)) <==> Level(op) > Level(other)
  {
    SymbolsAgree(op);
    SymbolsAgree(other);
    hide Binds, BinarySymbol, Level;
    if Level(op) > Level(other) {
      assert Binds(BinarySymbol(op), Level(op) - 1) && Binds(BinarySymbol(other), Level(other) - 1);
    }
  }

  lemma SignsAgree(op: UnaryOp)
    ensures SignOf(op) == UnarySymbol(op)
  {
  }

  // -------------------------------------------------------------------------
  // Printing puts parentheses exactly where the nesting is not so
  // -------------------------------------------------------------------------

  /** The printed tokens are these, or more of them. */
  predicate PrintsAs(tokens: seq<Token>, printed: seq<Token>, exactly: bool) {
    if exactly then |printed| == |tokens| && Matches(tokens, 0, printed) else |printed| > |tokens|
  }

  lemma PartsJoin(tokens: seq<Token>, k: nat, a: seq<Token>, exactA: bool, b: Token, c: seq<Token>, exactC: bool)
    requires k < |tokens| && tokens[k].kind == b.kind && tokens[k].value == b.value
    requires PrintsAs(tokens[..k], a, exactA) && PrintsAs(tokens[k + 1..], c, exactC)
    ensures PrintsAs(tokens, a + [b] + c, exactA && exactC)
  {
    if exactA && exactC {
      var printed := a + [b] + c;
      forall i | 0 <= i < |printed|
        ensures tokens[0 + i].kind == printed[i].kind && tokens[0 + i].value == printed[i].value
      {
        if i < k {
          assert tokens[..k][0 + i] == tokens[i];
        } else if i > k {
          assert tokens[k + 1..][0 + (i - k - 1)] == tokens[i];
        }
      }
    }
  }

  lemma FirstJoins(tokens: seq<Token>, b: Token, c: seq<Token>, exactC: bool)
    requires tokens != [] && tokens[0].kind == b.kind && tokens[0].value == b.value && PrintsAs(tokens[1..], c, exactC)
    ensures PrintsAs(tokens, [b] + c, exactC)
  {
    if exactC {
      var printed := [b] + c;
      forall i | 0 <= i < |printed|
        ensures tokens[0 + i].kind == printed[i].kind && tokens[0 + i].value == printed[i].value
      {
        if i > 0 {
          assert tokens[1..][0 + (i - 1)] == tokens[i];
        }
      }
    }
  }

  lemma Wrapped(tokens: seq<Token>, level: nat, e: Expr, variable: string, exactly: bool)
    requires PrintsAs(tokens, Body(e, variable), exactly)
    ensures PrintsAs(tokens, Print(level, e, variable), exactly && level <= Tightness(e))
  {
    hide Body;
  }

  /** The operand of a group is printed bare exactly if it is not looser. */
  lemma Bare(op: BinaryOp, e: Expr)
    ensures Level(op) <= Tightness(e) <==> !e.Conditional? && (e.Binary? ==> !Tighter(BinarySymbol(op), BinarySymbol(e.op)))
    ensures Level(op) + 1 <= Tightness(e) <==> !e.Conditional? && (e.Binary? ==> Tighter(BinarySymbol(e.op), BinarySymbol(op)))
  {
    if e.Binary? {
      TighterIsLevel(op, e.op);
      TighterIsLevel(e.op, op);
    }
    hide Tighter, BinarySymbol;
  }

  lemma SinglePrints(g: Grammar, tokens: seq<Token>, e: Expr)
    requires g.Valid() && |tokens| == 1 && Single(g, tokens[0]) == Some(e)
    ensures PrintsAs(tokens, Body(e, g.variable), true) && Parseable(g, e)
  {
  }

  lemma {:induction false} FlatPrints(g: Grammar, tokens: seq<Token>, e: Expr)
    requires g.Valid() && Flat(e) && Reads(g, tokens, e)
    ensures PrintsAs(tokens, Body(e, g.variable), WellNested(e)) && Parseable(g, e)
    decreases e
  {
    hide PrintsAs, Print, Tighter, BinarySymbol, SignOf, Matches;
    match e
    case Unary(op, operand) =>
      SignsAgree(op);
      FlatPrints(g, tokens[1..], operand);
      Wrapped(tokens[1..], 7, operand, g.variable, WellNested(operand));
      FirstJoins(tokens, Sign(UnarySymbol(op)), Print(7, operand, g.variable), WellNested(e));
    case Binary(op, left, right) =>
      var k :| OperatorStands(tokens, k, BinarySymbol(op)) && Reads(g, tokens[..k], left) && Reads(g, tokens[k + 1..], right);
      FlatPrints(g, tokens[..k], left);
      FlatPrints(g, tokens[k + 1..], right);
      BinaryPrints(g, tokens, k, op, left, right);
    case Conditional(c, t, f) =>
      var k, l :|
        && PunctuationStands(tokens, k, "?") && k < l && PunctuationStands(tokens, l, ":")
        && Reads(g, tokens[..k], c) && Reads(g, tokens[k + 1..l], t) && Reads(g, tokens[l + 1..], f);
      FlatPrints(g, tokens[..k], c);
      FlatPrints(g, tokens[k + 1..l], t);
      FlatPrints(g, tokens[l + 1..], f);
      ConditionalPrints(g, tokens, k, l, c, t, f);
    case _ => SinglePrints(g, tokens, e);
  }

  lemma BinaryPrints(g: Grammar, tokens: seq<Token>, k: nat, op: BinaryOp, left: Expr, right: Expr)
    requires OperatorStands(tokens, k, BinarySymbol(op))
    requires PrintsAs(tokens[..k], Body(left, g.variable), WellNested(left))
    requires PrintsAs(tokens[k + 1..], Body(right, g.variable), WellNested(right))
    ensures PrintsAs(tokens, Body(Binary(op, left, right), g.variable), WellNested(Binary(op, left, right)))
  {
    var v, n := g.variable, Level(op);
    SymbolsAgree(op);
    Bare(op, left);
    Bare(op, right);
    Wrapped(tokens[..k], n, left, v, WellNested(left));
    Wrapped(tokens[k + 1..], n + 1, right, v, WellNested(right));
    CelTightness.PrintBinary(g, op, left, right);
    CelTightness.Unwrapped(n, Binary(op, left, right), v);
    hide PrintsAs, Print, Body, Tighter, BinarySymbol, Level;
    PartsJoin(tokens, k, Print(n, left, v), WellNested(left) && n <= Tightness(left), Sign(Symbol(op)),
              Print(n + 1, right, v), WellNested(right) && n + 1 <= Tightness(right));
  }

  lemma ConditionalPrints(g: Grammar, tokens: seq<Token>, k: nat, l: nat, c: Expr, t: Expr, f: Expr)
    requires PunctuationStands(tokens, k, "?") && k < l && PunctuationStands(tokens, l, ":")
    requires PrintsAs(tokens[..k], Body(c, g.variable), WellNested(c))
    requires PrintsAs(tokens[k + 1..l], Body(t, g.variable), WellNested(t))
    requires PrintsAs(tokens[l + 1..], Body(f, g.variable), WellNested(f))
    ensures PrintsAs(tokens, Body(Conditional(c, t, f), g.variable), WellNested(Conditional(c, t, f)))
  {
    var v := g.variable;
    Wrapped(tokens[..k], 1, c, v, WellNested(c));
    Wrapped(tokens[k + 1..l], 0, t, v, WellNested(t));
    Wrapped(tokens[l + 1..], 0, f, v, WellNested(f));
    CelTightness.PrintConditional(g, c, t, f);
    CelTightness.Unwrapped(0, Conditional(c, t, f), v);
    hide PrintsAs, Print, Body;
    var front := tokens[..l];
    assert front[..k] == tokens[..k] && front[k + 1..] == tokens[k + 1..l] && front[k] == tokens[k];
    PartsJoin(front, k, Print(1, c, v), WellNested(c) && 1 <= Tightness(c), Punct("?"), Print(0, t, v), WellNested(t));
    PartsJoin(tokens, l, Print(1, c, v) + [Punct("?")] + Print(0, t, v), WellNested(c) && 1 <= Tightness(c) && WellNested(t),
              Punct(":"), Print(0, f, v), WellNested(f));
  }

  // -------------------------------------------------------------------------
  // What is parsed
  // -------------------------------------------------------------------------

  /**
   Of the expressions that read as some tokens without parentheses, the parser gives the one that is
   nested as the groups have it, and no other; and it reads everything.
   */
  lemma FlatParsesIffWellNested(g: Grammar, tokens: seq<Token>, e: Expr)
    requires g.Valid() && WellEnded(tokens) && Flat(e) && Reads(g, tokens[..|tokens| - 1], e)
    ensures (ParseAll(g, tokens).Ok? && ParseAll(g, tokens).value == e) <==> WellNested(e)
    ensures WellNested(e) ==> ParseAll(g, tokens) == Ok(e, |tokens| - 1)
  {
    var end := |tokens| - 1;
    FlatPrints(g, tokens[..end], e);
    hide Body, Flat, Reads, WellNested;
    Wrapped(tokens[..end], 0, e, g.variable, WellNested(e));
    hide Print;
    if WellNested(e) {
      var printed := Print(0, e, g.variable);
      forall k | 0 <= k < |printed|
        ensures tokens[0 + k].kind == printed[k].kind && tokens[0 + k].value == printed[k].value
      {
        assert tokens[..end][0 + k] == tokens[k];
      }
      hide Parseable, ParseAll;
      CelTightness.RoundTripExactly(g, e, tokens);
    } else {
      CelTightness.ParseIsTight(g, 0, tokens, 0);
      hide Parse, Parseable;
    }
  }

  // -------------------------------------------------------------------------
  // Chains of operators
  // -------------------------------------------------------------------------

  /** Operands with operators between them, from left to right. */
  ghost predicate ReadsChain(g: Grammar, tokens: seq<Token>, operands: seq<Expr>, ops: seq<BinaryOp>)
    requires |operands| == |ops| + 1
    decreases |ops|
  {
    if ops == [] then Reads(g, tokens, operands[0])
    else
      exists k :: OperatorStands(tokens, k, BinarySymbol(ops[0])) && Reads(g, tokens[..k], operands[0])
        && ReadsChain(g, tokens[k + 1..], operands[1..], ops[1..])
  }

  /** The operator applied last: the last one of the loosest group there is. */
  function AppliedLast(ops: seq<BinaryOp>): (k: nat)
    requires ops != []
    ensures k < |ops|
    ensures forall j :: 0 <= j < k ==> Level(ops[k]) <= Level(ops[j])
    ensures forall j :: k < j < |ops| ==> Level(ops[k]) < Level(ops[j])
  {
    var last := |ops| - 1;
    if last == 0 then 0
    else
      var before := AppliedLast(ops[..last]);
      if Level(ops[last]) <= Level(ops[before]) then last else before
  }

  /** In terms of the groups: nothing in front of it is looser, and all behind it is tighter. */
  lemma AppliedLastIsLoosest(ops: seq<BinaryOp>, j: nat)
    requires ops != [] && j < |ops|
    ensures var k := AppliedLast(ops);
      && (j < k ==> !Tighter(BinarySymbol(ops[k]), BinarySymbol(ops[j])))
      && (j > k ==> Tighter(BinarySymbol(ops[j]), BinarySymbol(ops[k])))
  {
    TighterIsLevel(ops[AppliedLast(ops)], ops[j]);
    TighterIsLevel(ops[j], ops[AppliedLast(ops)]);
  }

  function Tree(operands: seq<Expr>, ops: seq<BinaryOp>): Expr
    requires |operands| == |ops| + 1
    decreases |ops|
  {
    if ops == [] then operands[0]
    else
      var k := AppliedLast(ops);
      Binary(ops[k], Tree(operands[..k + 1], ops[..k]), Tree(operands[k + 1..], ops[k + 1..]))
  }

  /** Operands that a sign or a single token makes. */
  ghost predicate AreOperands(operands: seq<Expr>) {
    forall i :: 0 <= i < |operands| ==>
      Flat(operands[i]) && WellNested(operands[i]) && !operands[i].Binary? && !operands[i].Conditional?
  }

  /** A chain of operands, cut at one of its operators. */
  lemma {:induction false} ChainCut(g: Grammar, tokens: seq<Token>, operands: seq<Expr>, ops: seq<BinaryOp>, m: nat) returns (k: nat)
    requires |operands| == |ops| + 1 && m < |ops| && ReadsChain(g, tokens, operands, ops)
    ensures k < |tokens| && OperatorStands(tokens, k, BinarySymbol(ops[m]))
    ensures ReadsChain(g, tokens[..k], operands[..m + 1], ops[..m]) && ReadsChain(g, tokens[k + 1..], operands[m + 1..], ops[m + 1..])
    decreases m
  {
    hide Reads, BinarySymbol, ReadsChain, OperatorStands;
    var first := ChainHead(g, tokens, operands, ops);
    if m == 0 {
      k := first;
      ChainOne(g, tokens[..first], operands);
      assert ops[..0] == [];
    } else {
      var rest := tokens[first + 1..];
      var inner := ChainCut(g, rest, operands[1..], ops[1..], m - 1);
      k := first + 1 + inner;
      StandsBehind(tokens, first + 1, inner, BinarySymbol(ops[m]));
      assert operands[1..][..m] == operands[1..m + 1] && ops[1..][..m - 1] == ops[1..m];
      assert operands[1..][m..] == operands[m + 1..] && ops[1..][m..] == ops[m + 1..];
      assert rest[inner + 1..] == tokens[k + 1..] && rest[..inner] == tokens[first + 1..k];
      ChainFront(g, tokens, first, k, operands, ops, m);
    }
  }

  lemma ChainHead(g: Grammar, tokens: seq<Token>, operands: seq<Expr>, ops: seq<BinaryOp>) returns (k: nat)
    requires |operands| == |ops| + 1 && ops != [] && ReadsChain(g, tokens, operands, ops)
    ensures k < |tokens| && OperatorStands(tokens, k, BinarySymbol(ops[0])) && Reads(g, tokens[..k], operands[0])
    ensures ReadsChain(g, tokens[k + 1..], operands[1..], ops[1..])
  {
    hide Reads, BinarySymbol;
    var first :| OperatorStands(tokens, first, BinarySymbol(ops[0])) && Reads(g, tokens[..first], operands[0])
      && ReadsChain(g, tokens[first + 1..], operands[1..], ops[1..]);
    k := first;
  }

  lemma ChainOne(g: Grammar, tokens: seq<Token>, operands: seq<Expr>)
    requires operands != [] && Reads(g, tokens, operands[0])
    ensures ReadsChain(g, tokens, operands[..1], [])
  {
    hide Reads;
  }

  lemma StandsBehind(tokens: seq<Token>, n: nat, k: nat, symbol: string)
    requires n <= |tokens| && OperatorStands(tokens[n..], k, symbol)
    ensures n + k < |tokens| && OperatorStands(tokens, n + k, symbol)
  {
  }

  lemma ChainFront(g: Grammar, tokens: seq<Token>, first: int, k: nat, operands: seq<Expr>, ops: seq<BinaryOp>, m: nat)
    requires |operands| == |ops| + 1 && 0 < m < |ops| && 0 <= first < k <= |tokens|
    requires OperatorStands(tokens, first, BinarySymbol(ops[0])) && Reads(g, tokens[..first], operands[0])
    requires ReadsChain(g, tokens[first + 1..k], operands[1..m + 1], ops[1..m])
    ensures ReadsChain(g, tokens[..k], operands[..m + 1], ops[..m])
  {
    hide Reads, BinarySymbol;
    var front := tokens[..k];
    assert operands[..m + 1][1..] == operands[1..m + 1] && ops[..m][1..] == ops[1..m];
    assert front[..first] == tokens[..first] && front[first + 1..] == tokens[first + 1..k];
    assert OperatorStands(front, first, BinarySymbol(ops[..m][0]));
  }

  lemma {:induction false} TreeReads(g: Grammar, tokens: seq<Token>, operands: seq<Expr>, ops: seq<BinaryOp>)
    requires |operands| == |ops| + 1 && ReadsChain(g, tokens, operands, ops)
    ensures Reads(g, tokens, Tree(operands, ops))
    decreases |ops|
  {
    hide Reads, ReadsChain, BinarySymbol, AppliedLast, OperatorStands;
    if ops == [] {
      ChainNone(g, tokens, operands);
    } else {
      var m := AppliedLast(ops);
      var k := ChainCut(g, tokens, operands, ops, m);
      TreeReads(g, tokens[..k], operands[..m + 1], ops[..m]);
      TreeReads(g, tokens[k + 1..], operands[m + 1..], ops[m + 1..]);
      BinaryReads(g, tokens, k, ops[m], Tree(operands[..m + 1], ops[..m]), Tree(operands[m + 1..], ops[m + 1..]));
    }
  }

  lemma ChainNone(g: Grammar, tokens: seq<Token>, operands: seq<Expr>)
    requires |operands| == 1 && ReadsChain(g, tokens, operands, [])
    ensures Reads(g, tokens, operands[0])
  {
    hide Reads;
  }

  lemma BinaryReads(g: Grammar, tokens: seq<Token>, k: nat, op: BinaryOp, left: Expr, right: Expr)
    requires k < |tokens| && OperatorStands(tokens, k, BinarySymbol(op))
    requires Reads(g, tokens[..k], left) && Reads(g, tokens[k + 1..], right)
    ensures Reads(g, tokens, Binary(op, left, right))
  {
    hide BinarySymbol, OperatorStands;
  }

  lemma {:induction false} TreeIsNested(operands: seq<Expr>, ops: seq<BinaryOp>)
    requires |operands| == |ops| + 1 && AreOperands(operands)
    ensures Flat(Tree(operands, ops)) && WellNested(Tree(operands, ops)) && !Tree(operands, ops).Conditional?
    ensures Tree(operands, ops).Binary? ==> Tree(operands, ops).op in ops
    decreases |ops|
  {
    hide Flat, WellNested, AppliedLast, Tighter, BinarySymbol;
    if ops != [] {
      var k := AppliedLast(ops);
      TreeIsNested(operands[..k + 1], ops[..k]);
      TreeIsNested(operands[k + 1..], ops[k + 1..]);
      var left, right := Tree(operands[..k + 1], ops[..k]), Tree(operands[k + 1..], ops[k + 1..]);
      assert Tree(operands, ops) == Binary(ops[k], left, right);
      hide Tree, AreOperands;
      if left.Binary? {
        InFront(ops, left.op);
      }
      if right.Binary? {
        Behind(ops, right.op);
      }
      BothNested(ops[k], left, right);
    }
  }

  lemma InFront(ops: seq<BinaryOp>, op: BinaryOp)
    requires ops != [] && op in ops[..AppliedLast(ops)]
    ensures !Tighter(BinarySymbol(ops[AppliedLast(ops)]), BinarySymbol(op))
  {
    hide AppliedLast;
    var j :| 0 <= j < AppliedLast(ops) && ops[j] == op;
    AppliedLastIsLoosest(ops, j);
  }

  lemma Behind(ops: seq<BinaryOp>, op: BinaryOp)
    requires ops != [] && op in ops[AppliedLast(ops) + 1..]
    ensures Tighter(BinarySymbol(op), BinarySymbol(ops[AppliedLast(ops)]))
  {
    hide AppliedLast;
    var j :| AppliedLast(ops) < j < |ops| && ops[j] == op;
    AppliedLastIsLoosest(ops, j);
  }

  lemma BothNested(op: BinaryOp, left: Expr, right: Expr)
    requires Flat(left) && WellNested(left) && !left.Conditional?
    requires Flat(right) && WellNested(right) && !right.Conditional?
    requires left.Binary? ==> !Tighter(BinarySymbol(op), BinarySymbol(left.op))
    requires right.Binary? ==> Tighter(BinarySymbol(right.op), BinarySymbol(op))
    ensures Flat(Binary(op, left, right)) && WellNested(Binary(op, left, right))
  {
    hide Tighter, BinarySymbol;
  }

  /** A chain of any length is parsed by splitting it at the last operator of its loosest group, and so on. */
  lemma ChainParses(g: Grammar, tokens: seq<Token>, operands: seq<Expr>, ops: seq<BinaryOp>)
    requires g.Valid() && WellEnded(tokens)
    requires |operands| == |ops| + 1 && AreOperands(operands) && ReadsChain(g, tokens[..|tokens| - 1], operands, ops)
    ensures ParseAll(g, tokens) == Ok(Tree(operands, ops), |tokens| - 1)
  {
    TreeReads(g, tokens[..|tokens| - 1], operands, ops);
    TreeIsNested(operands, ops);
    hide ReadsChain, Tree, Reads, Flat, WellNested, ParseAll;
    FlatParsesIffWellNested(g, tokens, Tree(operands, ops));
  }

  /** Of two operators, the second is applied first exactly if its group is tighter. */
  lemma TwoOperators(g: Grammar, tokens: seq<Token>, a: Expr, op: BinaryOp, b: Expr, op': BinaryOp, c: Expr)
    requires g.Valid() && WellEnded(tokens) && |tokens| == 6
    requires Single(g, tokens[0]) == Some(a) && Single(g, tokens[2]) == Some(b) && Single(g, tokens[4]) == Some(c)
    requires OperatorStands(tokens, 1, BinarySymbol(op)) && OperatorStands(tokens, 3, BinarySymbol(op'))
    ensures ParseAll(g, tokens) == Ok(
      if Tighter(BinarySymbol(op'), BinarySymbol(op)) then Binary(op, a, Binary(op', b, c)) else Binary(op', Binary(op, a, b), c), 5)
  {
    var body := tokens[..5];
    SingleReads(g, body[..1], a);
    SingleReads(g, body[2..3], b);
    SingleReads(g, body[4..], c);
    hide Tighter, BinarySymbol, ParseAll, Single, Reads, WellNested, Flat;
    if Tighter(BinarySymbol(op'), BinarySymbol(op)) {
      var right, e := body[2..], Binary(op, a, Binary(op', b, c));
      assert right[..1] == body[2..3] && right[2..] == body[4..] && right[1] == tokens[3];
      BinaryReads(g, right, 1, op', b, c);
      BinaryReads(g, body, 1, op, a, Binary(op', b, c));
      BothNested(op', b, c);
      BothNested(op, a, Binary(op', b, c));
      FlatParsesIffWellNested(g, tokens, e);
    } else {
      var left, e := body[..3], Binary(op', Binary(op, a, b), c);
      assert left[..1] == body[..1] && left[2..] == body[2..3] && left[1] == tokens[1];
      BinaryReads(g, left, 1, op, a, b);
      BinaryReads(g, body, 3, op', Binary(op, a, b), c);
      BothNested(op, a, b);
      BothNested(op', Binary(op, a, b), c);
      FlatParsesIffWellNested(g, tokens, e);
    }
  }

  lemma SingleReads(g: Grammar, tokens: seq<Token>, e: Expr)
    requires |tokens| == 1 && Single(g, tokens[0]) == Some(e)
    ensures Flat(e) && Reads(g, tokens, e) && WellNested(e) && !e.Binary? && !e.Conditional?
  {
  }
}
