/** Parsing inverts printing, exactly on the expressions whose printing the parser can tell apart. */
module CelRoundTrip {
  import opened CelSyntax
  import opened CelParser
  import opened Prelude

  // -------------------------------------------------------------------------
  // Which expressions
  // -------------------------------------------------------------------------

  /**
   Numbers are JSON-safe and keys unique, as the parser demands; and, because a closing bracket is
   recognised by its text alone, no array begins with a token reading "]" and no object with a key "}".
   */
  predicate Parseable(g: Grammar, e: Expr)
    decreases e, 1
  {
    match e
    case NumberLiteral(digits) => g.isSafe(digits)
    case ArrayExpr(elements) =>
      && (elements != [] ==> Print(0, elements[0], g.variable)[0].value != "]")
      && ParseableElements(g, elements)
    case ObjectExpr(entries) =>
      && (entries != [] ==> entries[0].key != "}")
      && ParseableEntries(g, entries, {})
    case Unary(_, operand) => Parseable(g, operand)
    case Binary(_, left, right) => Parseable(g, left) && Parseable(g, right)
    case Conditional(condition, whenTrue, whenFalse) =>
      Parseable(g, condition) && Parseable(g, whenTrue) && Parseable(g, whenFalse)
    case _ => true
  }

  predicate ParseableElements(g: Grammar, elements: seq<Expr>)
    decreases elements, 0
  {
    elements != [] ==> Parseable(g, elements[0]) && ParseableElements(g, elements[1..])
  }

  predicate ParseableEntries(g: Grammar, entries: seq<Entry>, keys: set<string>)
    decreases entries, 0
  {
    entries != [] ==>
      && entries[0].key !in keys
      && Parseable(g, entries[0].value)
      && ParseableEntries(g, entries[1..], keys + {entries[0].key})
  }

  // -------------------------------------------------------------------------
  // Token lists that read as a printing
  // -------------------------------------------------------------------------

  /** The tokens from `i` on are the printed ones, wherever they stand in the source text. */
  predicate Matches(tokens: seq<Token>, i: nat, printed: seq<Token>) {
    && i + |printed| <= |tokens|
    && forall k :: 0 <= k < |printed| ==>
         tokens[i + k].kind == printed[k].kind && tokens[i + k].value == printed[k].value
  }

  lemma MatchesConcat(tokens: seq<Token>, i: nat, left: seq<Token>, right: seq<Token>)
    requires Matches(tokens, i, left + right)
    ensures Matches(tokens, i, left) && Matches(tokens, i + |left|, right)
  {
    var both := left + right;
    forall k | 0 <= k < |left|
      ensures tokens[i + k].kind == left[k].kind && tokens[i + k].value == left[k].value
    {
      assert both[k] == left[k];
    }
    forall k | 0 <= k < |right|
      ensures tokens[i + |left| + k].kind == right[k].kind && tokens[i + |left| + k].value == right[k].value
    {
      assert both[|left| + k] == right[k];
    }
  }

  lemma MatchesOne(tokens: seq<Token>, i: nat, token: Token)
    requires Matches(tokens, i, [token])
    ensures i < |tokens| && tokens[i].kind == token.kind && tokens[i].value == token.value
  {
    assert [token][0] == token && tokens[i + 0] == tokens[i];
  }

  /** A token after which an expression at `level` ends. */
  predicate Ends(level: nat, token: Token) {
    && (forall l: nat :: level <= l && 1 <= l <= 6 ==> OperatorAt(l, token) == None)
    && (level == 0 ==> token.value != "?")
    && token.value != "("
  }

  lemma PunctuationEnds(token: Token)
    requires !token.kind.Operator? && token.value !in {"?", "("}
    ensures Ends(0, token)
  {
  }

  lemma QuestionEnds(token: Token)
    requires !token.kind.Operator? && token.value == "?"
    ensures Ends(1, token)
  {
  }

  lemma OperatorEnds(op: BinaryOp, token: Token)
    requires token.kind.Operator? && token.value == Symbol(op)
    ensures Ends(Level(op) + 1, token) && OperatorAt(Level(op), token) == Some(op)
  {
    SymbolFound(op, token.offset);
    assert token == Token(Operator, Symbol(op), token.offset);
  }

  // -------------------------------------------------------------------------
  // Printing, then parsing
  // -------------------------------------------------------------------------

  /** An expression parsed at a tight level is also parsed at a looser one, if it ends there. */
  lemma {:induction false} Ascend(g: Grammar, from: nat, to: nat, tokens: seq<Token>, i: nat, e: Expr, j: nat)
    requires WellEnded(tokens) && i < |tokens| && to <= from <= 8
    requires Parse(g, from, tokens, i) == Ok(e, j)
    requires Ends(to, tokens[j])
    requires from == 8 ==> UnaryAt(tokens[i]) == None
    ensures Parse(g, to, tokens, i) == Ok(e, j)
    decreases from
  {
    if to < from {
      var next := from - 1;
      assert Parse(g, next, tokens, i) == Ok(e, j) by {
        if 1 <= next <= 6 {
          assert OperatorAt(next, tokens[j]) == None;
        }
      }
      Ascend(g, next, to, tokens, i, e, j);
    }
  }

  lemma {:induction false} RoundTripAt(g: Grammar, level: nat, e: Expr, tokens: seq<Token>, i: nat)
    requires g.Valid() && WellEnded(tokens) && level <= 8 && Parseable(g, e)
    requires Matches(tokens, i, Print(level, e, g.variable))
    requires i + |Print(level, e, g.variable)| < |tokens|
    requires Ends(level, tokens[i + |Print(level, e, g.variable)|])
    ensures Parse(g, level, tokens, i) == Ok(e, i + |Print(level, e, g.variable)|)
    decreases e, if Tightness(e) < level then 4 else 3
  {
    var body := Body(e, g.variable);
    if Tightness(e) < level {
      var open, close := Punct("("), Punct(")");
      var j := i + 1 + |body|;
      MatchesConcat(tokens, i, [open] + body, [close]);
      MatchesConcat(tokens, i, [open], body);
      MatchesOne(tokens, i, open);
      MatchesOne(tokens, j, close);
      PunctuationEnds(tokens[j]);
      assert Print(0, e, g.variable) == body;
      RoundTripAt(g, 0, e, tokens, i + 1);
      assert Parse(g, 8, tokens, i) == Primary(g, tokens, i) == Ok(e, j + 1);
      Ascend(g, 8, level, tokens, i, e, j + 1);
    } else {
      var j := i + |body|;
      EndsTighter(level, Tightness(e), tokens[j]);
      BodyTrip(g, e, tokens, i);
      Ascend(g, Tightness(e), level, tokens, i, e, j);
    }
  }

  lemma EndsTighter(level: nat, tighter: nat, token: Token)
    requires Ends(level, token) && level <= tighter
    ensures Ends(tighter, token)
  {
  }

  /** An expression without parentheses, at its own level. */
  lemma {:induction false} BodyTrip(g: Grammar, e: Expr, tokens: seq<Token>, i: nat)
    requires g.Valid() && WellEnded(tokens) && Parseable(g, e)
    requires Matches(tokens, i, Body(e, g.variable))
    requires i + |Body(e, g.variable)| < |tokens|
    requires Ends(Tightness(e), tokens[i + |Body(e, g.variable)|])
    ensures Parse(g, Tightness(e), tokens, i) == Ok(e, i + |Body(e, g.variable)|)
    ensures Tightness(e) == 8 ==> UnaryAt(tokens[i]) == None
    decreases e, 2
  {
    match e
    case Conditional(_, _, _) => ConditionalTrip(g, e, tokens, i);
    case Binary(_, _, _) => BinaryTrip(g, e, tokens, i);
    case Unary(_, _) => UnaryTrip(g, e, tokens, i);
    case ArrayExpr(_) => ArrayTrip(g, e, tokens, i);
    case ObjectExpr(_) => ObjectTrip(g, e, tokens, i);
    case _ => MatchesOne(tokens, i, Body(e, g.variable)[0]);
  }

  lemma {:induction false} UnaryTrip(g: Grammar, e: Expr, tokens: seq<Token>, i: nat)
    requires g.Valid() && WellEnded(tokens) && Parseable(g, e) && e.Unary?
    requires Matches(tokens, i, Body(e, g.variable))
    requires i + |Body(e, g.variable)| < |tokens| && Ends(7, tokens[i + |Body(e, g.variable)|])
    ensures Parse(g, 7, tokens, i) == Ok(e, i + |Body(e, g.variable)|)
    decreases e, 1
  {
    var sign := Sign(UnarySymbol(e.unary));
    MatchesConcat(tokens, i, [sign], Print(7, e.operand, g.variable));
    MatchesOne(tokens, i, sign);
    UnarySymbolFound(e.unary, tokens[i].offset);
    assert tokens[i] == Token(Operator, UnarySymbol(e.unary), tokens[i].offset);
    RoundTripAt(g, 7, e.operand, tokens, i + 1);
  }

  lemma {:induction false} ConditionalTrip(g: Grammar, e: Expr, tokens: seq<Token>, i: nat)
    requires g.Valid() && WellEnded(tokens) && Parseable(g, e) && e.Conditional?
    requires Matches(tokens, i, Body(e, g.variable))
    requires i + |Body(e, g.variable)| < |tokens| && Ends(0, tokens[i + |Body(e, g.variable)|])
    ensures Parse(g, 0, tokens, i) == Ok(e, i + |Body(e, g.variable)|)
    decreases e, 1
  {
    hide Matches, Print, Body, OperatorAt, Ends, Parse, WellEnded;
    var c, t, f := Print(1, e.condition, g.variable), Print(0, e.whenTrue, g.variable), Print(0, e.whenFalse, g.variable);
    var q := i + |c|;
    var k := q + 1 + |t|;
    ConditionalTokens(g, e, tokens, i);
    RoundTripAt(g, 1, e.condition, tokens, i);
    RoundTripAt(g, 0, e.whenTrue, tokens, q + 1);
    RoundTripAt(g, 0, e.whenFalse, tokens, k + 1);
    ConditionalParses(g, tokens, i, e.condition, q, e.whenTrue, k, e.whenFalse, k + 1 + |f|);
  }

  lemma ConditionalTokens(g: Grammar, e: Expr, tokens: seq<Token>, i: nat)
    requires e.Conditional? && Matches(tokens, i, Body(e, g.variable))
    ensures var c, t, f := Print(1, e.condition, g.variable), Print(0, e.whenTrue, g.variable), Print(0, e.whenFalse, g.variable);
      var q := i + |c|;
      var k := q + 1 + |t|;
      && |Body(e, g.variable)| == |c| + 1 + |t| + 1 + |f| && k + 1 + |f| <= |tokens|
      && Matches(tokens, i, c) && Matches(tokens, q + 1, t) && Matches(tokens, k + 1, f)
      && tokens[q].value == "?" && Ends(1, tokens[q])
      && tokens[k].value == ":" && Ends(0, tokens[k])
  {
    hide Matches, Print, Body, OperatorAt, Ends;
    ConditionalPrinted(e, g.variable);
    var c, t := Print(1, e.condition, g.variable), Print(0, e.whenTrue, g.variable);
    MatchesFive(tokens, i, c, Punct("?"), t, Punct(":"), Print(0, e.whenFalse, g.variable));
    QuestionEnds(tokens[i + |c|]);
    PunctuationEnds(tokens[i + |c| + 1 + |t|]);
  }

  lemma ConditionalPrinted(e: Expr, variable: string)
    requires e.Conditional?
    ensures Body(e, variable) == Print(1, e.condition, variable) + [Punct("?")] + Print(0, e.whenTrue, variable)
      + [Punct(":")] + Print(0, e.whenFalse, variable)
  {
    hide Print;
  }

  lemma MatchesThree(tokens: seq<Token>, i: nat, a: seq<Token>, b: Token, c: seq<Token>)
    requires Matches(tokens, i, a + [b] + c)
    ensures var j := i + |a|;
      && j + 1 + |c| <= |tokens| && Matches(tokens, i, a) && Matches(tokens, j + 1, c)
      && tokens[j].kind == b.kind && tokens[j].value == b.value
  {
    MatchesConcat(tokens, i, a + [b], c);
    MatchesConcat(tokens, i, a, [b]);
    MatchesOne(tokens, i + |a|, b);
  }

  lemma MatchesFive(tokens: seq<Token>, i: nat, a: seq<Token>, b: Token, c: seq<Token>, d: Token, e: seq<Token>)
    requires Matches(tokens, i, a + [b] + c + [d] + e)
    ensures var j := i + |a|;
      var k := j + 1 + |c|;
      && k + 1 + |e| <= |tokens| && Matches(tokens, i, a) && Matches(tokens, j + 1, c) && Matches(tokens, k + 1, e)
      && tokens[j].kind == b.kind && tokens[j].value == b.value && tokens[k].kind == d.kind && tokens[k].value == d.value
  {
    var front := a + [b] + c;
    MatchesThree(tokens, i, front, d, e);
    MatchesThree(tokens, i, a, b, c);
  }

  lemma ConditionalParses(g: Grammar, tokens: seq<Token>, i: nat, c: Expr, q: nat, t: Expr, k: nat, f: Expr, j: nat)
    requires WellEnded(tokens) && i < |tokens| && q + 1 < |tokens| && k + 1 < |tokens|
    requires Parse(g, 1, tokens, i) == Ok(c, q) && tokens[q].value == "?"
    requires Parse(g, 0, tokens, q + 1) == Ok(t, k) && tokens[k].value == ":"
    requires Parse(g, 0, tokens, k + 1) == Ok(f, j)
    ensures Parse(g, 0, tokens, i) == Ok(Conditional(c, t, f), j)
  {
  }

  lemma {:induction false} BinaryTrip(g: Grammar, e: Expr, tokens: seq<Token>, i: nat)
    requires g.Valid() && WellEnded(tokens) && Parseable(g, e) && e.Binary?
    requires Matches(tokens, i, Body(e, g.variable))
    requires i + |Body(e, g.variable)| < |tokens|
    requires Ends(Level(e.op), tokens[i + |Body(e, g.variable)|])
    ensures Parse(g, Level(e.op), tokens, i) == Ok(e, i + |Body(e, g.variable)|)
    decreases e, 1
  {
    var level, j := Level(e.op), i + |Body(e, g.variable)|;
    EndsTighter(level, level + 1, tokens[j]);
    SpineStep(g, e, tokens, i);
    assert OperatorAt(level, tokens[j]) == None;
  }

  /** A left operand of a level: what follows may be another operator of that level. */
  lemma {:induction false} Spine(g: Grammar, level: nat, e: Expr, tokens: seq<Token>, i: nat)
    requires g.Valid() && WellEnded(tokens) && 1 <= level <= 6 && Parseable(g, e)
    requires Matches(tokens, i, Print(level, e, g.variable))
    requires i + |Print(level, e, g.variable)| < |tokens|
    requires Ends(level + 1, tokens[i + |Print(level, e, g.variable)|])
    ensures Parse(g, level, tokens, i) == Chain(g, level, tokens, e, i + |Print(level, e, g.variable)|)
    decreases e, 5
  {
    hide Matches, Body, Parseable, OperatorAt, Ends, Chain, WellEnded;
    if e.Binary? && Level(e.op) == level {
      SpineStep(g, e, tokens, i);
    } else {
      assert Print(level, e, g.variable) == Print(level + 1, e, g.variable);
      RoundTripAt(g, level + 1, e, tokens, i);
    }
  }

  lemma {:induction false} SpineStep(g: Grammar, e: Expr, tokens: seq<Token>, i: nat)
    requires g.Valid() && WellEnded(tokens) && Parseable(g, e) && e.Binary?
    requires Matches(tokens, i, Body(e, g.variable))
    requires i + |Body(e, g.variable)| < |tokens|
    requires Ends(Level(e.op) + 1, tokens[i + |Body(e, g.variable)|])
    ensures Parse(g, Level(e.op), tokens, i) == Chain(g, Level(e.op), tokens, e, i + |Body(e, g.variable)|)
    decreases e, 0, 1
  {
    hide Matches, Print, Body, Parseable, OperatorAt, Ends, Parse, Chain, Level, Symbol, WellEnded;
    BinaryTokens(g, e, tokens, i);
    SpineLeft(g, e, tokens, i);
    SpineRight(g, e, tokens, i);
    var k := i + |Print(Level(e.op), e.left, g.variable)|;
    ChainTakesIn(g, Level(e.op), tokens, e.left, k, e, i + |Body(e, g.variable)|);
  }

  lemma {:induction false} SpineLeft(g: Grammar, e: Expr, tokens: seq<Token>, i: nat)
    requires g.Valid() && WellEnded(tokens) && Parseable(g, e) && e.Binary?
    requires Matches(tokens, i, Body(e, g.variable))
    requires i + |Body(e, g.variable)| < |tokens|
    ensures i + |Print(Level(e.op), e.left, g.variable)| < |tokens|
    ensures Parse(g, Level(e.op), tokens, i)
      == Chain(g, Level(e.op), tokens, e.left, i + |Print(Level(e.op), e.left, g.variable)|)
    decreases e, 0, 0
  {
    hide Matches, Print, Body, OperatorAt, Ends, Parse, Chain, Level, Symbol, WellEnded;
    BinaryTokens(g, e, tokens, i);
    Spine(g, Level(e.op), e.left, tokens, i);
  }

  lemma {:induction false} SpineRight(g: Grammar, e: Expr, tokens: seq<Token>, i: nat)
    requires g.Valid() && WellEnded(tokens) && Parseable(g, e) && e.Binary?
    requires Matches(tokens, i, Body(e, g.variable))
    requires i + |Body(e, g.variable)| < |tokens|
    requires Ends(Level(e.op) + 1, tokens[i + |Body(e, g.variable)|])
    ensures var k := i + |Print(Level(e.op), e.left, g.variable)|;
      k + 1 < |tokens| && Parse(g, Level(e.op) + 1, tokens, k + 1) == Ok(e.right, i + |Body(e, g.variable)|)
    decreases e, 0, 0
  {
    hide Matches, Print, Body, OperatorAt, Ends, Parse, Chain, Level, Symbol, WellEnded;
    BinaryTokens(g, e, tokens, i);
    RoundTripAt(g, Level(e.op) + 1, e.right, tokens, i + |Print(Level(e.op), e.left, g.variable)| + 1);
  }

  lemma ChainTakesIn(g: Grammar, level: nat, tokens: seq<Token>, left: Expr, k: nat, e: Expr, j: nat)
    requires WellEnded(tokens) && k + 1 < |tokens| && 1 <= level <= 6 && e.Binary? && e.left == left
    requires OperatorAt(level, tokens[k]) == Some(e.op) && Parse(g, level + 1, tokens, k + 1) == Ok(e.right, j)
    ensures Chain(g, level, tokens, left, k) == Chain(g, level, tokens, e, j)
  {
    hide OperatorAt, Parse;
  }

  lemma BinaryTokens(g: Grammar, e: Expr, tokens: seq<Token>, i: nat)
    requires e.Binary? && Matches(tokens, i, Body(e, g.variable))
    ensures var level := Level(e.op);
      var l, r := Print(level, e.left, g.variable), Print(level + 1, e.right, g.variable);
      var k := i + |l|;
      && |Body(e, g.variable)| == |l| + 1 + |r| && k + 1 + |r| <= |tokens|
      && Matches(tokens, i, l) && Matches(tokens, k + 1, r)
      && OperatorAt(level, tokens[k]) == Some(e.op) && Ends(level + 1, tokens[k])
  {
    var level := Level(e.op);
    var l, r, sign := Print(level, e.left, g.variable), Print(level + 1, e.right, g.variable), Sign(Symbol(e.op));
    assert Body(e, g.variable) == l + [sign] + r;
    hide Matches, Print, Body, OperatorAt, Ends;
    MatchesThree(tokens, i, l, sign, r);
    OperatorEnds(e.op, tokens[i + |l|]);
  }

  lemma OpensArray(g: Grammar, tokens: seq<Token>, i: nat)
    requires WellEnded(tokens) && i + 1 < |tokens| && tokens[i].kind.Punctuation? && tokens[i].value == "["
    ensures Parse(g, 8, tokens, i) == ArrayBody(g, tokens, i + 1) && UnaryAt(tokens[i]) == None
  {
    hide ArrayBody;
  }

  lemma ClosesArray(g: Grammar, tokens: seq<Token>, i: nat, elements: seq<Expr>, j: nat)
    requires WellEnded(tokens) && i < |tokens| && j + 1 < |tokens| && tokens[j].value == "]"
    requires if elements == [] then i == j else tokens[i].value != "]" && Elements(g, tokens, i) == Ok(elements, j)
    ensures ArrayBody(g, tokens, i) == Ok(ArrayExpr(elements), j + 1)
  {
    hide Elements;
  }

  lemma {:induction false} ArrayTrip(g: Grammar, e: Expr, tokens: seq<Token>, i: nat)
    requires g.Valid() && WellEnded(tokens) && Parseable(g, e) && e.ArrayExpr?
    requires Matches(tokens, i, Body(e, g.variable)) && i + |Body(e, g.variable)| < |tokens|
    ensures Parse(g, 8, tokens, i) == Ok(e, i + |Body(e, g.variable)|) && UnaryAt(tokens[i]) == None
    decreases e, 1
  {
    var open, close, inner := Punct("["), Punct("]"), PrintElements(e.elements, g.variable);
    assert Body(e, g.variable) == [open] + inner + [close];
    assert e.elements == [] ==> inner == [];
    hide Body, PrintElements, Print, Parse, ArrayBody, OperatorAt, Ends;
    MatchesConcat(tokens, i, [open] + inner, [close]);
    MatchesConcat(tokens, i, [open], inner);
    MatchesOne(tokens, i, open);
    MatchesOne(tokens, i + 1 + |inner|, close);
    if e.elements != [] {
      FirstOfElements(e.elements, g.variable);
      MatchesFirst(tokens, i + 1, inner);
      PunctuationEnds(tokens[i + 1 + |inner|]);
      hide Matches;
      ElementsTrip(g, e.elements, tokens, i + 1);
    }
    ClosesArray(g, tokens, i + 1, e.elements, i + 1 + |inner|);
    OpensArray(g, tokens, i);
  }

  lemma MatchesFirst(tokens: seq<Token>, i: nat, printed: seq<Token>)
    requires Matches(tokens, i, printed) && printed != []
    ensures i < |tokens| && tokens[i].kind == printed[0].kind && tokens[i].value == printed[0].value
  {
    assert tokens[i + 0].kind == printed[0].kind;
  }

  lemma FirstOfElements(elements: seq<Expr>, variable: string)
    requires elements != []
    ensures |PrintElements(elements, variable)| >= 1
    ensures PrintElements(elements, variable)[0] == Print(0, elements[0], variable)[0]
  {
  }

  lemma MoreElements(elements: seq<Expr>, variable: string)
    requires |elements| > 1
    ensures PrintElements(elements, variable)
      == Print(0, elements[0], variable) + [Punct(",")] + PrintElements(elements[1..], variable)
  {
    hide Print;
  }

  lemma OneElement(elements: seq<Expr>, variable: string)
    requires |elements| == 1
    ensures PrintElements(elements, variable) == Print(0, elements[0], variable) && elements == [elements[0]]
  {
    hide Print;
  }

  lemma {:induction false} ElementsTrip(g: Grammar, elements: seq<Expr>, tokens: seq<Token>, i: nat)
    requires g.Valid() && WellEnded(tokens) && elements != [] && ParseableElements(g, elements)
    requires Matches(tokens, i, PrintElements(elements, g.variable))
    requires var j := i + |PrintElements(elements, g.variable)|;
      j < |tokens| && Ends(0, tokens[j]) && tokens[j].value != ","
    ensures Elements(g, tokens, i) == Ok(elements, i + |PrintElements(elements, g.variable)|)
    decreases elements, 0
  {
    hide Matches, Print, PrintElements, Parse, Parseable, OperatorAt, Ends;
    var first := Print(0, elements[0], g.variable);
    if |elements| == 1 {
      OneElement(elements, g.variable);
      RoundTripAt(g, 0, elements[0], tokens, i);
    } else {
      var comma, rest := Punct(","), PrintElements(elements[1..], g.variable);
      MoreElements(elements, g.variable);
      MatchesConcat(tokens, i, first + [comma], rest);
      MatchesConcat(tokens, i, first, [comma]);
      MatchesOne(tokens, i + |first|, comma);
      PunctuationEnds(tokens[i + |first|]);
      RoundTripAt(g, 0, elements[0], tokens, i);
      ElementsTrip(g, elements[1..], tokens, i + |first| + 1);
      assert elements == [elements[0]] + elements[1..];
    }
  }

  lemma OpensObject(g: Grammar, tokens: seq<Token>, i: nat)
    requires WellEnded(tokens) && i + 1 < |tokens| && tokens[i].kind.Punctuation? && tokens[i].value == "{"
    ensures Parse(g, 8, tokens, i) == ObjectBody(g, tokens, i + 1) && UnaryAt(tokens[i]) == None
  {
    hide ObjectBody;
  }

  lemma ClosesObject(g: Grammar, tokens: seq<Token>, i: nat, entries: seq<Entry>, j: nat)
    requires WellEnded(tokens) && i < |tokens| && j + 1 < |tokens| && tokens[j].value == "}"
    requires if entries == [] then i == j else tokens[i].value != "}" && Entries(g, tokens, i, {}) == Ok(entries, j)
    ensures ObjectBody(g, tokens, i) == Ok(ObjectExpr(entries), j + 1)
  {
    hide Entries;
  }

  lemma {:induction false} ObjectTrip(g: Grammar, e: Expr, tokens: seq<Token>, i: nat)
    requires g.Valid() && WellEnded(tokens) && Parseable(g, e) && e.ObjectExpr?
    requires Matches(tokens, i, Body(e, g.variable)) && i + |Body(e, g.variable)| < |tokens|
    ensures Parse(g, 8, tokens, i) == Ok(e, i + |Body(e, g.variable)|) && UnaryAt(tokens[i]) == None
    decreases e, 1
  {
    var open, close, inner := Punct("{"), Punct("}"), PrintEntries(e.entries, g.variable);
    assert Body(e, g.variable) == [open] + inner + [close];
    assert e.entries == [] ==> inner == [];
    hide Body, PrintEntries, Print, Parse, ObjectBody, OperatorAt, Ends;
    MatchesConcat(tokens, i, [open] + inner, [close]);
    MatchesConcat(tokens, i, [open], inner);
    MatchesOne(tokens, i, open);
    MatchesOne(tokens, i + 1 + |inner|, close);
    if e.entries != [] {
      FirstOfEntries(e.entries, g.variable);
      MatchesFirst(tokens, i + 1, inner);
      PunctuationEnds(tokens[i + 1 + |inner|]);
      hide Matches;
      EntriesTrip(g, e.entries, tokens, i + 1, {});
    }
    ClosesObject(g, tokens, i + 1, e.entries, i + 1 + |inner|);
    OpensObject(g, tokens, i);
  }

  lemma FirstOfEntries(entries: seq<Entry>, variable: string)
    requires entries != []
    ensures |PrintEntries(entries, variable)| >= 1
    ensures PrintEntries(entries, variable)[0].value == entries[0].key
  {
  }

  lemma {:induction false} EntriesTrip(g: Grammar, entries: seq<Entry>, tokens: seq<Token>, i: nat, keys: set<string>)
    requires g.Valid() && WellEnded(tokens) && entries != [] && ParseableEntries(g, entries, keys)
    requires Matches(tokens, i, PrintEntries(entries, g.variable))
    requires var j := i + |PrintEntries(entries, g.variable)|;
      j < |tokens| && Ends(0, tokens[j]) && tokens[j].value != ","
    ensures Entries(g, tokens, i, keys) == Ok(entries, i + |PrintEntries(entries, g.variable)|)
    decreases entries, 0
  {
    hide Matches, Print, PrintEntry, PrintEntries, Parse, Parseable, OperatorAt, Ends, ExpectToken;
    var entry, first := entries[0], PrintEntry(entries[0], g.variable);
    if |entries| == 1 {
      OneEntry(entries, g.variable);
      EntryTrip(g, entry, tokens, i);
    } else {
      var comma, rest := Punct(","), PrintEntries(entries[1..], g.variable);
      MoreEntries(entries, g.variable);
      MatchesConcat(tokens, i, first + [comma], rest);
      MatchesConcat(tokens, i, first, [comma]);
      MatchesOne(tokens, i + |first|, comma);
      PunctuationEnds(tokens[i + |first|]);
      EntryTrip(g, entry, tokens, i);
      EntriesTrip(g, entries[1..], tokens, i + |first| + 1, keys + {entry.key});
      assert entries == [entry] + entries[1..];
    }
  }

  lemma MoreEntries(entries: seq<Entry>, variable: string)
    requires |entries| > 1
    ensures PrintEntries(entries, variable)
      == PrintEntry(entries[0], variable) + [Punct(",")] + PrintEntries(entries[1..], variable)
  {
    hide PrintEntry;
  }

  lemma OneEntry(entries: seq<Entry>, variable: string)
    requires |entries| == 1
    ensures PrintEntries(entries, variable) == PrintEntry(entries[0], variable) && entries == [entries[0]]
  {
    hide PrintEntry;
  }

  /** Key, colon and value. */
  lemma {:induction false} EntryTrip(g: Grammar, entry: Entry, tokens: seq<Token>, i: nat)
    requires g.Valid() && WellEnded(tokens) && Parseable(g, entry.value)
    requires Matches(tokens, i, PrintEntry(entry, g.variable))
    requires var j := i + |PrintEntry(entry, g.variable)|; j < |tokens| && Ends(0, tokens[j])
    ensures tokens[i].kind.StringToken? && tokens[i].value == entry.key && i + 1 < |tokens|
    ensures ExpectToken(tokens, ":", i + 1) == Ok((), i + 2)
    ensures Parse(g, 0, tokens, i + 2) == Ok(entry.value, i + |PrintEntry(entry, g.variable)|)
    decreases entry, 0
  {
    var key, colon, value := Token(StringToken, entry.key, 0), Punct(":"), Print(0, entry.value, g.variable);
    MatchesConcat(tokens, i, [key, colon], value);
    EntryTokens(tokens, i, key, colon);
    RoundTripAt(g, 0, entry.value, tokens, i + 2);
  }

  lemma EntryTokens(tokens: seq<Token>, i: nat, key: Token, colon: Token)
    requires Matches(tokens, i, [key, colon])
    ensures tokens[i].kind == key.kind && tokens[i].value == key.value && tokens[i + 1].value == colon.value
  {
    assert [key, colon][0] == key && [key, colon][1] == colon && tokens[i + 0] == tokens[i];
  }
}
