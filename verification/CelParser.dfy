/** The recursive-descent parser: what it computes, and the class that does so over a moving index. */
module CelParser {
  import opened CelSyntax
  import opened Prelude

  datatype Problem =
    | MemberAccess | FunctionCall | UnexpectedToken(value: string) | NumberNotSafe
    | UnknownIdentifier(name: string) | Expected(value: string) | KeyNotString | DuplicateKey(key: string)

  datatype Parsed<+T> = Ok(value: T, next: nat) | Err(problem: Problem, offset: nat)

  /** Token lists as the tokenizer makes them: eof at the end, and only there. */
  predicate WellEnded(tokens: seq<Token>) {
    && tokens != []
    && (forall i :: 0 <= i < |tokens| ==> (tokens[i].kind.Eof? <==> i == |tokens| - 1))
    && tokens[|tokens| - 1].value == ""
  }

  /** The parser's parameters: the name of the input, and which numeric literals are JSON-safe. */
  datatype Grammar = Grammar(variable: string, isSafe: string -> bool) {
    predicate Valid() { variable !in {"true", "false", "null"} }
  }

  // -------------------------------------------------------------------------
  // What it computes
  // -------------------------------------------------------------------------

  function ExpectToken(tokens: seq<Token>, value: string, i: nat): (r: Parsed<()>)
    requires WellEnded(tokens) && i < |tokens| && value != ""
    ensures r.Ok? ==> r.next == i + 1 < |tokens| && tokens[i].value == value
  {
    if tokens[i].value != value then Err(Expected(value), tokens[i].offset) else Ok((), i + 1)
  }

  function Parse(g: Grammar, level: nat, tokens: seq<Token>, i: nat): (r: Parsed<Expr>)
    requires WellEnded(tokens) && i < |tokens| && level <= 8
    ensures r.Ok? ==> i < r.next < |tokens|
    decreases |tokens| - i, 10 - level
  {
    if level == 0 then
      match Parse(g, 1, tokens, i)
      case Err(p, o) => Err(p, o)
      case Ok(condition, j) =>
        if tokens[j].value != "?" then Ok(condition, j)
        else
          match Parse(g, 0, tokens, j + 1)
          case Err(p, o) => Err(p, o)
          case Ok(whenTrue, k) =>
            match ExpectToken(tokens, ":", k)
            case Err(p, o) => Err(p, o)
            case Ok(_, l) =>
              match Parse(g, 0, tokens, l)
              case Err(p, o) => Err(p, o)
              case Ok(whenFalse, m) => Ok(Conditional(condition, whenTrue, whenFalse), m)
    else if level <= 6 then
      match Parse(g, level + 1, tokens, i)
      case Err(p, o) => Err(p, o)
      case Ok(first, j) => Chain(g, level, tokens, first, j)
    else if level == 7 then
      var op := UnaryAt(tokens[i]);
      if op.Some? then
        match Parse(g, 7, tokens, i + 1)
        case Err(p, o) => Err(p, o)
        case Ok(operand, j) => Ok(Unary(op.value, operand), j)
      else Parse(g, 8, tokens, i)
    else Primary(g, tokens, i)
  }

  /** The loop of `parseBinary`: operands of one level, taken in from the left. */
  function Chain(g: Grammar, level: nat, tokens: seq<Token>, left: Expr, j: nat): (r: Parsed<Expr>)
    requires WellEnded(tokens) && j < |tokens| && 1 <= level <= 6
    ensures r.Ok? ==> j <= r.next < |tokens|
    decreases |tokens| - j, 10 - level
  {
    var op := OperatorAt(level, tokens[j]);
    if op.None? then Ok(left, j)
    else
      match Parse(g, level + 1, tokens, j + 1)
      case Err(p, o) => Err(p, o)
      case Ok(right, k) => Chain(g, level, tokens, Binary(op.value, left, right), k)
  }

  function Primary(g: Grammar, tokens: seq<Token>, i: nat): (r: Parsed<Expr>)
    requires WellEnded(tokens) && i < |tokens|
    ensures r.Ok? ==> i < r.next < |tokens|
    decreases |tokens| - i, 1
  {
    var token := tokens[i];
    if token.kind.NumberToken? then
      if g.isSafe(token.value) then Ok(NumberLiteral(token.value), i + 1) else Err(NumberNotSafe, token.offset)
    else if token.kind.StringToken? then Ok(StringLiteral(token.value), i + 1)
    else if token.kind.Identifier? then
      if tokens[i + 1].value == "(" then Err(FunctionCall, tokens[i + 1].offset)
      else if token.value == g.variable then Ok(Input, i + 1)
      else if token.value == "true" || token.value == "false" then Ok(BoolLiteral(token.value == "true"), i + 1)
      else if token.value == "null" then Ok(NullLiteral, i + 1)
      else Err(UnknownIdentifier(token.value), token.offset)
    else if token.value == "(" then
      match Parse(g, 0, tokens, i + 1)
      case Err(p, o) => Err(p, o)
      case Ok(inner, j) =>
        match ExpectToken(tokens, ")", j)
        case Err(p, o) => Err(p, o)
        case Ok(_, k) => Ok(inner, k)
    else if token.value == "[" then ArrayBody(g, tokens, i + 1)
    else if token.value == "{" then ObjectBody(g, tokens, i + 1)
    else Err(UnexpectedToken(token.value), token.offset)
  }

  /** After the opening bracket. Any token whose text is the closing bracket closes. */
  function ArrayBody(g: Grammar, tokens: seq<Token>, i: nat): (r: Parsed<Expr>)
    requires WellEnded(tokens) && i < |tokens|
    ensures r.Ok? ==> i < r.next < |tokens|
    decreases |tokens| - i, 12
  {
    if tokens[i].value == "]" then Ok(ArrayExpr([]), i + 1)
    else
      match Elements(g, tokens, i)
      case Err(p, o) => Err(p, o)
      case Ok(elements, j) =>
        match ExpectToken(tokens, "]", j)
        case Err(p, o) => Err(p, o)
        case Ok(_, k) => Ok(ArrayExpr(elements), k)
  }

  function ObjectBody(g: Grammar, tokens: seq<Token>, i: nat): (r: Parsed<Expr>)
    requires WellEnded(tokens) && i < |tokens|
    ensures r.Ok? ==> i < r.next < |tokens|
    decreases |tokens| - i, 12
  {
    if tokens[i].value == "}" then Ok(ObjectExpr([]), i + 1)
    else
      match Entries(g, tokens, i, {})
      case Err(p, o) => Err(p, o)
      case Ok(entries, j) =>
        match ExpectToken(tokens, "}", j)
        case Err(p, o) => Err(p, o)
        case Ok(_, k) => Ok(ObjectExpr(entries), k)
  }

  /** One element or more, separated by commas. */
  function Elements(g: Grammar, tokens: seq<Token>, i: nat): (r: Parsed<seq<Expr>>)
    requires WellEnded(tokens) && i < |tokens|
    ensures r.Ok? ==> i < r.next < |tokens| && r.value != []
    decreases |tokens| - i, 11
  {
    match Parse(g, 0, tokens, i)
    case Err(p, o) => Err(p, o)
    case Ok(first, j) =>
      if tokens[j].value != "," then Ok([first], j)
      else
        match Elements(g, tokens, j + 1)
        case Err(p, o) => Err(p, o)
        case Ok(rest, k) => Ok([first] + rest, k)
  }

  /** One entry or more; `keys` are those taken so far. */
  function Entries(g: Grammar, tokens: seq<Token>, i: nat, keys: set<string>): (r: Parsed<seq<Entry>>)
    requires WellEnded(tokens) && i < |tokens|
    ensures r.Ok? ==> i < r.next < |tokens| && r.value != []
    decreases |tokens| - i, 11
  {
    var key := tokens[i];
    if !key.kind.StringToken? then Err(KeyNotString, key.offset)
    else if key.value in keys then Err(DuplicateKey(key.value), key.offset)
    else
      match ExpectToken(tokens, ":", i + 1)
      case Err(p, o) => Err(p, o)
      case Ok(_, j) =>
        match Parse(g, 0, tokens, j)
        case Err(p, o) => Err(p, o)
        case Ok(value, k) =>
          var entry := Entry(key.value, value);
          if tokens[k].value != "," then Ok([entry], k)
          else
            match Entries(g, tokens, k + 1, keys + {key.value})
            case Err(p, o) => Err(p, o)
            case Ok(rest, l) => Ok([entry] + rest, l)
  }

  /** One entry, its key not among those taken. */
  function EntryAt(g: Grammar, tokens: seq<Token>, i: nat, keys: set<string>): (r: Parsed<Entry>)
    requires WellEnded(tokens) && i < |tokens|
    ensures r.Ok? ==> i < r.next < |tokens|
  {
    var key := tokens[i];
    if !key.kind.StringToken? then Err(KeyNotString, key.offset)
    else if key.value in keys then Err(DuplicateKey(key.value), key.offset)
    else
      match ExpectToken(tokens, ":", i + 1)
      case Err(p, o) => Err(p, o)
      case Ok(_, j) =>
        match Parse(g, 0, tokens, j)
        case Err(p, o) => Err(p, o)
        case Ok(value, k) => Ok(Entry(key.value, value), k)
  }

  lemma FirstEntry(g: Grammar, tokens: seq<Token>, i: nat, keys: set<string>)
    requires WellEnded(tokens) && i < |tokens|
    ensures Entries(g, tokens, i, keys) ==
      match EntryAt(g, tokens, i, keys)
      case Err(p, o) => Err(p, o)
      case Ok(entry, k) =>
        if tokens[k].value != "," then Ok([entry], k)
        else
          match Entries(g, tokens, k + 1, keys + {entry.key})
          case Err(p, o) => Err(p, o)
          case Ok(rest, l) => Ok([entry] + rest, l)
  {
    hide Parse;
  }

  /** What a list comes to, given what was taken of it and what the rest comes to. */
  predicate ComesTo<T(==)>(all: Parsed<seq<T>>, taken: seq<T>, rest: Parsed<seq<T>>) {
    match all
    case Err(p, o) => rest == Err(p, o)
    case Ok(items, k) => rest.Ok? && rest.next == k && taken + rest.value == items
  }

  lemma NoneTaken<T>(all: Parsed<seq<T>>)
    ensures ComesTo(all, [], all)
  {
    if all.Ok? {
      assert [] + all.value == all.value;
    }
  }

  lemma Fails<T>(all: Parsed<seq<T>>, taken: seq<T>, rest: Parsed<seq<T>>)
    requires ComesTo(all, taken, rest) && rest.Err?
    ensures all == rest
  {
  }

  lemma Ends<T>(all: Parsed<seq<T>>, taken: seq<T>, last: seq<T>, next: nat)
    requires ComesTo(all, taken, Ok(last, next))
    ensures all == Ok(taken + last, next)
  {
  }

  lemma OneTaken<T>(all: Parsed<seq<T>>, taken: seq<T>, item: T, rest: Parsed<seq<T>>)
    requires ComesTo(all, taken, match rest case Err(p, o) => Err(p, o) case Ok(items, k) => Ok([item] + items, k))
    ensures ComesTo(all, taken + [item], rest)
  {
    if rest.Ok? {
      Regroup(taken, [item], rest.value);
    }
  }

  /** `parse`: one expression, and then nothing but the end. */
  function ParseAll(g: Grammar, tokens: seq<Token>): Parsed<Expr>
    requires WellEnded(tokens)
  {
    match Parse(g, 0, tokens, 0)
    case Err(p, o) => Err(p, o)
    case Ok(e, i) =>
      if tokens[i].kind.Eof? then Ok(e, i)
      else if tokens[i].value == "." then Err(MemberAccess, tokens[i].offset)
      else if tokens[i].value == "(" then Err(FunctionCall, tokens[i].offset)
      else Err(UnexpectedToken(tokens[i].value), tokens[i].offset)
  }

  // -------------------------------------------------------------------------
  // The class
  // -------------------------------------------------------------------------

  class Parser {
    const tokens: seq<Token>
    const g: Grammar
    var index: nat

    ghost predicate Valid()
      reads this
    {
      WellEnded(tokens) && index < |tokens|
    }

    /** The result of a parsing method: the specified one, with the index moved if it succeeded. */
    ghost predicate Did<T>(r: Parsed<T>, spec: Parsed<T>)
      reads this
    {
      r == spec && Valid() && (r.Ok? ==> index == r.next)
    }

    constructor (tokens: seq<Token>, g: Grammar)
      requires WellEnded(tokens)
      ensures Valid() && this.tokens == tokens && this.g == g && index == 0
    {
      this.tokens, this.g, index := tokens, g, 0;
    }

    method Current() returns (token: Token)
      requires Valid()
      ensures token == tokens[index]
    {
      token := tokens[index];
    }

    method Advance() returns (token: Token)
      requires Valid()
      modifies this
      ensures Valid() && token == tokens[old(index)]
      ensures index == if token.kind.Eof? then old(index) else old(index) + 1
    {
      token := Current();
      if !token.kind.Eof? {
        index := index + 1;
      }
    }

    method Consume(value: string) returns (matched: bool)
      requires Valid() && value != ""
      modifies this
      ensures Valid() && matched == (tokens[old(index)].value == value)
      ensures index == if matched then old(index) + 1 else old(index)
    {
      var token := Current();
      if token.value != value {
        return false;
      }
      index := index + 1;
      return true;
    }

    method Expect(value: string) returns (r: Parsed<()>)
      requires Valid() && value != ""
      modifies this
      ensures Did(r, ExpectToken(tokens, value, old(index)))
    {
      var token := Current();
      if token.value != value {
        return Err(Expected(value), token.offset);
      }
      index := index + 1;
      return Ok((), index);
    }

    method RunParse() returns (r: Parsed<Expr>)
      requires Valid() && index == 0
      modifies this
      ensures Did(r, ParseAll(g, tokens))
    {
      r := ParseConditional();
      if r.Err? {
        return;
      }
      var trailing := Current();
      if !trailing.kind.Eof? {
        if trailing.value == "." {
          return Err(MemberAccess, trailing.offset);
        }
        if trailing.value == "(" {
          return Err(FunctionCall, trailing.offset);
        }
        return Err(UnexpectedToken(trailing.value), trailing.offset);
      }
    }

    method ParseConditional() returns (r: Parsed<Expr>)
      requires Valid()
      modifies this
      ensures Did(r, Parse(g, 0, tokens, old(index)))
      decreases |tokens| - index, 20
    {
      r := ParseBinary(1);
      if r.Err? {
        return;
      }
      var condition := r.value;
      var question := Consume("?");
      if !question {
        return;
      }
      var whenTrue := ParseConditional();
      if whenTrue.Err? {
        return whenTrue;
      }
      var colon := Expect(":");
      if colon.Err? {
        return Err(colon.problem, colon.offset);
      }
      var whenFalse := ParseConditional();
      if whenFalse.Err? {
        return whenFalse;
      }
      r := Ok(Conditional(condition, whenTrue.value, whenFalse.value), index);
    }

    /** One binary level; above level 6 the operand is a unary expression. */
    method ParseBinary(level: nat) returns (r: Parsed<Expr>)
      requires Valid() && 1 <= level <= 6
      modifies this
      ensures Did(r, Parse(g, level, tokens, old(index)))
      decreases |tokens| - index, 2 * (10 - level)
    {
      ghost var start := index;
      r := ParseOperand(level);
      if r.Err? {
        return;
      }
      var expression := r.value;
      while true
        invariant Valid() && start < index
        invariant Chain(g, level, tokens, expression, index) == Parse(g, level, tokens, start)
        decreases |tokens| - index
      {
        var token := Current();
        var op := OperatorAt(level, token);
        if op.None? {
          return Ok(expression, index);
        }
        var _ := Advance();
        var right := ParseOperand(level);
        if right.Err? {
          return right;
        }
        expression := Binary(op.value, expression, right.value);
      }
    }

    method ParseOperand(level: nat) returns (r: Parsed<Expr>)
      requires Valid() && 1 <= level <= 6
      modifies this
      ensures Did(r, Parse(g, level + 1, tokens, old(index)))
      decreases |tokens| - index, 2 * (10 - level) - 1
    {
      if level == 6 {
        r := ParseUnary();
      } else {
        r := ParseBinary(level + 1);
      }
    }

    method ParseUnary() returns (r: Parsed<Expr>)
      requires Valid()
      modifies this
      ensures Did(r, Parse(g, 7, tokens, old(index)))
      decreases |tokens| - index, 3
    {
      var token := Current();
      var op := UnaryAt(token);
      if op.Some? {
        var _ := Advance();
        var operand := ParseUnary();
        if operand.Err? {
          return operand;
        }
        return Ok(Unary(op.value, operand.value), index);
      }
      r := ParsePrimary();
    }

    method ParsePrimary() returns (r: Parsed<Expr>)
      requires Valid()
      modifies this
      ensures Did(r, Parse(g, 8, tokens, old(index)))
      decreases |tokens| - index, 2
    {
      var token := Advance();
      if token.kind.NumberToken? {
        if !g.isSafe(token.value) {
          return Err(NumberNotSafe, token.offset);
        }
        return Ok(NumberLiteral(token.value), index);
      }
      if token.kind.StringToken? {
        return Ok(StringLiteral(token.value), index);
      }
      if token.kind.Identifier? {
        var following := Current();
        if following.value == "(" {
          return Err(FunctionCall, following.offset);
        }
        if token.value == g.variable {
          return Ok(Input, index);
        }
        if token.value == "true" || token.value == "false" {
          return Ok(BoolLiteral(token.value == "true"), index);
        }
        if token.value == "null" {
          return Ok(NullLiteral, index);
        }
        return Err(UnknownIdentifier(token.value), token.offset);
      }
      if token.value == "(" {
        var inner := ParseConditional();
        if inner.Err? {
          return inner;
        }
        var close := Expect(")");
        if close.Err? {
          return Err(close.problem, close.offset);
        }
        return Ok(inner.value, index);
      }
      if token.value == "[" {
        r := ParseArray();
        return;
      }
      if token.value == "{" {
        r := ParseObject();
        return;
      }
      r := Err(UnexpectedToken(token.value), token.offset);
    }

    method ParseArray() returns (r: Parsed<Expr>)
      requires Valid()
      modifies this
      ensures Did(r, ArrayBody(g, tokens, old(index)))
      decreases |tokens| - index, 21
    {
      hide Parse;
      ghost var start := index;
      var empty := Consume("]");
      if empty {
        return Ok(ArrayExpr([]), index);
      }
      var elements: seq<Expr> := [];
      ghost var all := Elements(g, tokens, start);
      while true
        invariant Valid() && start <= index
        invariant var rest := Elements(g, tokens, index);
          match all
          case Err(p, o) => rest == Err(p, o)
          case Ok(es, k) => rest.Ok? && rest.next == k && elements + rest.value == es
        decreases |tokens| - index
      {
        var element := ParseConditional();
        if element.Err? {
          return element;
        }
        elements := elements + [element.value];
        var comma := Consume(",");
        if !comma {
          break;
        }
      }
      var close := Expect("]");
      if close.Err? {
        return Err(close.problem, close.offset);
      }
      r := Ok(ArrayExpr(elements), index);
    }

    /** The loop's part for one entry. */
    method ParseEntry(keys: set<string>) returns (r: Parsed<Entry>)
      requires Valid()
      modifies this
      ensures Did(r, EntryAt(g, tokens, old(index), keys))
      decreases |tokens| - index, 20, 1
    {
      hide Parse;
      var key := Advance();
      if !key.kind.StringToken? {
        return Err(KeyNotString, key.offset);
      }
      if key.value in keys {
        return Err(DuplicateKey(key.value), key.offset);
      }
      var colon := Expect(":");
      if colon.Err? {
        return Err(colon.problem, colon.offset);
      }
      var value := ParseConditional();
      if value.Err? {
        return Err(value.problem, value.offset);
      }
      r := Ok(Entry(key.value, value.value), index);
    }

    method ParseObject() returns (r: Parsed<Expr>)
      requires Valid()
      modifies this
      ensures Did(r, ObjectBody(g, tokens, old(index)))
      decreases |tokens| - index, 21
    {
      hide Parse, Entries, EntryAt, ComesTo;
      ghost var start := index;
      var empty := Consume("}");
      if empty {
        return Ok(ObjectExpr([]), index);
      }
      var entries: seq<Entry> := [];
      var keys: set<string> := {};
      ghost var all := Entries(g, tokens, start, {});
      NoneTaken(all);
      while true
        invariant Valid() && start <= index
        invariant ComesTo(all, entries, Entries(g, tokens, index, keys))
        decreases |tokens| - index
      {
        FirstEntry(g, tokens, index, keys);
        var entry := ParseEntry(keys);
        if entry.Err? {
          Fails(all, entries, Err(entry.problem, entry.offset));
          return Err(entry.problem, entry.offset);
        }
        keys := keys + {entry.value.key};
        var comma := Consume(",");
        if !comma {
          Ends(all, entries, [entry.value], index);
          entries := entries + [entry.value];
          break;
        }
        OneTaken(all, entries, entry.value, Entries(g, tokens, index, keys));
        entries := entries + [entry.value];
      }
      var close := Expect("}");
      if close.Err? {
        return Err(close.problem, close.offset);
      }
      r := Ok(ObjectExpr(entries), index);
    }
  }
}
