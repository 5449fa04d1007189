/** Every error of the parser points at a token that shows it. */
module CelProblems {
  import opened CelSyntax
  import opened CelParser
  import opened Prelude

  /** The token stands at the offset, and is what the problem says. */
  ghost predicate Shows(g: Grammar, tokens: seq<Token>, j: int, problem: Problem, offset: nat) {
    && 0 <= j < |tokens| && tokens[j].offset == offset
    && var token := tokens[j];
       match problem
       case MemberAccess => token.value == "."
       case FunctionCall => token.value == "("
       case UnexpectedToken(value) => token.value == value
       case NumberNotSafe => token.kind.NumberToken? && !g.isSafe(token.value)
       case UnknownIdentifier(name) =>
         token.kind.Identifier? && token.value == name && name !in {g.variable, "true", "false", "null"}
       case Expected(value) => token.value != value && value in {":", ")", "]", "}"}
       case KeyNotString => !token.kind.StringToken?
       case DuplicateKey(key) => token.kind.StringToken? && token.value == key && StringBefore(tokens, j, key)
  }

  predicate StringBefore(tokens: seq<Token>, j: int, key: string) {
    exists i :: 0 <= i < j && i < |tokens| && tokens[i].kind.StringToken? && tokens[i].value == key
  }

  /** Some token from `i` on shows the problem. */
  ghost predicate Real(g: Grammar, tokens: seq<Token>, i: nat, problem: Problem, offset: nat) {
    exists j :: i <= j && Shows(g, tokens, j, problem, offset)
  }

  ghost predicate Fine<T>(g: Grammar, tokens: seq<Token>, i: nat, r: Parsed<T>) {
    r.Err? ==> Real(g, tokens, i, r.problem, r.offset)
  }

  lemma FineLater<T>(g: Grammar, tokens: seq<Token>, i: nat, j: nat, r: Parsed<T>)
    requires i <= j && Fine(g, tokens, j, r)
    ensures Fine(g, tokens, i, r)
  {
    hide Shows;
  }

  lemma ExpectIsFine(g: Grammar, tokens: seq<Token>, value: string, i: nat)
    requires WellEnded(tokens) && i < |tokens| && value in {":", ")", "]", "}"}
    ensures Fine(g, tokens, i, ExpectToken(tokens, value, i))
  {
    assert tokens[i].value != value ==> Shows(g, tokens, i, Expected(value), tokens[i].offset);
  }

  lemma {:induction false} ParseIsFine(g: Grammar, level: nat, tokens: seq<Token>, i: nat)
    requires WellEnded(tokens) && i < |tokens| && level <= 8
    ensures Fine(g, tokens, i, Parse(g, level, tokens, i))
    decreases |tokens| - i, 10 - level
  {
    hide Real, Primary, Chain;
    if level == 0 {
      ParseIsFine(g, 1, tokens, i);
      var c := Parse(g, 1, tokens, i);
      if c.Ok? && tokens[c.next].value == "?" {
        ConditionalIsFine(g, tokens, i, c.next);
      }
    } else if level <= 6 {
      ParseIsFine(g, level + 1, tokens, i);
      var first := Parse(g, level + 1, tokens, i);
      if first.Ok? {
        ChainIsFine(g, level, tokens, first.value, first.next);
        FineLater(g, tokens, i, first.next, Chain(g, level, tokens, first.value, first.next));
      }
    } else if level == 7 {
      if UnaryAt(tokens[i]).Some? {
        ParseIsFine(g, 7, tokens, i + 1);
        FineLater(g, tokens, i, i + 1, Parse(g, 7, tokens, i + 1));
      } else {
        ParseIsFine(g, 8, tokens, i);
      }
    } else {
      PrimaryIsFine(g, tokens, i);
    }
  }

  lemma {:induction false} ConditionalIsFine(g: Grammar, tokens: seq<Token>, i: nat, q: nat)
    requires WellEnded(tokens) && i < q < |tokens|
    requires Parse(g, 1, tokens, i).Ok? && Parse(g, 1, tokens, i).next == q && tokens[q].value == "?"
    ensures Fine(g, tokens, i, Parse(g, 0, tokens, i))
    decreases |tokens| - i, 9, 0
  {
    hide Real, Primary, Chain;
    assert q + 1 < |tokens|;
    ParseIsFine(g, 0, tokens, q + 1);
    var t := Parse(g, 0, tokens, q + 1);
    FineLater(g, tokens, i, q + 1, t);
    if t.Ok? {
      ExpectIsFine(g, tokens, ":", t.next);
      FineLater(g, tokens, i, t.next, ExpectToken(tokens, ":", t.next));
      if tokens[t.next].value == ":" {
        ParseIsFine(g, 0, tokens, t.next + 1);
        FineLater(g, tokens, i, t.next + 1, Parse(g, 0, tokens, t.next + 1));
      }
    }
  }

  lemma {:induction false} ChainIsFine(g: Grammar, level: nat, tokens: seq<Token>, left: Expr, j: nat)
    requires WellEnded(tokens) && j < |tokens| && 1 <= level <= 6
    ensures Fine(g, tokens, j, Chain(g, level, tokens, left, j))
    decreases |tokens| - j, 10 - level
  {
    hide Real, Parse;
    var op := OperatorAt(level, tokens[j]);
    if op.Some? {
      ParseIsFine(g, level + 1, tokens, j + 1);
      var right := Parse(g, level + 1, tokens, j + 1);
      FineLater(g, tokens, j, j + 1, right);
      if right.Ok? {
        ChainIsFine(g, level, tokens, Binary(op.value, left, right.value), right.next);
        FineLater(g, tokens, j, right.next, Chain(g, level, tokens, Binary(op.value, left, right.value), right.next));
      }
    }
  }

  lemma ShownAt(g: Grammar, tokens: seq<Token>, i: nat, j: nat, problem: Problem)
    requires i <= j < |tokens| && Shows(g, tokens, j, problem, tokens[j].offset)
    ensures Real(g, tokens, i, problem, tokens[j].offset)
  {
    hide Shows;
  }

  lemma {:induction false} PrimaryIsFine(g: Grammar, tokens: seq<Token>, i: nat)
    requires WellEnded(tokens) && i < |tokens|
    ensures Fine(g, tokens, i, Primary(g, tokens, i))
    decreases |tokens| - i, 1
  {
    hide Real, Parse, ArrayBody, ObjectBody;
    var token := tokens[i];
    if token.kind.NumberToken? {
      if !g.isSafe(token.value) { ShownAt(g, tokens, i, i, NumberNotSafe); }
    } else if token.kind.StringToken? {
    } else if token.kind.Identifier? {
      if tokens[i + 1].value == "(" {
        ShownAt(g, tokens, i, i + 1, FunctionCall);
      } else if token.value !in {g.variable, "true", "false", "null"} {
        ShownAt(g, tokens, i, i, UnknownIdentifier(token.value));
      }
    } else if token.value == "(" {
      ParseIsFine(g, 0, tokens, i + 1);
      var inner := Parse(g, 0, tokens, i + 1);
      FineLater(g, tokens, i, i + 1, inner);
      if inner.Ok? {
        ExpectIsFine(g, tokens, ")", inner.next);
        FineLater(g, tokens, i, inner.next, ExpectToken(tokens, ")", inner.next));
      }
    } else if token.value == "[" {
      ArrayIsFine(g, tokens, i + 1);
      FineLater(g, tokens, i, i + 1, ArrayBody(g, tokens, i + 1));
    } else if token.value == "{" {
      ObjectIsFine(g, tokens, i + 1);
      FineLater(g, tokens, i, i + 1, ObjectBody(g, tokens, i + 1));
    } else {
      ShownAt(g, tokens, i, i, UnexpectedToken(token.value));
    }
  }

  lemma {:induction false} ArrayIsFine(g: Grammar, tokens: seq<Token>, i: nat)
    requires WellEnded(tokens) && i < |tokens|
    ensures Fine(g, tokens, i, ArrayBody(g, tokens, i))
    decreases |tokens| - i, 12
  {
    hide Real, Elements;
    if tokens[i].value != "]" {
      ElementsAreFine(g, tokens, i);
      var r := Elements(g, tokens, i);
      if r.Ok? {
        ExpectIsFine(g, tokens, "]", r.next);
        FineLater(g, tokens, i, r.next, ExpectToken(tokens, "]", r.next));
      }
    }
  }

  lemma {:induction false} ElementsAreFine(g: Grammar, tokens: seq<Token>, i: nat)
    requires WellEnded(tokens) && i < |tokens|
    ensures Fine(g, tokens, i, Elements(g, tokens, i))
    decreases |tokens| - i, 11
  {
    hide Real, Parse;
    ParseIsFine(g, 0, tokens, i);
    var first := Parse(g, 0, tokens, i);
    if first.Ok? && tokens[first.next].value == "," {
      ElementsAreFine(g, tokens, first.next + 1);
      FineLater(g, tokens, i, first.next + 1, Elements(g, tokens, first.next + 1));
    }
  }

  lemma {:induction false} ObjectIsFine(g: Grammar, tokens: seq<Token>, i: nat)
    requires WellEnded(tokens) && i < |tokens|
    ensures Fine(g, tokens, i, ObjectBody(g, tokens, i))
    decreases |tokens| - i, 12
  {
    hide Real, Entries;
    if tokens[i].value != "}" {
      EntriesAreFine(g, tokens, i, {});
      var r := Entries(g, tokens, i, {});
      if r.Ok? {
        ExpectIsFine(g, tokens, "}", r.next);
        FineLater(g, tokens, i, r.next, ExpectToken(tokens, "}", r.next));
      }
    }
  }

  lemma EntryIsFine(g: Grammar, tokens: seq<Token>, i: nat, keys: set<string>)
    requires WellEnded(tokens) && i < |tokens| && forall key :: key in keys ==> StringBefore(tokens, i, key)
    ensures Fine(g, tokens, i, EntryAt(g, tokens, i, keys))
    decreases |tokens| - i, 10
  {
    hide Real, Parse;
    var key := tokens[i];
    if !key.kind.StringToken? {
      ShownAt(g, tokens, i, i, KeyNotString);
    } else if key.value in keys {
      ShownAt(g, tokens, i, i, DuplicateKey(key.value));
    } else {
      ExpectIsFine(g, tokens, ":", i + 1);
      FineLater(g, tokens, i, i + 1, ExpectToken(tokens, ":", i + 1));
      if tokens[i + 1].value == ":" {
        ParseIsFine(g, 0, tokens, i + 2);
        FineLater(g, tokens, i, i + 2, Parse(g, 0, tokens, i + 2));
      }
    }
  }

  lemma {:induction false} EntriesAreFine(g: Grammar, tokens: seq<Token>, i: nat, keys: set<string>)
    requires WellEnded(tokens) && i < |tokens| && forall key :: key in keys ==> StringBefore(tokens, i, key)
    ensures Fine(g, tokens, i, Entries(g, tokens, i, keys))
    decreases |tokens| - i, 11
  {
    hide Real, Parse;
    EntryIsFine(g, tokens, i, keys);
    FirstEntry(g, tokens, i, keys);
    var entry := EntryAt(g, tokens, i, keys);
    if entry.Ok? && tokens[entry.next].value == "," {
      var next, keys' := entry.next + 1, keys + {entry.value.key};
      KeysBefore(tokens, i, next, keys, entry.value.key);
      EntriesAreFine(g, tokens, next, keys');
      FineLater(g, tokens, i, next, Entries(g, tokens, next, keys'));
    }
    hide Entries, EntryAt;
  }

  lemma KeysBefore(tokens: seq<Token>, i: nat, next: nat, keys: set<string>, key: string)
    requires i < next <= |tokens| && tokens[i].kind.StringToken? && tokens[i].value == key
    requires forall k :: k in keys ==> StringBefore(tokens, i, k)
    ensures forall k :: k in keys + {key} ==> StringBefore(tokens, next, k)
  {
  }

  /** Whatever the tokens, an error is shown by the token it points at. */
  lemma ProblemsAreReal(g: Grammar, tokens: seq<Token>)
    requires WellEnded(tokens)
    ensures match ParseAll(g, tokens)
      case Err(problem, offset) => exists j :: Shows(g, tokens, j, problem, offset)
      case Ok(_, _) => true
  {
    ParseIsFine(g, 0, tokens, 0);
    var r := Parse(g, 0, tokens, 0);
    if r.Ok? {
      var token := tokens[r.next];
      if token.value == "." {
        assert Shows(g, tokens, r.next, MemberAccess, token.offset);
      } else if token.value == "(" {
        assert Shows(g, tokens, r.next, FunctionCall, token.offset);
      } else {
        assert Shows(g, tokens, r.next, UnexpectedToken(token.value), token.offset);
      }
    }
    hide Parse;
  }
}
