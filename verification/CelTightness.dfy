/** A successful parse reads at least as many tokens as printing its result takes; hence round trips exactly when. */
module CelTightness {
  import opened CelSyntax
  import opened CelParser
  import opened CelRoundTrip
  import opened Prelude

  predicate SameText(tokens: seq<Token>, i: nat, printed: seq<Token>) {
    && i + |printed| <= |tokens|
    && forall k :: 0 <= k < |printed| ==> tokens[i + k].value == printed[k].value
  }

  /** The printing is no longer than what was read; if it is as long, it reads the same and `good` holds. */
  predicate Fits(tokens: seq<Token>, i: nat, j: nat, printed: seq<Token>, good: bool) {
    && i + |printed| <= j <= |tokens|
    && (i + |printed| == j ==> good && SameText(tokens, i, printed))
  }

  lemma FitsConcat(tokens: seq<Token>, i: nat, m: nat, j: nat, a: seq<Token>, ga: bool, b: seq<Token>, gb: bool)
    requires Fits(tokens, i, m, a, ga) && Fits(tokens, m, j, b, gb)
    ensures Fits(tokens, i, j, a + b, ga && gb)
  {
    if i + |a + b| == j {
      forall k | 0 <= k < |a + b| ensures tokens[i + k].value == (a + b)[k].value {
        if k >= |a| {
          assert tokens[m + (k - |a|)].value == b[k - |a|].value;
        }
      }
    }
  }

  lemma FitsToken(tokens: seq<Token>, i: nat, token: Token)
    requires i < |tokens| && tokens[i].value == token.value
    ensures Fits(tokens, i, i + 1, [token], true)
  {
  }

  /** A printing where a looser level is expected is the same, or shorter by its parentheses. */
  lemma FitsLooser(g: Grammar, level: nat, tighter: nat, tokens: seq<Token>, i: nat, j: nat, e: Expr)
    requires level <= tighter
    requires Fits(tokens, i, j, Print(tighter, e, g.variable), Parseable(g, e))
    ensures Fits(tokens, i, j, Print(level, e, g.variable), Parseable(g, e))
  {
  }

  ghost predicate Tight(g: Grammar, level: nat, tokens: seq<Token>, i: nat, r: Parsed<Expr>) {
    r.Ok? ==> Fits(tokens, i, r.next, Print(level, r.value, g.variable), Parseable(g, r.value))
  }

  lemma {:induction false} ParseIsTight(g: Grammar, level: nat, tokens: seq<Token>, i: nat)
    requires WellEnded(tokens) && i < |tokens| && level <= 8
    ensures Tight(g, level, tokens, i, Parse(g, level, tokens, i))
    decreases |tokens| - i, 10 - level
  {
    hide Fits, Print, Body, Parseable;
    if level == 0 {
      ParseIsTight(g, 1, tokens, i);
      var c := Parse(g, 1, tokens, i);
      if c.Ok? {
        FitsLooser(g, 0, 1, tokens, i, c.next, c.value);
        if tokens[c.next].value == "?" {
          ConditionalIsTight(g, tokens, i);
        }
      }
    } else if level <= 6 {
      ParseIsTight(g, level + 1, tokens, i);
      var first := Parse(g, level + 1, tokens, i);
      if first.Ok? {
        FitsLooser(g, level, level + 1, tokens, i, first.next, first.value);
        ChainIsTight(g, level, tokens, i, first.value, first.next);
      }
    } else if level == 7 {
      if UnaryAt(tokens[i]).Some? {
        ParseIsTight(g, 7, tokens, i + 1);
        var op, operand := UnaryAt(tokens[i]).value, Parse(g, 7, tokens, i + 1);
        if operand.Ok? {
          FitsToken(tokens, i, Sign(UnarySymbol(op)));
          FitsConcat(tokens, i, i + 1, operand.next, [Sign(UnarySymbol(op))], true,
                     Print(7, operand.value, g.variable), Parseable(g, operand.value));
          PrintUnary(g, op, operand.value);
        }
      } else {
        ParseIsTight(g, 8, tokens, i);
        var primary := Parse(g, 8, tokens, i);
        if primary.Ok? {
          FitsLooser(g, 7, 8, tokens, i, primary.next, primary.value);
        }
      }
    } else {
      PrimaryIsTight(g, tokens, i);
    }
  }

  lemma Unwrapped(level: nat, e: Expr, variable: string)
    requires level <= Tightness(e)
    ensures Print(level, e, variable) == Body(e, variable)
  {
    hide Body;
  }

  lemma PrintUnary(g: Grammar, op: UnaryOp, operand: Expr)
    ensures Print(7, Unary(op, operand), g.variable) == [Sign(UnarySymbol(op))] + Print(7, operand, g.variable)
    ensures Parseable(g, Unary(op, operand)) == (true && Parseable(g, operand))
  {
    hide Print;
    Unwrapped(7, Unary(op, operand), g.variable);
  }

  lemma PrintBinary(g: Grammar, op: BinaryOp, left: Expr, right: Expr)
    ensures Print(Level(op), Binary(op, left, right), g.variable)
         == (Print(Level(op), left, g.variable) + [Sign(Symbol(op))]) + Print(Level(op) + 1, right, g.variable)
    ensures Parseable(g, Binary(op, left, right)) == ((Parseable(g, left) && true) && Parseable(g, right))
  {
    hide Print, Level, Symbol;
    Unwrapped(Level(op), Binary(op, left, right), g.variable);
  }

  lemma PrintConditional(g: Grammar, c: Expr, t: Expr, f: Expr)
    ensures Print(0, Conditional(c, t, f), g.variable)
         == (((Print(1, c, g.variable) + [Punct("?")]) + Print(0, t, g.variable)) + [Punct(":")]) + Print(0, f, g.variable)
    ensures Parseable(g, Conditional(c, t, f))
         == ((((Parseable(g, c) && true) && Parseable(g, t)) && true) && Parseable(g, f))
  {
    hide Print;
    Unwrapped(0, Conditional(c, t, f), g.variable);
  }

  lemma {:induction false} ConditionalIsTight(g: Grammar, tokens: seq<Token>, i: nat)
    requires WellEnded(tokens) && i < |tokens|
    requires var c := Parse(g, 1, tokens, i);
      c.Ok? && tokens[c.next].value == "?" && Tight(g, 1, tokens, i, c)
    ensures Tight(g, 0, tokens, i, Parse(g, 0, tokens, i))
    decreases |tokens| - i, 9, 0
  {
    hide Fits, Print, Body, Parseable, Primary, Chain, OperatorAt, UnaryAt;
    var c := Parse(g, 1, tokens, i);
    ParseIsTight(g, 0, tokens, c.next + 1);
    var t := Parse(g, 0, tokens, c.next + 1);
    if t.Ok? && tokens[t.next].value == ":" {
      ParseIsTight(g, 0, tokens, t.next + 1);
      var f := Parse(g, 0, tokens, t.next + 1);
      if f.Ok? {
        assert Parse(g, 0, tokens, i) == Ok(Conditional(c.value, t.value, f.value), f.next);
        hide Parse;
        ConditionalFits(g, tokens, i, c.next, t.next, f.next, c.value, t.value, f.value);
      }
    }
  }

  lemma ConditionalFits(g: Grammar, tokens: seq<Token>, i: nat, q: nat, k: nat, j: nat, c: Expr, t: Expr, f: Expr)
    requires q < |tokens| && tokens[q].value == "?" && k < |tokens| && tokens[k].value == ":"
    requires Fits(tokens, i, q, Print(1, c, g.variable), Parseable(g, c))
    requires Fits(tokens, q + 1, k, Print(0, t, g.variable), Parseable(g, t))
    requires Fits(tokens, k + 1, j, Print(0, f, g.variable), Parseable(g, f))
    ensures Fits(tokens, i, j, Print(0, Conditional(c, t, f), g.variable), Parseable(g, Conditional(c, t, f)))
  {
    hide Fits, Print, Body, Parseable;
    FitsToken(tokens, q, Punct("?"));
    FitsToken(tokens, k, Punct(":"));
    FitsFive(tokens, i, q, k, j, Print(1, c, g.variable), Parseable(g, c), Punct("?"),
             Print(0, t, g.variable), Parseable(g, t), Punct(":"), Print(0, f, g.variable), Parseable(g, f));
    PrintConditional(g, c, t, f);
  }

  lemma FitsFive(tokens: seq<Token>, i: nat, q: nat, k: nat, j: nat, a: seq<Token>, ga: bool, b: Token, c: seq<Token>, gc: bool,
                 d: Token, e: seq<Token>, ge: bool)
    requires Fits(tokens, i, q, a, ga) && Fits(tokens, q, q + 1, [b], true) && Fits(tokens, q + 1, k, c, gc)
    requires Fits(tokens, k, k + 1, [d], true) && Fits(tokens, k + 1, j, e, ge)
    ensures Fits(tokens, i, j, a + [b] + c + [d] + e, (((ga && true) && gc) && true) && ge)
  {
    hide Fits;
    FitsConcat(tokens, i, q, q + 1, a, ga, [b], true);
    FitsConcat(tokens, i, q + 1, k, a + [b], ga && true, c, gc);
    FitsConcat(tokens, i, k, k + 1, a + [b] + c, ga && true && gc, [d], true);
    FitsConcat(tokens, i, k + 1, j, a + [b] + c + [d], ga && true && gc && true, e, ge);
  }

  lemma {:induction false} ChainIsTight(g: Grammar, level: nat, tokens: seq<Token>, i: nat, left: Expr, j: nat)
    requires WellEnded(tokens) && i < j < |tokens| && 1 <= level <= 6
    requires Fits(tokens, i, j, Print(level, left, g.variable), Parseable(g, left))
    ensures Tight(g, level, tokens, i, Chain(g, level, tokens, left, j))
    decreases |tokens| - j, 10 - level
  {
    hide Fits, Print, Body, Parseable, Parse;
    var op := OperatorAt(level, tokens[j]);
    if op.Some? {
      ParseIsTight(g, level + 1, tokens, j + 1);
      var right := Parse(g, level + 1, tokens, j + 1);
      if right.Ok? {
        var sign := Sign(Symbol(op.value));
        FitsToken(tokens, j, sign);
        FitsConcat(tokens, i, j, j + 1, Print(level, left, g.variable), Parseable(g, left), [sign], true);
        FitsConcat(tokens, i, j + 1, right.next, Print(level, left, g.variable) + [sign], Parseable(g, left) && true,
                   Print(level + 1, right.value, g.variable), Parseable(g, right.value));
        PrintBinary(g, op.value, left, right.value);
        ChainIsTight(g, level, tokens, i, Binary(op.value, left, right.value), right.next);
      }
    }
  }

  lemma {:induction false} PrimaryIsTight(g: Grammar, tokens: seq<Token>, i: nat)
    requires WellEnded(tokens) && i < |tokens|
    ensures Tight(g, 8, tokens, i, Primary(g, tokens, i))
    decreases |tokens| - i, 1
  {
    hide Parse, ArrayBody, ObjectBody;
    var token, r := tokens[i], Primary(g, tokens, i);
    if token.kind.NumberToken? || token.kind.StringToken? || token.kind.Identifier? {
      if r.Ok? {
        var printed := Body(r.value, g.variable);
        FitsToken(tokens, i, printed[0]);
        assert printed == [printed[0]] && Print(8, r.value, g.variable) == printed;
        assert Parseable(g, r.value);
      }
    } else if token.value == "(" {
      ParseIsTight(g, 0, tokens, i + 1);
      var inner := Parse(g, 0, tokens, i + 1);
      if inner.Ok? && tokens[inner.next].value == ")" {
        ParenthesesFit(g, tokens, i, inner.value, inner.next);
      }
    } else if token.value == "[" {
      ArrayIsTight(g, tokens, i + 1);
    } else if token.value == "{" {
      ObjectIsTight(g, tokens, i + 1);
    }
  }

  lemma ParenthesesFit(g: Grammar, tokens: seq<Token>, i: nat, e: Expr, j: nat)
    requires i < |tokens| && tokens[i].value == "(" && j < |tokens| && tokens[j].value == ")"
    requires Fits(tokens, i + 1, j, Print(0, e, g.variable), Parseable(g, e))
    ensures Fits(tokens, i, j + 1, Print(8, e, g.variable), Parseable(g, e))
  {
    var open, close, body, good := Punct("("), Punct(")"), Print(0, e, g.variable), Parseable(g, e);
    FitsToken(tokens, i, open);
    FitsToken(tokens, j, close);
    FitsConcat(tokens, i, i + 1, j, [open], true, body, good);
    FitsConcat(tokens, i, j, j + 1, [open] + body, true && good, [close], true);
    assert body == Body(e, g.variable);
    hide Parseable, Body;
  }

  lemma BracketsFit(tokens: seq<Token>, i: nat, j: nat, open: Token, inner: seq<Token>, good: bool, close: Token)
    requires i < |tokens| && tokens[i].value == open.value && j < |tokens| && tokens[j].value == close.value
    requires Fits(tokens, i + 1, j, inner, good)
    ensures Fits(tokens, i, j + 1, [open] + inner + [close], good)
  {
    FitsToken(tokens, i, open);
    FitsToken(tokens, j, close);
    FitsConcat(tokens, i, i + 1, j, [open], true, inner, good);
    FitsConcat(tokens, i, j, j + 1, [open] + inner, true && good, [close], true);
  }

  lemma {:induction false} ArrayIsTight(g: Grammar, tokens: seq<Token>, i: nat)
    requires WellEnded(tokens) && 0 < i < |tokens| && tokens[i - 1].value == "["
    ensures Tight(g, 8, tokens, i - 1, ArrayBody(g, tokens, i))
    decreases |tokens| - i, 12
  {
    hide Parse, Elements;
    if tokens[i].value == "]" {
      BracketsFit(tokens, i - 1, i, Punct("["), [], true, Punct("]"));
      assert [Punct("[")] + [] + [Punct("]")] == Print(8, ArrayExpr([]), g.variable);
    } else {
      ElementsAreTight(g, tokens, i);
      var r := Elements(g, tokens, i);
      if r.Ok? && tokens[r.next].value == "]" {
        var inner := PrintElements(r.value, g.variable);
        FirstOfElements(r.value, g.variable);
        assert i + |inner| == r.next ==> tokens[i + 0].value == inner[0].value;
        assert Fits(tokens, i, r.next, inner, Parseable(g, ArrayExpr(r.value)));
        BracketsFit(tokens, i - 1, r.next, Punct("["), inner, Parseable(g, ArrayExpr(r.value)), Punct("]"));
        assert Print(8, ArrayExpr(r.value), g.variable) == [Punct("[")] + inner + [Punct("]")];
      }
    }
  }

  lemma {:induction false} ElementsAreTight(g: Grammar, tokens: seq<Token>, i: nat)
    requires WellEnded(tokens) && i < |tokens|
    ensures var r := Elements(g, tokens, i);
      r.Ok? ==> Fits(tokens, i, r.next, PrintElements(r.value, g.variable), ParseableElements(g, r.value))
    decreases |tokens| - i, 11
  {
    hide Parse, Print, Parseable, Fits;
    ParseIsTight(g, 0, tokens, i);
    var first := Parse(g, 0, tokens, i);
    if first.Ok? {
      var p, good := Print(0, first.value, g.variable), Parseable(g, first.value);
      if tokens[first.next].value != "," {
        assert ParseableElements(g, [first.value]) == good;
      } else {
        ElementsAreTight(g, tokens, first.next + 1);
        var rest := Elements(g, tokens, first.next + 1);
        if rest.Ok? {
          FitsToken(tokens, first.next, Punct(","));
          FitsConcat(tokens, i, first.next, first.next + 1, p, good, [Punct(",")], true);
          FitsConcat(tokens, i, first.next + 1, rest.next, p + [Punct(",")], good && true,
                     PrintElements(rest.value, g.variable), ParseableElements(g, rest.value));
          PrintMoreElements(g, first.value, rest.value);
        }
      }
    }
  }

  lemma PrintMoreElements(g: Grammar, first: Expr, rest: seq<Expr>)
    requires rest != []
    ensures PrintElements([first] + rest, g.variable)
         == (Print(0, first, g.variable) + [Punct(",")]) + PrintElements(rest, g.variable)
    ensures ParseableElements(g, [first] + rest) == ((Parseable(g, first) && true) && ParseableElements(g, rest))
  {
    assert ([first] + rest)[1..] == rest;
  }

  lemma {:induction false} ObjectIsTight(g: Grammar, tokens: seq<Token>, i: nat)
    requires WellEnded(tokens) && 0 < i < |tokens| && tokens[i - 1].value == "{"
    ensures Tight(g, 8, tokens, i - 1, ObjectBody(g, tokens, i))
    decreases |tokens| - i, 12
  {
    hide Parse, Entries;
    if tokens[i].value == "}" {
      BracketsFit(tokens, i - 1, i, Punct("{"), [], true, Punct("}"));
      assert [Punct("{")] + [] + [Punct("}")] == Print(8, ObjectExpr([]), g.variable);
    } else {
      EntriesAreTight(g, tokens, i, {});
      var r := Entries(g, tokens, i, {});
      if r.Ok? && tokens[r.next].value == "}" {
        var inner := PrintEntries(r.value, g.variable);
        FirstOfEntries(r.value, g.variable);
        assert i + |inner| == r.next ==> tokens[i + 0].value == inner[0].value;
        assert Fits(tokens, i, r.next, inner, Parseable(g, ObjectExpr(r.value)));
        BracketsFit(tokens, i - 1, r.next, Punct("{"), inner, Parseable(g, ObjectExpr(r.value)), Punct("}"));
        assert Print(8, ObjectExpr(r.value), g.variable) == [Punct("{")] + inner + [Punct("}")];
      }
    }
  }

  lemma {:induction false} EntriesAreTight(g: Grammar, tokens: seq<Token>, i: nat, keys: set<string>)
    requires WellEnded(tokens) && i < |tokens|
    ensures var r := Entries(g, tokens, i, keys);
      r.Ok? ==> Fits(tokens, i, r.next, PrintEntries(r.value, g.variable), ParseableEntries(g, r.value, keys))
    decreases |tokens| - i, 11
  {
    hide Parse, Print, Parseable, Fits;
    var key := tokens[i];
    if key.kind.StringToken? && key.value !in keys && tokens[i + 1].value == ":" {
      ParseIsTight(g, 0, tokens, i + 2);
      var value := Parse(g, 0, tokens, i + 2);
      if value.Ok? {
        var entry := Entry(key.value, value.value);
        EntryFits(g, tokens, i, entry, value.next);
        var p, good := PrintEntry(entry, g.variable), Parseable(g, value.value);
        if tokens[value.next].value != "," {
          assert ParseableEntries(g, [entry], keys) == good;
        } else {
          EntriesAreTight(g, tokens, value.next + 1, keys + {key.value});
          var rest := Entries(g, tokens, value.next + 1, keys + {key.value});
          if rest.Ok? {
            FitsToken(tokens, value.next, Punct(","));
            FitsConcat(tokens, i, value.next, value.next + 1, p, good, [Punct(",")], true);
            FitsConcat(tokens, i, value.next + 1, rest.next, p + [Punct(",")], good && true,
                       PrintEntries(rest.value, g.variable), ParseableEntries(g, rest.value, keys + {key.value}));
            PrintMoreEntries(g, entry, rest.value, keys);
          }
        }
      }
    }
  }

  lemma EntryFits(g: Grammar, tokens: seq<Token>, i: nat, entry: Entry, j: nat)
    requires i + 1 < |tokens| && tokens[i].value == entry.key && tokens[i + 1].value == ":"
    requires Fits(tokens, i + 2, j, Print(0, entry.value, g.variable), Parseable(g, entry.value))
    ensures Fits(tokens, i, j, PrintEntry(entry, g.variable), Parseable(g, entry.value))
  {
    hide Parseable, Print;
    var key, colon := Token(StringToken, entry.key, 0), Punct(":");
    FitsToken(tokens, i, key);
    FitsToken(tokens, i + 1, colon);
    FitsConcat(tokens, i, i + 1, i + 2, [key], true, [colon], true);
    assert [key] + [colon] == [key, colon];
    FitsConcat(tokens, i, i + 2, j, [key, colon], true && true, Print(0, entry.value, g.variable), Parseable(g, entry.value));
  }

  lemma PrintMoreEntries(g: Grammar, first: Entry, rest: seq<Entry>, keys: set<string>)
    requires rest != []
    ensures PrintEntries([first] + rest, g.variable)
         == (PrintEntry(first, g.variable) + [Punct(",")]) + PrintEntries(rest, g.variable)
    ensures first.key !in keys ==>
      ParseableEntries(g, [first] + rest, keys)
        == ((Parseable(g, first.value) && true) && ParseableEntries(g, rest, keys + {first.key}))
  {
    assert ([first] + rest)[1..] == rest;
  }

  // -------------------------------------------------------------------------
  // The round trip
  // -------------------------------------------------------------------------

  /**
   The parser inverts printing on an expression, wherever its tokens stand in the source, if and
   only if the expression is Parseable; and then it consumes everything up to the end.
   */
  lemma RoundTripExactly(g: Grammar, e: Expr, tokens: seq<Token>)
    requires g.Valid() && WellEnded(tokens)
    requires |tokens| == |Print(0, e, g.variable)| + 1 && Matches(tokens, 0, Print(0, e, g.variable))
    ensures (ParseAll(g, tokens).Ok? && ParseAll(g, tokens).value == e) <==> Parseable(g, e)
    ensures Parseable(g, e) ==> ParseAll(g, tokens) == Ok(e, |tokens| - 1)
  {
    var end := |tokens| - 1;
    if Parseable(g, e) {
      PunctuationEnds(tokens[end]);
      RoundTripAt(g, 0, e, tokens, 0);
    }
    ParseIsTight(g, 0, tokens, 0);
    hide Parseable, Print, Parse;
  }

  /** The exclusion is real: an array whose first element is the string "]". */
  lemma ClosingStringIsMisread(g: Grammar, tokens: seq<Token>)
    requires g.Valid() && WellEnded(tokens) && |tokens| == 4
    requires Matches(tokens, 0, [Punct("["), Token(StringToken, "]", 0), Punct("]")])
    ensures !Parseable(g, ArrayExpr([StringLiteral("]")]))
    ensures ParseAll(g, tokens).Err?
  {
    assert ParseableElements(g, [StringLiteral("]")]);
    var e := ArrayExpr([StringLiteral("]")]);
    assert Print(0, StringLiteral("]"), g.variable)[0].value == "]";
    var printed := [Punct("["), Token(StringToken, "]", 0), Punct("]")];
    assert printed[0].value == "[" && printed[1].value == "]" && printed[2].value == "]";
    assert tokens[0 + 0].value == "[" && tokens[0 + 1].value == "]" && tokens[0 + 2].value == "]";
    assert tokens[0].kind == Punctuation && tokens[0 + 2].kind == Punctuation;
    assert Primary(g, tokens, 0) == Ok(ArrayExpr([]), 2);
    PunctuationEnds(tokens[2]);
    Ascend(g, 8, 0, tokens, 0, ArrayExpr([]), 2);
  }
}
