/** From source text to expression: what is printed, written out and tokenized, is parsed back. */
module CelSource {
  import opened CelSyntax
  import opened CelParser
  import opened CelRoundTrip
  import CelTightness
  import opened CelTokenizer
  import opened Prelude

  const SPACE: Unit := 32
  const QUOTE: Unit := 34

  /** Strings of the parser that are units of the tokenizer, one for one. */
  predicate OneForOne(s: string) {
    forall i :: 0 <= i < |s| ==> s[i] as int < 0x1_0000
  }

  function Units(s: string): (text: Text)
    requires OneForOne(s)
    ensures |text| == |s|
  {
    seq(|s|, i requires 0 <= i < |s| => s[i] as int)
  }

  predicate IsWordText(u: Text) {
    u != [] && StartsWord(u[0]) && forall i :: 0 <= i < |u| ==> IsWord(u[i])
  }

  predicate IsNumberText(u: Text) {
    u != [] && IsDigit(u[0]) && NumberEnd(u, 0) == |u|
  }

  predicate IsOperatorText(u: Text) {
    (|u| == 1 && IsSingle(u[0])) || (|u| == 2 && IsDouble(u[0], u[1]))
  }

  /** A token the tokenizer can give. */
  predicate Writable(token: Token) {
    && OneForOne(token.value)
    && var u := Units(token.value);
       match token.kind
       case Identifier => IsWordText(u)
       case StringToken => true
       case NumberToken => IsNumberText(u)
       case Operator => IsOperatorText(u)
       case Punctuation => |u| == 1 && IsPunctuation(u[0])
       case Eof => false
  }

  predicate AllWritable(tokens: seq<Token>) {
    forall i :: 0 <= i < |tokens| ==> Writable(tokens[i])
  }

  function WrittenOut(token: Token): (text: Text)
    requires Writable(token)
    ensures |text| > 0
  {
    if token.kind.StringToken? then Quoted(QUOTE, Units(token.value)) else Units(token.value)
  }

  /** The tokens written out, with a space after each. */
  function Source(tokens: seq<Token>): Text
    requires AllWritable(tokens)
  {
    if tokens == [] then [] else WrittenOut(tokens[0]) + ([SPACE] + Source(tokens[1..]))
  }

  function LexemeOf(token: Token, offset: nat): Lexeme
    requires Writable(token)
  {
    Lexeme(token.kind, Units(token.value), offset, offset + |WrittenOut(token)|)
  }

  function Lexemes(tokens: seq<Token>, offset: nat): (lexemes: seq<Lexeme>)
    requires AllWritable(tokens)
    ensures |lexemes| == |tokens|
  {
    if tokens == [] then []
    else [LexemeOf(tokens[0], offset)] + Lexemes(tokens[1..], LexemeOf(tokens[0], offset).end + 1)
  }

  // -------------------------------------------------------------------------
  // One token
  // -------------------------------------------------------------------------

  /** A text stands in the source, a space behind it. */
  predicate Stands(source: Text, o: nat, u: Text) {
    o + |u| < |source| && source[o..o + |u|] == u && source[o + |u|] == SPACE
  }

  lemma SameAt(source: Text, o: nat, u: Text, k: nat)
    requires Stands(source, o, u) && k <= |u|
    ensures source[o + k] == if k < |u| then u[k] else SPACE
    ensures DigitAt(source, o + k) == DigitAt(u, k)
  {
    if k < |u| {
      assert source[o + k] == source[o..o + |u|][k];
    }
  }

  lemma {:induction false} DigitsEndHere(source: Text, o: nat, u: Text, k: nat)
    requires Stands(source, o, u) && k <= |u|
    ensures DigitsEnd(source, o + k) == o + DigitsEnd(u, k)
    decreases |u| - k
  {
    SameAt(source, o, u, k);
    if k < |u| && IsDigit(u[k]) {
      DigitsEndHere(source, o, u, k + 1);
    }
  }

  lemma FractionEndHere(source: Text, o: nat, u: Text, k: nat)
    requires Stands(source, o, u) && k <= |u|
    ensures FractionEnd(source, o + k) == o + FractionEnd(u, k)
  {
    hide DigitsEnd;
    SameAt(source, o, u, k);
    if k < |u| {
      SameAt(source, o, u, k + 1);
      DigitsEndHere(source, o, u, k + 1);
    }
  }

  lemma ExponentEndHere(source: Text, o: nat, u: Text, k: nat)
    requires Stands(source, o, u) && k <= |u|
    ensures ExponentEnd(source, o + k) == o + ExponentEnd(u, k)
  {
    hide DigitsEnd;
    SameAt(source, o, u, k);
    if k < |u| {
      SameAt(source, o, u, k + 1);
      DigitsEndHere(source, o, u, k + 1);
      if k + 2 <= |u| {
        SameAt(source, o, u, k + 2);
        DigitsEndHere(source, o, u, k + 2);
      }
    }
  }

  lemma NumberEndHere(source: Text, o: nat, u: Text)
    requires Stands(source, o, u) && IsNumberText(u)
    ensures IsDigit(source[o]) && NumberEnd(source, o) == o + |u|
  {
    hide DigitsEnd, FractionEnd, ExponentEnd;
    SameAt(source, o, u, 0);
    DigitsEndHere(source, o, u, 0);
    var whole := if u[0] == 48 then 1 else DigitsEnd(u, 0);
    FractionEndHere(source, o, u, whole);
    ExponentEndHere(source, o, u, FractionEnd(u, whole));
  }

  lemma {:induction false} WordEndHere(source: Text, o: nat, u: Text, k: nat)
    requires Stands(source, o, u) && k <= |u| && forall i :: 0 <= i < |u| ==> IsWord(u[i])
    ensures WordEnd(source, o + k) == o + |u|
    decreases |u| - k
  {
    SameAt(source, o, u, k);
    if k < |u| {
      WordEndHere(source, o, u, k + 1);
    }
  }

  lemma InsideHere(source: Text, o: nat, inside: Text)
    requires Stands(source, o, [QUOTE] + inside + [QUOTE])
    ensures source[o] == QUOTE && o + 1 + |inside| < |source|
    ensures source[o + 1..o + 1 + |inside|] == inside && source[o + 1 + |inside|] == QUOTE
  {
    var whole := [QUOTE] + inside + [QUOTE];
    SameAt(source, o, whole, 0);
    SameAt(source, o, whole, 1 + |inside|);
    SplitSlice(source, o, [QUOTE] + inside, [QUOTE]);
    SplitSlice(source, o, [QUOTE], inside);
  }

  lemma QuotedIs(text: Text)
    ensures Quoted(QUOTE, text) == [QUOTE] + AllWritten(SpellAll(QUOTE, text)) + [QUOTE]
  {
    hide AllWritten, SpellAll;
  }

  lemma StringHere(source: Text, o: nat, text: Text)
    requires Stands(source, o, Quoted(QUOTE, text))
    ensures source[o] == QUOTE
    ensures StringFrom(source, o, QUOTE, o + 1, []) == Result.Ok(Lexeme(StringToken, text, o, o + |Quoted(QUOTE, text)|))
  {
    hide StringFrom, SpellAll, AllWritten, Meanings, Quoted, Stands, AllAllowed;
    var spellings := SpellAll(QUOTE, text);
    QuotedIs(text);
    InsideHere(source, o, AllWritten(spellings));
    SpelledMeansTheText(QUOTE, text);
    SpellingsAreRead(source, o, QUOTE, o + 1, [], spellings);
    assert [] + text == text;
  }

  lemma QuotedHere(source: Text, o: nat, text: Text)
    requires Stands(source, o, Quoted(QUOTE, text))
    ensures TokenAt(source, o) == Result.Ok(Lexeme(StringToken, text, o, o + |Quoted(QUOTE, text)|)) && !IsSpace(source[o])
  {
    hide StringFrom, Quoted;
    StringHere(source, o, text);
  }

  lemma NumberHere(source: Text, o: nat, u: Text)
    requires Stands(source, o, u) && IsNumberText(u)
    ensures TokenAt(source, o) == Result.Ok(Lexeme(NumberToken, u, o, o + |u|)) && !IsSpace(source[o])
  {
    hide NumberEnd;
    NumberEndHere(source, o, u);
  }

  lemma WordHere(source: Text, o: nat, u: Text)
    requires Stands(source, o, u) && IsWordText(u)
    ensures TokenAt(source, o) == Result.Ok(Lexeme(Identifier, u, o, o + |u|)) && !IsSpace(source[o])
  {
    hide WordEnd;
    SameAt(source, o, u, 0);
    WordEndHere(source, o, u, 1);
  }

  lemma OperatorHere(source: Text, o: nat, u: Text)
    requires Stands(source, o, u) && IsOperatorText(u)
    ensures TokenAt(source, o) == Result.Ok(Lexeme(Operator, u, o, o + |u|)) && !IsSpace(source[o])
  {
    SameAt(source, o, u, 0);
    SameAt(source, o, u, 1);
  }

  lemma PunctuationHere(source: Text, o: nat, u: Text)
    requires Stands(source, o, u) && |u| == 1 && IsPunctuation(u[0])
    ensures TokenAt(source, o) == Result.Ok(Lexeme(Punctuation, u, o, o + 1)) && !IsSpace(source[o])
  {
    SameAt(source, o, u, 0);
  }

  /** A token written out in the source is the one read there. */
  lemma TokenHere(source: Text, o: nat, token: Token)
    requires Writable(token) && Stands(source, o, WrittenOut(token))
    ensures TokenAt(source, o) == Result.Ok(Lexeme(token.kind, Units(token.value), o, o + |WrittenOut(token)|))
    ensures !IsSpace(source[o])
  {
    hide TokenAt, Stands, IsNumberText, IsWordText, IsOperatorText, Quoted;
    var u := Units(token.value);
    match token.kind
    case StringToken => QuotedHere(source, o, u);
    case NumberToken => NumberHere(source, o, u);
    case Identifier => WordHere(source, o, u);
    case Operator => OperatorHere(source, o, u);
    case Punctuation => PunctuationHere(source, o, u);
  }

  // -------------------------------------------------------------------------
  // All tokens
  // -------------------------------------------------------------------------

  lemma {:induction false} SourceIsTokenized(source: Text, o: nat, tokens: seq<Token>)
    requires AllWritable(tokens) && o <= |source| && source[o..] == Source(tokens)
    ensures Tokens(source, o) == Result.Ok(Lexemes(tokens, o) + [Lexeme(Eof, [], |source|, |source|)])
    decreases |tokens|
  {
    hide Tokens, LexemeOf, Writable, Source, Lexemes;
    if tokens == [] {
      NothingIsRead(source, o, tokens);
    } else {
      FirstIsRead(source, o, tokens);
      SourceIsTokenized(source, LexemeOf(tokens[0], o).end + 1, tokens[1..]);
      LexemesGoOn(tokens, o, |source|);
    }
  }

  lemma NothingIsRead(source: Text, o: nat, tokens: seq<Token>)
    requires tokens == [] && o <= |source| && source[o..] == Source(tokens)
    ensures Tokens(source, o) == Result.Ok(Lexemes(tokens, o) + [Lexeme(Eof, [], |source|, |source|)])
  {
    var eof := Lexeme(Eof, [], |source|, |source|);
    assert o == |source|;
    assert Lexemes(tokens, o) == [];
    assert [] + [eof] == [eof];
  }

  lemma LexemesGoOn(tokens: seq<Token>, o: nat, end: nat)
    requires AllWritable(tokens) && tokens != []
    ensures var first, eof := LexemeOf(tokens[0], o), Lexeme(Eof, [], end, end);
      Lexemes(tokens, o) + [eof] == [first] + (Lexemes(tokens[1..], first.end + 1) + [eof])
  {
    hide LexemeOf, Writable;
  }

  lemma FirstIsRead(source: Text, o: nat, tokens: seq<Token>)
    requires AllWritable(tokens) && tokens != [] && o <= |source| && source[o..] == Source(tokens)
    ensures var first := LexemeOf(tokens[0], o);
      && first.end < |source| && source[first.end + 1..] == Source(tokens[1..])
      && Tokens(source, o) == Prepended([first], Tokens(source, first.end + 1))
  {
    hide TokenAt, WrittenOut, Writable, IsSpace, Tokens;
    FirstStands(source, o, WrittenOut(tokens[0]), Source(tokens[1..]));
    TokenHere(source, o, tokens[0]);
    OneMore(source, o, LexemeOf(tokens[0], o));
  }

  /** A token with a space behind it, then the tokens of the rest. */
  lemma OneMore(source: Text, o: nat, lexeme: Lexeme)
    requires o < |source| && !IsSpace(source[o]) && TokenAt(source, o) == Result.Ok(lexeme)
    requires lexeme.end < |source| && source[lexeme.end] == SPACE
    ensures Tokens(source, o) == Prepended([lexeme], Tokens(source, lexeme.end + 1))
  {
    hide TokenAt;
    assert Tokens(source, lexeme.end) == Tokens(source, lexeme.end + 1);
  }

  lemma FirstStands(source: Text, o: nat, w: Text, rest: Text)
    requires o <= |source| && source[o..] == w + ([SPACE] + rest)
    ensures Stands(source, o, w) && source[o + |w| + 1..] == rest
  {
    var tail := source[o..];
    assert source[o..o + |w|] == tail[..|w|];
    assert source[o + |w|] == tail[|w|];
    assert source[o + |w| + 1..] == tail[|w| + 1..];
  }

  // -------------------------------------------------------------------------
  // Printed expressions
  // -------------------------------------------------------------------------

  /** Expressions all of whose texts the tokenizer can give. */
  predicate Spellable(e: Expr)
    decreases e, 1
  {
    match e
    case StringLiteral(text) => OneForOne(text)
    case NumberLiteral(digits) => OneForOne(digits) && IsNumberText(Units(digits))
    case ArrayExpr(elements) => SpellableElements(elements)
    case ObjectExpr(entries) => SpellableEntries(entries)
    case Unary(_, operand) => Spellable(operand)
    case Binary(_, left, right) => Spellable(left) && Spellable(right)
    case Conditional(condition, whenTrue, whenFalse) => Spellable(condition) && Spellable(whenTrue) && Spellable(whenFalse)
    case _ => true
  }

  predicate SpellableElements(elements: seq<Expr>)
    decreases elements, 0
  {
    elements != [] ==> Spellable(elements[0]) && SpellableElements(elements[1..])
  }

  predicate SpellableEntries(entries: seq<Entry>)
    decreases entries, 0
  {
    entries != [] ==> OneForOne(entries[0].key) && Spellable(entries[0].value) && SpellableEntries(entries[1..])
  }

  predicate IsVariable(variable: string) {
    OneForOne(variable) && IsWordText(Units(variable))
  }

  lemma PunctWritable(value: string)
    requires value in {"(", ")", "[", "]", "{", "}", ",", ":", "?"}
    ensures Writable(Punct(value)) && AllWritable([Punct(value)])
  {
  }

  lemma SignWritable(op: BinaryOp)
    ensures AllWritable([Sign(Symbol(op))])
  {
    assert Writable(Sign(Symbol(op)));
  }

  lemma UnarySignWritable(op: UnaryOp)
    ensures AllWritable([Sign(UnarySymbol(op))])
  {
    assert Writable(Sign(UnarySymbol(op)));
  }

  lemma WordsWritable()
    ensures AllWritable([Word("true")]) && AllWritable([Word("false")]) && AllWritable([Word("null")])
  {
    assert Writable(Word("true")) && Writable(Word("false")) && Writable(Word("null"));
  }

  lemma WritableConcat(a: seq<Token>, b: seq<Token>)
    requires AllWritable(a) && AllWritable(b)
    ensures AllWritable(a + b)
  {
    hide Writable;
  }

  lemma {:induction false} PrintWritable(level: nat, e: Expr, variable: string)
    requires IsVariable(variable) && Spellable(e)
    ensures AllWritable(Print(level, e, variable))
    decreases e, 2
  {
    hide Writable, AllWritable, Spellable, Body, IsVariable;
    BodyWritable(e, variable);
    PunctWritable("(");
    PunctWritable(")");
    WritableConcat([Punct("(")], Body(e, variable));
    WritableConcat([Punct("(")] + Body(e, variable), [Punct(")")]);
  }

  lemma {:induction false} BodyWritable(e: Expr, variable: string)
    requires IsVariable(variable) && Spellable(e)
    ensures AllWritable(Body(e, variable))
    decreases e, 1
  {
    hide Print, PrintElements, PrintEntries;
    match e
    case StringLiteral(_) =>
    case NumberLiteral(_) =>
    case BoolLiteral(_) => WordsWritable();
    case NullLiteral => WordsWritable();
    case Input =>
    case _ =>
      hide Writable, AllWritable, Word, Sign, Punct;
      CompoundWritable(e, variable);
  }

  lemma {:induction false} CompoundWritable(e: Expr, variable: string)
    requires IsVariable(variable) && Spellable(e)
    requires e.ArrayExpr? || e.ObjectExpr? || e.Unary? || e.Binary? || e.Conditional?
    ensures AllWritable(Body(e, variable))
    decreases e, 0
  {
    hide Writable, AllWritable, Print, PrintElements, PrintEntries, IsVariable, Sign, Punct, Symbol, UnarySymbol, Level;
    match e
    case ArrayExpr(elements) =>
      ElementsWritable(elements, variable);
      PunctWritable("[");
      PunctWritable("]");
      WritableConcat([Punct("[")], PrintElements(elements, variable));
      WritableConcat([Punct("[")] + PrintElements(elements, variable), [Punct("]")]);
    case ObjectExpr(entries) =>
      EntriesWritable(entries, variable);
      PunctWritable("{");
      PunctWritable("}");
      WritableConcat([Punct("{")], PrintEntries(entries, variable));
      WritableConcat([Punct("{")] + PrintEntries(entries, variable), [Punct("}")]);
    case Unary(op, operand) =>
      PrintWritable(7, operand, variable);
      UnarySignWritable(op);
      WritableConcat([Sign(UnarySymbol(op))], Print(7, operand, variable));
    case Binary(op, left, right) =>
      PrintWritable(Level(op), left, variable);
      PrintWritable(Level(op) + 1, right, variable);
      SignWritable(op);
      WritableConcat(Print(Level(op), left, variable), [Sign(Symbol(op))]);
      WritableConcat(Print(Level(op), left, variable) + [Sign(Symbol(op))], Print(Level(op) + 1, right, variable));
    case Conditional(condition, whenTrue, whenFalse) =>
      PrintWritable(1, condition, variable);
      PrintWritable(0, whenTrue, variable);
      PrintWritable(0, whenFalse, variable);
      FiveWritable(Print(1, condition, variable), Print(0, whenTrue, variable), Print(0, whenFalse, variable));
  }

  lemma FiveWritable(c: seq<Token>, t: seq<Token>, f: seq<Token>)
    requires AllWritable(c) && AllWritable(t) && AllWritable(f)
    ensures AllWritable(c + [Punct("?")] + t + [Punct(":")] + f)
  {
    hide Writable, AllWritable, Punct;
    PunctWritable("?");
    PunctWritable(":");
    WritableConcat(c, [Punct("?")]);
    WritableConcat(c + [Punct("?")], t);
    WritableConcat(c + [Punct("?")] + t, [Punct(":")]);
    WritableConcat(c + [Punct("?")] + t + [Punct(":")], f);
  }

  lemma {:induction false} ElementsWritable(elements: seq<Expr>, variable: string)
    requires IsVariable(variable) && SpellableElements(elements)
    ensures AllWritable(PrintElements(elements, variable))
    decreases elements, 0
  {
    hide Writable, Print, Spellable, IsVariable, Punct;
    if elements != [] {
      PrintWritable(0, elements[0], variable);
      ElementsWritable(elements[1..], variable);
      PunctWritable(",");
      hide AllWritable;
      WritableConcat(Print(0, elements[0], variable), [Punct(",")]);
      WritableConcat(Print(0, elements[0], variable) + [Punct(",")], PrintElements(elements[1..], variable));
    }
  }

  lemma {:induction false} EntriesWritable(entries: seq<Entry>, variable: string)
    requires IsVariable(variable) && SpellableEntries(entries)
    ensures AllWritable(PrintEntries(entries, variable))
    decreases entries, 0
  {
    hide Writable, Print, PrintEntry, Spellable, IsVariable, Punct;
    if entries != [] {
      EntryWritable(entries[0], variable);
      EntriesWritable(entries[1..], variable);
      PunctWritable(",");
      hide AllWritable;
      WritableConcat(PrintEntry(entries[0], variable), [Punct(",")]);
      WritableConcat(PrintEntry(entries[0], variable) + [Punct(",")], PrintEntries(entries[1..], variable));
    }
  }

  lemma {:induction false} EntryWritable(entry: Entry, variable: string)
    requires IsVariable(variable) && OneForOne(entry.key) && Spellable(entry.value)
    ensures AllWritable(PrintEntry(entry, variable))
    decreases entry, 0
  {
    var key := Token(StringToken, entry.key, 0);
    assert Writable(key);
    PrintWritable(0, entry.value, variable);
    PunctWritable(":");
    hide Writable, Print, Punct;
    assert AllWritable([key, Punct(":")]);
    WritableConcat([key, Punct(":")], Print(0, entry.value, variable));
  }

  // -------------------------------------------------------------------------
  // The round trip
  // -------------------------------------------------------------------------

  /** Units that are characters by themselves, as all but surrogates are. */
  predicate AreCharacters(text: Text) {
    forall i :: 0 <= i < |text| ==> text[i] < 0xD800 || 0xE000 <= text[i]
  }

  function Characters(text: Text): (s: string)
    requires AreCharacters(text)
    ensures |s| == |text| && OneForOne(s)
  {
    seq(|text|, i requires 0 <= i < |text| => text[i] as char)
  }

  predicate Convertible(lexemes: seq<Lexeme>) {
    forall i :: 0 <= i < |lexemes| ==> AreCharacters(lexemes[i].value)
  }

  /** What the parser is given of the tokenizer's result. */
  function TokensOf(lexemes: seq<Lexeme>): (tokens: seq<Token>)
    requires Convertible(lexemes)
    ensures |tokens| == |lexemes|
  {
    seq(|lexemes|, i requires 0 <= i < |lexemes| => Token(lexemes[i].kind, Characters(lexemes[i].value), lexemes[i].offset))
  }

  datatype Read =
    | Expression(e: Expr)
    | BadToken(fault: Fault, offset: nat)
    | BadSyntax(problem: Problem, offset: nat)
    | HasSurrogates

  /** `parseExpression`: tokenized, then parsed. */
  function ParseExpression(g: Grammar, source: Text): Read {
    match Tokens(source, 0)
    case Err(fault, offset) => BadToken(fault, offset)
    case Ok(lexemes) =>
      if !Convertible(lexemes) then HasSurrogates
      else
        TokensEndWell(source);
        match ParseAll(g, TokensOf(lexemes))
        case Err(problem, offset) => BadSyntax(problem, offset)
        case Ok(e, _) => Expression(e)
  }

  /** The tokenizer gives the parser what it asks for: the end of file last, and nowhere else. */
  lemma TokensEndWell(source: Text)
    requires Tokens(source, 0).Ok? && Convertible(Tokens(source, 0).value)
    ensures WellEnded(TokensOf(Tokens(source, 0).value))
  {
    TokensCoverTheSource(source, 0);
    hide Tokens, Faithful;
  }

  lemma CharactersBack(s: string)
    requires OneForOne(s)
    ensures AreCharacters(Units(s)) && Characters(Units(s)) == s
  {
    assert forall i :: 0 <= i < |s| ==> Units(s)[i] == s[i] as int;
  }

  lemma {:induction false} LexemesAre(tokens: seq<Token>, o: nat)
    requires AllWritable(tokens)
    ensures forall i :: 0 <= i < |tokens| ==>
      Lexemes(tokens, o)[i].kind == tokens[i].kind && Lexemes(tokens, o)[i].value == Units(tokens[i].value)
    decreases |tokens|
  {
    hide WrittenOut, Writable;
    if tokens != [] {
      LexemesAre(tokens[1..], LexemeOf(tokens[0], o).end + 1);
    }
  }

  /** Tokens read from the source of some printed ones match them. */
  lemma {:induction false} ReadTokensMatch(lexemes: seq<Lexeme>, printed: seq<Token>, end: nat)
    requires AllWritable(printed) && lexemes == Lexemes(printed, 0) + [Lexeme(Eof, [], end, end)]
    ensures Convertible(lexemes) && Matches(TokensOf(lexemes), 0, printed)
  {
    hide Writable, Units, Characters, AreCharacters;
    LexemesAre(printed, 0);
    CharactersBack("");
    forall i | 0 <= i < |printed|
      ensures lexemes[i].kind == printed[i].kind
      ensures AreCharacters(lexemes[i].value) && Characters(lexemes[i].value) == printed[i].value
    {
      assert lexemes[i] == Lexemes(printed, 0)[i];
      assert OneForOne(printed[i].value) by { WritableIsShort(printed, i); }
      CharactersBack(printed[i].value);
    }
  }

  lemma WritableIsShort(tokens: seq<Token>, i: nat)
    requires AllWritable(tokens) && i < |tokens|
    ensures OneForOne(tokens[i].value)
  {
    assert Writable(tokens[i]);
  }

  /**
   An expression printed with the fewest parentheses, its tokens written out, is tokenized without
   error, and what is then parsed is that expression, exactly if it is parseable.
   */
  lemma SourceRoundTrip(g: Grammar, e: Expr)
    requires g.Valid() && IsVariable(g.variable) && Spellable(e)
    ensures AllWritable(Print(0, e, g.variable))
    ensures var read := ParseExpression(g, Source(Print(0, e, g.variable)));
      && (read.Expression? || read.BadSyntax?)
      && (read == Expression(e) <==> Parseable(g, e))
  {
    PrintWritable(0, e, g.variable);
    var printed := Print(0, e, g.variable);
    var source := Source(printed);
    hide Print, Parseable, ParseAll, Source, Tokens, Convertible, TokensOf, WellEnded, AllWritable;
    assert source[0..] == source;
    SourceIsTokenized(source, 0, printed);
    var lexemes := Tokens(source, 0).value;
    ReadTokensMatch(lexemes, printed, |source|);
    TokensEndWell(source);
    CelTightness.RoundTripExactly(g, e, TokensOf(lexemes));
  }
}
