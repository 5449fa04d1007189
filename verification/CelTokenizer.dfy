/**
 The tokenizer of the expression language, over the 16-bit units of a JavaScript string.

 What it reads is specified from an offset on; the methods do it with a moving cursor.
 */
module CelTokenizer {
  import CelSyntax
  import opened Prelude

  type Unit = n: nat | n < 0x1_0000

  type Text = seq<Unit>

  /** A token with the offset it ends at. */
  datatype Lexeme = Lexeme(kind: CelSyntax.Kind, value: Text, offset: nat, end: nat)

  datatype Fault =
    | UnsupportedToken(unit: Unit)
    | UnterminatedString
    | UnterminatedEscape
    | InvalidUnicodeEscape
    | UnsupportedEscape(unit: Unit)

  datatype Result<+T> = Ok(value: T) | Err(fault: Fault, offset: nat)

  // -------------------------------------------------------------------------
  // Units
  // -------------------------------------------------------------------------

  const BACKSLASH: Unit := 92
  const LINE_FEED: Unit := 10
  const CARRIAGE_RETURN: Unit := 13
  const LETTER_U: Unit := 117
  const DOT: Unit := 46

  /** What `\s` matches. */
  predicate IsSpace(u: Unit) {
    9 <= u <= 13 || u == 32 || u == 0xA0 || u == 0x1680 || 0x2000 <= u <= 0x200A
    || u == 0x2028 || u == 0x2029 || u == 0x202F || u == 0x205F || u == 0x3000 || u == 0xFEFF
  }

  predicate IsQuote(u: Unit) { u == 34 || u == 39 }

  predicate IsDigit(u: Unit) { 48 <= u <= 57 }

  predicate StartsWord(u: Unit) { 65 <= u <= 90 || 97 <= u <= 122 || u == 95 }

  predicate IsWord(u: Unit) { StartsWord(u) || IsDigit(u) }

  /** Two-unit operators: and, or, equal, not equal, at most, at least. */
  predicate IsDouble(a: Unit, b: Unit) {
    (a == 38 && b == 38) || (a == 124 && b == 124) || (b == 61 && (a == 61 || a == 33 || a == 60 || a == 62))
  }

  /** One-unit operators: + - * / % ! < >. */
  predicate IsSingle(u: Unit) {
    u == 43 || u == 45 || u == 42 || u == 47 || u == 37 || u == 33 || u == 60 || u == 62
  }

  /** Braces, brackets, parentheses, comma, colon, question mark, dot. */
  predicate IsPunctuation(u: Unit) {
    u == 123 || u == 125 || u == 91 || u == 93 || u == 40 || u == 41 || u == 44 || u == 58 || u == 63 || u == DOT
  }

  predicate IsHex(u: Unit) { IsDigit(u) || 65 <= u <= 70 || 97 <= u <= 102 }

  function HexDigit(u: Unit): (d: nat)
    requires IsHex(u)
    ensures d < 16
  {
    if IsDigit(u) then u - 48 else if u <= 70 then u - 55 else u - 87
  }

  predicate IsFourHex(digits: Text) {
    |digits| == 4 && IsHex(digits[0]) && IsHex(digits[1]) && IsHex(digits[2]) && IsHex(digits[3])
  }

  function HexValue(digits: Text): Unit
    requires IsFourHex(digits)
  {
    HexDigit(digits[0]) * 4096 + HexDigit(digits[1]) * 256 + HexDigit(digits[2]) * 16 + HexDigit(digits[3])
  }

  /** The escapes of one unit: quotes and backslash for themselves, b f n r t for control units. */
  function SimpleEscape(u: Unit): Option<Unit> {
    if IsQuote(u) || u == BACKSLASH then Some(u)
    else if u == 98 then Some(8) else if u == 102 then Some(12)
    else if u == 110 then Some(LINE_FEED) else if u == 114 then Some(CARRIAGE_RETURN)
    else if u == 116 then Some(9)
    else None
  }

  // -------------------------------------------------------------------------
  // What is read
  // -------------------------------------------------------------------------

  function DigitsEnd(source: Text, offset: nat): (end: nat)
    requires offset <= |source|
    ensures offset <= end <= |source|
    ensures forall p :: offset <= p < end ==> IsDigit(source[p])
    ensures end < |source| ==> !IsDigit(source[end])
    decreases |source| - offset
  {
    if offset < |source| && IsDigit(source[offset]) then DigitsEnd(source, offset + 1) else offset
  }

  function WordEnd(source: Text, offset: nat): (end: nat)
    requires offset <= |source|
    ensures offset <= end <= |source|
    ensures forall p :: offset <= p < end ==> IsWord(source[p])
    ensures end < |source| ==> !IsWord(source[end])
    decreases |source| - offset
  {
    if offset < |source| && IsWord(source[offset]) then WordEnd(source, offset + 1) else offset
  }

  predicate DigitAt(source: Text, p: nat) {
    p < |source| && IsDigit(source[p])
  }

  /** A fraction, if a dot and a digit follow. */
  function FractionEnd(source: Text, offset: nat): (end: nat)
    requires offset <= |source|
    ensures offset <= end <= |source|
  {
    if offset < |source| && source[offset] == DOT && DigitAt(source, offset + 1) then DigitsEnd(source, offset + 1) else offset
  }

  /** An exponent, if its letter, perhaps a sign, and a digit follow. */
  function ExponentEnd(source: Text, offset: nat): (end: nat)
    requires offset <= |source|
    ensures offset <= end <= |source|
  {
    if offset < |source| && (source[offset] == 69 || source[offset] == 101) then
      var signed := offset + 1 < |source| && (source[offset + 1] == 43 || source[offset + 1] == 45);
      var digits := if signed then offset + 2 else offset + 1;
      if DigitAt(source, digits) then DigitsEnd(source, digits) else offset
    else offset
  }

  /** A zero, or digits not beginning with one; then a fraction and an exponent. */
  function NumberEnd(source: Text, offset: nat): (end: nat)
    requires offset < |source| && IsDigit(source[offset])
    ensures offset < end <= |source|
  {
    var whole := if source[offset] == 48 then offset + 1 else DigitsEnd(source, offset);
    ExponentEnd(source, FractionEnd(source, whole))
  }

  /** `slice` of four units, fewer at the end. */
  function FourAt(source: Text, p: nat): (digits: Text)
    requires p <= |source|
    ensures |digits| == 4 ==> p + 4 <= |source|
  {
    source[p..if p + 4 <= |source| then p + 4 else |source|]
  }

  /** The inside of a string literal from a cursor on; `offset` is where the literal began. */
  function StringFrom(source: Text, offset: nat, quote: Unit, cursor: nat, value: Text): (r: Result<Lexeme>)
    requires offset < cursor <= |source|
    ensures r.Ok? ==> r.value.kind.StringToken? && r.value.offset == offset && cursor < r.value.end <= |source|
    decreases |source| - cursor
  {
    if cursor == |source| then Err(UnterminatedString, offset)
    else if source[cursor] == quote then Ok(Lexeme(CelSyntax.StringToken, value, offset, cursor + 1))
    else if source[cursor] == LINE_FEED || source[cursor] == CARRIAGE_RETURN then Err(UnterminatedString, offset)
    else if source[cursor] != BACKSLASH then StringFrom(source, offset, quote, cursor + 1, value + [source[cursor]])
    else if cursor + 1 == |source| then Err(UnterminatedEscape, cursor)
    else
      var escaped := source[cursor + 1];
      if SimpleEscape(escaped).Some? then StringFrom(source, offset, quote, cursor + 2, value + [SimpleEscape(escaped).value])
      else if escaped != LETTER_U then Err(UnsupportedEscape(escaped), cursor)
      else
        var digits := FourAt(source, cursor + 2);
        if IsFourHex(digits) then StringFrom(source, offset, quote, cursor + 6, value + [HexValue(digits)])
        else Err(InvalidUnicodeEscape, cursor)
  }

  /** The token that begins at an offset. */
  function TokenAt(source: Text, offset: nat): (r: Result<Lexeme>)
    requires offset < |source|
    ensures r.Ok? ==> r.value.offset == offset < r.value.end <= |source| && !r.value.kind.Eof?
  {
    var u := source[offset];
    if IsQuote(u) then StringFrom(source, offset, u, offset + 1, [])
    else if IsDigit(u) then Slice(source, CelSyntax.NumberToken, offset, NumberEnd(source, offset))
    else if StartsWord(u) then Slice(source, CelSyntax.Identifier, offset, WordEnd(source, offset + 1))
    else if offset + 1 < |source| && IsDouble(u, source[offset + 1]) then Slice(source, CelSyntax.Operator, offset, offset + 2)
    else if IsSingle(u) then Slice(source, CelSyntax.Operator, offset, offset + 1)
    else if IsPunctuation(u) then Slice(source, CelSyntax.Punctuation, offset, offset + 1)
    else Err(UnsupportedToken(u), offset)
  }

  function Slice(source: Text, kind: CelSyntax.Kind, offset: nat, end: nat): Result<Lexeme>
    requires offset <= end <= |source|
  {
    Ok(Lexeme(kind, source[offset..end], offset, end))
  }

  /** All the tokens from an offset on. */
  function Tokens(source: Text, offset: nat): Result<seq<Lexeme>>
    requires offset <= |source|
    decreases |source| - offset
  {
    if offset == |source| then Ok([Lexeme(CelSyntax.Eof, [], offset, offset)])
    else if IsSpace(source[offset]) then Tokens(source, offset + 1)
    else
      match TokenAt(source, offset)
      case Err(fault, o) => Err(fault, o)
      case Ok(token) => Prepended([token], Tokens(source, token.end))
  }

  function Prepended(tokens: seq<Lexeme>, rest: Result<seq<Lexeme>>): Result<seq<Lexeme>> {
    match rest
    case Err(fault, o) => Err(fault, o)
    case Ok(more) => Ok(tokens + more)
  }

  // -------------------------------------------------------------------------
  // The loops
  // -------------------------------------------------------------------------

  method ReadWord(source: Text, offset: nat) returns (cursor: nat)
    requires offset <= |source|
    ensures cursor == WordEnd(source, offset)
  {
    cursor := offset;
    while cursor < |source| && IsWord(source[cursor])
      invariant cursor <= |source| && WordEnd(source, cursor) == WordEnd(source, offset)
    {
      cursor := cursor + 1;
    }
  }

  method ReadString(source: Text, offset: nat, quote: Unit) returns (r: Result<Lexeme>)
    requires offset < |source|
    ensures r == StringFrom(source, offset, quote, offset + 1, [])
  {
    var cursor := offset + 1;
    var value: Text := [];
    while cursor < |source|
      invariant offset < cursor <= |source|
      invariant StringFrom(source, offset, quote, cursor, value) == StringFrom(source, offset, quote, offset + 1, [])
    {
      var character := source[cursor];
      if character == quote {
        return Ok(Lexeme(CelSyntax.StringToken, value, offset, cursor + 1));
      }
      if character == LINE_FEED || character == CARRIAGE_RETURN {
        return Err(UnterminatedString, offset);
      }
      if character != BACKSLASH {
        value := value + [character];
        cursor := cursor + 1;
        continue;
      }
      var escapeOffset := cursor;
      if cursor + 1 == |source| {
        return Err(UnterminatedEscape, escapeOffset);
      }
      var escaped := source[cursor + 1];
      if SimpleEscape(escaped).Some? {
        value := value + [SimpleEscape(escaped).value];
        cursor := cursor + 2;
        continue;
      }
      if escaped != LETTER_U {
        return Err(UnsupportedEscape(escaped), escapeOffset);
      }
      var digits := FourAt(source, cursor + 2);
      if !IsFourHex(digits) {
        return Err(InvalidUnicodeEscape, escapeOffset);
      }
      value := value + [HexValue(digits)];
      cursor := cursor + 6;
    }
    return Err(UnterminatedString, offset);
  }

  method TokenizeRestrictedCel(source: Text) returns (r: Result<seq<Lexeme>>)
    ensures r == Tokens(source, 0)
  {
    hide StringFrom, NumberEnd, WordEnd;
    var tokens: seq<Lexeme> := [];
    var offset := 0;
    assert Prepended([], Tokens(source, 0)) == Tokens(source, 0) by { PrependedNothing(Tokens(source, 0)); }
    while offset < |source|
      invariant offset <= |source|
      invariant Prepended(tokens, Tokens(source, offset)) == Tokens(source, 0)
    {
      var character := source[offset];
      if IsSpace(character) {
        offset := offset + 1;
        continue;
      }
      var token: Lexeme;
      if IsQuote(character) {
        var literal := ReadString(source, offset, character);
        if literal.Err? {
          return Err(literal.fault, literal.offset);
        }
        token := literal.value;
      } else if IsDigit(character) {
        var end := NumberEnd(source, offset);
        token := Lexeme(CelSyntax.NumberToken, source[offset..end], offset, end);
      } else if StartsWord(character) {
        var end := ReadWord(source, offset + 1);
        token := Lexeme(CelSyntax.Identifier, source[offset..end], offset, end);
      } else if offset + 1 < |source| && IsDouble(character, source[offset + 1]) {
        token := Lexeme(CelSyntax.Operator, source[offset..offset + 2], offset, offset + 2);
      } else if IsSingle(character) {
        token := Lexeme(CelSyntax.Operator, source[offset..offset + 1], offset, offset + 1);
      } else if IsPunctuation(character) {
        token := Lexeme(CelSyntax.Punctuation, source[offset..offset + 1], offset, offset + 1);
      } else {
        return Err(UnsupportedToken(character), offset);
      }
      assert TokenAt(source, offset) == Ok(token);
      PrependedTwice(tokens, [token], Tokens(source, token.end));
      tokens := tokens + [token];
      offset := token.end;
    }
    return Ok(tokens + [Lexeme(CelSyntax.Eof, [], |source|, |source|)]);
  }

  lemma PrependedNothing(r: Result<seq<Lexeme>>)
    ensures Prepended([], r) == r
  {
    if r.Ok? {
      assert [] + r.value == r.value;
    }
  }

  lemma PrependedTwice(a: seq<Lexeme>, b: seq<Lexeme>, r: Result<seq<Lexeme>>)
    ensures Prepended(a, Prepended(b, r)) == Prepended(a + b, r)
  {
    if r.Ok? {
      assert a + (b + r.value) == (a + b) + r.value;
    }
  }

  // -------------------------------------------------------------------------
  // The tokens cover the source
  // -------------------------------------------------------------------------

  /** Spans in order and apart, eof at the end and only there. */
  predicate InOrder(source: Text, offset: nat, tokens: seq<Lexeme>) {
    && tokens != [] && tokens[0].offset >= offset
    && tokens[|tokens| - 1] == Lexeme(CelSyntax.Eof, [], |source|, |source|)
    && forall k :: 0 <= k < |tokens| - 1 ==>
         tokens[k].offset < tokens[k].end <= tokens[k + 1].offset && !tokens[k].kind.Eof?
  }

  predicate InSomeToken(tokens: seq<Lexeme>, p: nat) {
    exists k :: 0 <= k < |tokens| && tokens[k].offset <= p < tokens[k].end
  }

  /** A token that is not a string says what the source says, and a word or whole number does not stop early. */
  predicate Faithful(source: Text, token: Lexeme) {
    && token.offset <= token.end <= |source|
    && (!token.kind.StringToken? ==> token.value == source[token.offset..token.end])
    && (token.kind.Identifier? && token.end < |source| ==> !IsWord(source[token.end]))
    && (token.kind.NumberToken? && token.end < |source| && IsDigit(source[token.end]) ==> token.value == [48])
  }

  lemma NumberIsWhole(source: Text, offset: nat)
    requires offset < |source| && IsDigit(source[offset])
    ensures var end := NumberEnd(source, offset);
      end < |source| && IsDigit(source[end]) ==> source[offset..end] == [48]
  {
  }

  lemma TokenIsFaithful(source: Text, offset: nat)
    requires offset < |source| && TokenAt(source, offset).Ok?
    ensures Faithful(source, TokenAt(source, offset).value)
  {
    hide NumberEnd, StringFrom;
    if IsDigit(source[offset]) {
      NumberIsWhole(source, offset);
    }
  }

  /** Everything between the tokens is white space, and each of them says what it stands on. */
  lemma {:induction false} TokensCoverTheSource(source: Text, offset: nat)
    requires offset <= |source| && Tokens(source, offset).Ok?
    ensures var tokens := Tokens(source, offset).value;
      && InOrder(source, offset, tokens)
      && (forall p :: offset <= p < |source| ==> InSomeToken(tokens, p) || IsSpace(source[p]))
      && (forall k :: 0 <= k < |tokens| ==> Faithful(source, tokens[k]))
    decreases |source| - offset
  {
    hide TokenAt, Faithful, IsSpace;
    if offset == |source| {
      assert Faithful(source, Lexeme(CelSyntax.Eof, [], offset, offset)) by { EofIsFaithful(source); }
    } else if IsSpace(source[offset]) {
      TokensCoverTheSource(source, offset + 1);
    } else {
      TokenIsFaithful(source, offset);
      var token := TokenAt(source, offset).value;
      TokensCoverTheSource(source, token.end);
      OneMoreToken(source, offset, token, Tokens(source, token.end).value);
    }
  }

  lemma OneMoreToken(source: Text, offset: nat, token: Lexeme, more: seq<Lexeme>)
    requires token.offset == offset < token.end <= |source| && !token.kind.Eof? && InOrder(source, token.end, more)
    requires forall p :: token.end <= p < |source| ==> InSomeToken(more, p) || IsSpace(source[p])
    ensures InOrder(source, offset, [token] + more)
    ensures forall p :: offset <= p < |source| ==> InSomeToken([token] + more, p) || IsSpace(source[p])
  {
    hide IsSpace;
    var tokens := [token] + more;
    forall p | offset <= p < |source|
      ensures InSomeToken(tokens, p) || IsSpace(source[p])
    {
      if p < token.end {
        assert tokens[0].offset <= p < tokens[0].end;
      } else if !IsSpace(source[p]) {
        assert InSomeToken(more, p);
        var k :| 0 <= k < |more| && more[k].offset <= p < more[k].end;
        assert tokens[k + 1] == more[k];
      }
    }
  }

  lemma EofIsFaithful(source: Text)
    ensures Faithful(source, Lexeme(CelSyntax.Eof, [], |source|, |source|))
  {
  }

  // -------------------------------------------------------------------------
  // String literals
  // -------------------------------------------------------------------------

  /** The ways to write one unit: as itself, with a one-unit escape, with four hexadecimal digits. */
  datatype Spelling = Plain(unit: Unit) | Short(letter: Unit) | Hex(digits: Text)

  predicate Allowed(quote: Unit, s: Spelling) {
    match s
    case Plain(u) => u != quote && u != BACKSLASH && u != LINE_FEED && u != CARRIAGE_RETURN
    case Short(letter) => SimpleEscape(letter).Some?
    case Hex(digits) => IsFourHex(digits)
  }

  function Meaning(quote: Unit, s: Spelling): Unit
    requires Allowed(quote, s)
  {
    match s
    case Plain(u) => u
    case Short(letter) => SimpleEscape(letter).value
    case Hex(digits) => HexValue(digits)
  }

  function Written(s: Spelling): Text {
    match s
    case Plain(u) => [u]
    case Short(letter) => [BACKSLASH, letter]
    case Hex(digits) => [BACKSLASH, LETTER_U] + digits
  }

  predicate AllAllowed(quote: Unit, spellings: seq<Spelling>) {
    forall i :: 0 <= i < |spellings| ==> Allowed(quote, spellings[i])
  }

  function Meanings(quote: Unit, spellings: seq<Spelling>): Text
    requires AllAllowed(quote, spellings)
  {
    if spellings == [] then [] else [Meaning(quote, spellings[0])] + Meanings(quote, spellings[1..])
  }

  function AllWritten(spellings: seq<Spelling>): Text {
    if spellings == [] then [] else Written(spellings[0]) + AllWritten(spellings[1..])
  }

  /** One spelling is read as its meaning. */
  lemma SpellingIsRead(source: Text, offset: nat, quote: Unit, cursor: nat, value: Text, s: Spelling)
    requires offset < cursor && IsQuote(quote) && Allowed(quote, s)
    requires cursor + |Written(s)| <= |source| && source[cursor..cursor + |Written(s)|] == Written(s)
    ensures StringFrom(source, offset, quote, cursor, value)
      == StringFrom(source, offset, quote, cursor + |Written(s)|, value + [Meaning(quote, s)])
  {
    var w := Written(s);
    assert forall i :: 0 <= i < |w| ==> source[cursor + i] == w[i];
    match s
    case Plain(_) => assert source[cursor] == w[0];
    case Short(_) => assert source[cursor] == w[0] && source[cursor + 1] == w[1];
    case Hex(digits) =>
      assert source[cursor] == w[0] && source[cursor + 1] == w[1];
      assert w[2..] == digits && source[cursor + 2..cursor + 6] == w[2..];
      assert FourAt(source, cursor + 2) == digits;
  }

  lemma QuoteCloses(source: Text, offset: nat, quote: Unit, cursor: nat, value: Text)
    requires offset < cursor < |source| && source[cursor] == quote
    ensures StringFrom(source, offset, quote, cursor, value) == Ok(Lexeme(CelSyntax.StringToken, value, offset, cursor + 1))
  {
  }

  /** Every way of writing a text is read as that text, up to the closing quote. */
  lemma {:induction false} SpellingsAreRead(source: Text, offset: nat, quote: Unit, cursor: nat, value: Text, spellings: seq<Spelling>)
    requires offset < cursor && IsQuote(quote) && AllAllowed(quote, spellings)
    requires cursor + |AllWritten(spellings)| < |source|
    requires source[cursor..cursor + |AllWritten(spellings)|] == AllWritten(spellings)
    requires source[cursor + |AllWritten(spellings)|] == quote
    ensures StringFrom(source, offset, quote, cursor, value)
      == Ok(Lexeme(CelSyntax.StringToken, value + Meanings(quote, spellings), offset, cursor + |AllWritten(spellings)| + 1))
    decreases spellings
  {
    hide Allowed, Meaning, Written, StringFrom, IsQuote;
    if spellings == [] {
      QuoteCloses(source, offset, quote, cursor, value);
      assert value + [] == value;
    } else {
      var first, rest := spellings[0], spellings[1..];
      var middle := cursor + |Written(first)|;
      SplitSlice(source, cursor, Written(first), AllWritten(rest));
      SpellingIsRead(source, offset, quote, cursor, value, first);
      SpellingsAreRead(source, offset, quote, middle, value + [Meaning(quote, first)], rest);
      Regroup(value, [Meaning(quote, first)], Meanings(quote, rest));
    }
  }

  lemma SplitSlice(source: Text, cursor: nat, a: Text, b: Text)
    requires cursor + |a + b| <= |source| && source[cursor..cursor + |a + b|] == a + b
    ensures source[cursor..cursor + |a|] == a && source[cursor + |a|..cursor + |a| + |b|] == b
  {
    var span := source[cursor..cursor + |a + b|];
    assert source[cursor..cursor + |a|] == span[..|a|];
    assert source[cursor + |a|..cursor + |a| + |b|] == span[|a|..];
  }

  /** What is read as a string was written in one of those ways. */
  lemma {:induction false} StringsAreSpelled(source: Text, offset: nat, quote: Unit, cursor: nat, value: Text) returns (spellings: seq<Spelling>)
    requires offset < cursor <= |source| && IsQuote(quote)
    requires StringFrom(source, offset, quote, cursor, value).Ok?
    ensures var token := StringFrom(source, offset, quote, cursor, value).value;
      && AllAllowed(quote, spellings) && token.value == value + Meanings(quote, spellings)
      && source[cursor..token.end] == AllWritten(spellings) + [quote]
    decreases |source| - cursor
  {
    var u := source[cursor];
    var token := StringFrom(source, offset, quote, cursor, value).value;
    if u == quote {
      spellings := [];
      assert value + [] == value && source[cursor..token.end] == [quote];
    } else {
      var first := FirstSpelling(source, offset, quote, cursor, value);
      hide Allowed, Meaning, Written, StringFrom, IsQuote;
      var middle := cursor + |Written(first)|;
      var rest := StringsAreSpelled(source, offset, quote, middle, value + [Meaning(quote, first)]);
      spellings := [first] + rest;
      OneMoreSpelling(quote, first, rest, value);
      assert source[cursor..token.end] == source[cursor..middle] + source[middle..token.end];
    }
  }

  lemma OneMoreSpelling(quote: Unit, first: Spelling, rest: seq<Spelling>, value: Text)
    requires Allowed(quote, first) && AllAllowed(quote, rest)
    ensures AllAllowed(quote, [first] + rest)
    ensures (value + [Meaning(quote, first)]) + Meanings(quote, rest) == value + Meanings(quote, [first] + rest)
    ensures Written(first) + (AllWritten(rest) + [quote]) == AllWritten([first] + rest) + [quote]
  {
    hide Allowed, Meaning, Written;
    assert ([first] + rest)[1..] == rest;
    Regroup(value, [Meaning(quote, first)], Meanings(quote, rest));
    Regroup(Written(first), AllWritten(rest), [quote]);
  }

  lemma FirstSpelling(source: Text, offset: nat, quote: Unit, cursor: nat, value: Text) returns (s: Spelling)
    requires offset < cursor < |source| && source[cursor] != quote
    requires StringFrom(source, offset, quote, cursor, value).Ok?
    ensures Allowed(quote, s) && |Written(s)| > 0
    ensures cursor + |Written(s)| <= |source| && source[cursor..cursor + |Written(s)|] == Written(s)
    ensures StringFrom(source, offset, quote, cursor, value)
      == StringFrom(source, offset, quote, cursor + |Written(s)|, value + [Meaning(quote, s)])
  {
    if source[cursor] != BACKSLASH {
      s := Plain(source[cursor]);
      assert source[cursor..cursor + 1] == [source[cursor]];
    } else if SimpleEscape(source[cursor + 1]).Some? {
      s := Short(source[cursor + 1]);
      assert source[cursor..cursor + 2] == [BACKSLASH, source[cursor + 1]];
    } else {
      s := Hex(FourAt(source, cursor + 2));
      assert source[cursor..cursor + 6] == [BACKSLASH, LETTER_U] + source[cursor + 2..cursor + 6];
    }
  }

  /** Plain where it can be, escaped where it must be. */
  function Spell(quote: Unit, u: Unit): Spelling {
    if u == quote || u == BACKSLASH then Short(u)
    else if u == LINE_FEED then Short(110) else if u == CARRIAGE_RETURN then Short(114)
    else Plain(u)
  }

  function SpellAll(quote: Unit, text: Text): seq<Spelling> {
    if text == [] then [] else [Spell(quote, text[0])] + SpellAll(quote, text[1..])
  }

  lemma {:induction false} SpelledMeansTheText(quote: Unit, text: Text)
    requires IsQuote(quote)
    ensures AllAllowed(quote, SpellAll(quote, text)) && Meanings(quote, SpellAll(quote, text)) == text
  {
    if text != [] {
      SpelledMeansTheText(quote, text[1..]);
      var rest := SpellAll(quote, text[1..]);
      assert ([Spell(quote, text[0])] + rest)[1..] == rest;
      assert text == [text[0]] + text[1..];
    }
  }

  function Quoted(quote: Unit, text: Text): Text {
    [quote] + AllWritten(SpellAll(quote, text)) + [quote]
  }

  /** Any text, quoted, is one string token of that text. */
  lemma QuotedReadsBack(quote: Unit, text: Text)
    requires IsQuote(quote)
    ensures var source := Quoted(quote, text);
      Tokens(source, 0) == Ok([Lexeme(CelSyntax.StringToken, text, 0, |source|), Lexeme(CelSyntax.Eof, [], |source|, |source|)])
  {
    var source, spellings := Quoted(quote, text), SpellAll(quote, text);
    SpelledMeansTheText(quote, text);
    hide StringFrom, SpellAll, AllWritten, Meanings;
    assert source[0] == quote && !IsSpace(quote);
    assert source[1..1 + |AllWritten(spellings)|] == AllWritten(spellings);
    SpellingsAreRead(source, 0, quote, 1, [], spellings);
    assert [] + text == text;
    assert TokenAt(source, 0) == Ok(Lexeme(CelSyntax.StringToken, text, 0, |source|));
    var token, eof := Lexeme(CelSyntax.StringToken, text, 0, |source|), Lexeme(CelSyntax.Eof, [], |source|, |source|);
    assert Tokens(source, |source|) == Ok([eof]);
    assert Tokens(source, 0) == Prepended([token], Ok([eof]));
    assert [token] + [eof] == [token, eof];
  }
}
