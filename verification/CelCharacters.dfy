/**
 The characters of the expression language, in characters: which begin what, what escapes stand for,
 and that every error of the tokenizer points at what is wrong.
 */
module CelCharacters {
  import opened CelTokenizer
  import opened Prelude

  /** The unit is that character. */
  predicate Is(u: Unit, c: char) {
    u == c as int
  }

  predicate At(source: Text, p: int, c: char) {
    0 <= p < |source| && Is(source[p], c)
  }

  predicate IsLetter(c: char) {
    'a' <= c <= 'z' || 'A' <= c <= 'Z' || c == '_'
  }

  /** What begins words, numbers, strings, operators and punctuation. */
  lemma Classes(u: Unit, c: char)
    requires Is(u, c)
    ensures IsDigit(u) <==> c in "0123456789"
    ensures StartsWord(u) <==> IsLetter(c)
    ensures IsWord(u) <==> IsLetter(c) || c in "0123456789"
    ensures IsQuote(u) <==> c in "\"'"
    ensures IsSingle(u) <==> c in "+-*/%!<>"
    ensures IsPunctuation(u) <==> c in "{}[](),:?."
    ensures IsHex(u) <==> c in "0123456789abcdefABCDEF"
    ensures u < 128 ==> (IsSpace(u) <==> c in " \t\n\r" || u == 11 || u == 12)
  {
  }

  lemma DoubleOperators(a: Unit, b: Unit, c: char, d: char)
    requires Is(a, c) && Is(b, d)
    ensures IsDouble(a, b) <==> [c, d] in {"&&", "||", "==", "!=", "<=", ">="}
  {
    assert [c, d] in {"&&", "||", "==", "!=", "<=", ">="} <==>
      (c == d == '&') || (c == d == '|') || (d == '=' && c in "=!<>") by {
      assert [c, d] == "&&" <==> c == '&' && d == '&';
      assert [c, d] == "||" <==> c == '|' && d == '|';
      assert [c, d] == "==" <==> c == '=' && d == '=';
      assert [c, d] == "!=" <==> c == '!' && d == '=';
      assert [c, d] == "<=" <==> c == '<' && d == '=';
      assert [c, d] == ">=" <==> c == '>' && d == '=';
    }
  }

  /** What the character behind a backslash stands for, as JSON has it, and quotes for themselves. */
  function Escaped(c: char): Option<int> {
    if c in "\"'\\" then Some(c as int)
    else if c == 'n' then Some('\n' as int) else if c == 'r' then Some('\r' as int)
    else if c == 't' then Some('\t' as int) else if c == 'b' then Some(8) else if c == 'f' then Some(12)
    else None
  }

  lemma EscapesMean(u: Unit, c: char)
    requires Is(u, c)
    ensures match Escaped(c) case None => SimpleEscape(u).None? case Some(meant) => SimpleEscape(u) == Some(meant)
  {
  }

  const DIGITS := "0123456789abcdef"
  const UPPER := "0123456789ABCDEF"

  /** Four hexadecimal digits, in either case, are a number to the base 16. */
  lemma HexMeans(digits: Text, a: nat, b: nat, c: nat, d: nat)
    requires |digits| == 4 && a < 16 && b < 16 && c < 16 && d < 16
    requires (Is(digits[0], DIGITS[a]) || Is(digits[0], UPPER[a])) && (Is(digits[1], DIGITS[b]) || Is(digits[1], UPPER[b]))
    requires (Is(digits[2], DIGITS[c]) || Is(digits[2], UPPER[c])) && (Is(digits[3], DIGITS[d]) || Is(digits[3], UPPER[d]))
    ensures IsFourHex(digits) && HexValue(digits) == ((a * 16 + b) * 16 + c) * 16 + d
  {
    DigitMeans(digits[0], a);
    DigitMeans(digits[1], b);
    DigitMeans(digits[2], c);
    DigitMeans(digits[3], d);
    hide HexDigit, IsHex;
  }

  lemma DigitMeans(u: Unit, n: nat)
    requires n < 16 && (Is(u, DIGITS[n]) || Is(u, UPPER[n]))
    ensures IsHex(u) && HexDigit(u) == n
  {
  }

  // -------------------------------------------------------------------------
  // Numbers
  // -------------------------------------------------------------------------

  predicate DigitsIn(source: Text, a: int, b: int) {
    0 <= a < b <= |source| && forall p :: a <= p < b ==> IsDigit(source[p])
  }

  /** Digits, a leading zero only by itself. */
  predicate WholeIn(source: Text, a: int, b: int) {
    DigitsIn(source, a, b) && (At(source, a, '0') ==> b == a + 1)
  }

  predicate FractionIn(source: Text, a: int, b: int) {
    0 <= a && (a == b || (At(source, a, '.') && DigitsIn(source, a + 1, b)))
  }

  predicate ExponentIn(source: Text, a: int, b: int) {
    0 <= a && (a == b
      || ((At(source, a, 'e') || At(source, a, 'E'))
          && (DigitsIn(source, a + 1, b)
              || ((At(source, a + 1, '+') || At(source, a + 1, '-')) && DigitsIn(source, a + 2, b)))))
  }

  /** A numeral, its fraction from `i` on and its exponent from `j` on, if any. */
  predicate NumeralIn(source: Text, a: int, i: int, j: int, b: int) {
    WholeIn(source, a, i) && FractionIn(source, i, j) && ExponentIn(source, j, b)
  }

  lemma DigitsStop(source: Text, a: nat, b: int)
    requires DigitsIn(source, a, b)
    ensures b <= DigitsEnd(source, a) && DigitsIn(source, a, DigitsEnd(source, a))
  {
    hide DigitsEnd;
  }

  /** A fraction or an exponent is read to its end; where there is none, nothing is read. */
  lemma FractionStops(source: Text, i: nat, j: int)
    requires i <= |source| && FractionIn(source, i, j)
    ensures FractionIn(source, i, FractionEnd(source, i)) && j <= FractionEnd(source, i)
    ensures FractionEnd(source, i) > i ==> At(source, i, '.')
  {
    hide DigitsEnd;
    if DigitAt(source, i + 1) {
      assert DigitsIn(source, i + 1, i + 2);
      DigitsStop(source, i + 1, i + 2);
    }
    if j > i {
      DigitsStop(source, i + 1, j);
    }
  }

  lemma ExponentStops(source: Text, j: nat, b: int)
    requires j <= |source| && ExponentIn(source, j, b)
    ensures ExponentIn(source, j, ExponentEnd(source, j)) && b <= ExponentEnd(source, j)
  {
    hide DigitsEnd;
    if DigitAt(source, j + 1) {
      assert DigitsIn(source, j + 1, j + 2);
      DigitsStop(source, j + 1, j + 2);
    }
    if DigitAt(source, j + 2) {
      assert DigitsIn(source, j + 2, j + 3);
      DigitsStop(source, j + 2, j + 3);
    }
    if b > j {
      if DigitsIn(source, j + 1, b) {
        DigitsStop(source, j + 1, b);
      } else {
        DigitsStop(source, j + 2, b);
      }
    }
  }

  /** The whole part is read to its end, as a numeral from there has it. */
  lemma WholeStops(source: Text, offset: nat) returns (whole: nat)
    requires offset < |source| && IsDigit(source[offset])
    ensures whole <= |source| && WholeIn(source, offset, whole)
    ensures NumberEnd(source, offset) == ExponentEnd(source, FractionEnd(source, whole))
    ensures forall i :: WholeIn(source, offset, i) ==> i <= whole
    ensures !At(source, offset, '0') && whole < |source| ==> !IsDigit(source[whole])
  {
    hide DigitsEnd, FractionEnd, ExponentEnd;
    assert DigitsIn(source, offset, offset + 1);
    DigitsStop(source, offset, offset + 1);
    whole := if source[offset] == 48 then offset + 1 else DigitsEnd(source, offset);
    forall i | WholeIn(source, offset, i) ensures i <= whole {
      DigitsStop(source, offset, i);
    }
  }

  /** A number token is a numeral, and the longest there is. */
  lemma NumbersAreLongest(source: Text, offset: nat)
    requires offset < |source| && IsDigit(source[offset])
    ensures exists i, j :: NumeralIn(source, offset, i, j, NumberEnd(source, offset))
    ensures forall i, j, end :: NumeralIn(source, offset, i, j, end) ==> end <= NumberEnd(source, offset)
  {
    var whole := WholeStops(source, offset);
    hide NumberEnd, DigitsEnd;
    FractionStops(source, whole, whole);
    var fraction := FractionEnd(source, whole);
    ExponentStops(source, fraction, fraction);
    assert NumeralIn(source, offset, whole, fraction, NumberEnd(source, offset));
    forall i, j, end | NumeralIn(source, offset, i, j, end) ensures end <= NumberEnd(source, offset) {
      if i == whole {
        FractionStops(source, whole, j);
        if j == fraction {
          ExponentStops(source, fraction, end);
        }
        hide FractionEnd, ExponentEnd;
      }
    }
  }

  // -------------------------------------------------------------------------
  // Errors
  // -------------------------------------------------------------------------

  /** No token begins with the unit there. */
  predicate BeginsNothing(source: Text, p: nat) {
    && p < |source|
    && var u := source[p];
       && !IsSpace(u) && !IsQuote(u) && !IsDigit(u) && !StartsWord(u) && !IsSingle(u) && !IsPunctuation(u)
       && !(p + 1 < |source| && IsDouble(u, source[p + 1]))
  }

  /** The line, or the source, ends there, and not in between. */
  predicate LineEnds(source: Text, p: int, end: int) {
    && 0 <= p < end <= |source| && (end == |source| || At(source, end, '\n') || At(source, end, '\r'))
    && forall i :: p < i < end ==> !At(source, i, '\n') && !At(source, i, '\r')
  }

  /** A quote stands there, and the line ends before it is closed. */
  ghost predicate LeftOpen(source: Text, p: nat) {
    p < |source| && IsQuote(source[p]) && exists end :: LineEnds(source, p, end)
  }

  /** The fault is there to see at the offset given. */
  ghost predicate IsReal(source: Text, fault: Fault, offset: nat) {
    match fault
    case UnsupportedToken(u) => BeginsNothing(source, offset) && source[offset] == u
    case UnterminatedString => LeftOpen(source, offset)
    case UnterminatedEscape => At(source, offset, '\\') && offset + 1 == |source|
    case InvalidUnicodeEscape =>
      At(source, offset, '\\') && At(source, offset + 1, 'u')
      && !(offset + 6 <= |source| && IsFourHex(source[offset + 2..offset + 6]))
    case UnsupportedEscape(u) =>
      At(source, offset, '\\') && offset + 1 < |source| && source[offset + 1] == u
      && SimpleEscape(u).None? && !Is(u, 'u')
  }

  lemma {:induction false} StringFaultIsReal(source: Text, offset: nat, quote: Unit, cursor: nat, value: Text)
    requires offset < cursor <= |source| && source[offset] == quote && IsQuote(quote)
    requires forall i :: offset < i < cursor ==> !At(source, i, '\n') && !At(source, i, '\r')
    ensures match StringFrom(source, offset, quote, cursor, value) case Err(fault, o) => IsReal(source, fault, o) case Ok(_) => true
    decreases |source| - cursor
  {
    hide IsSpace, IsDigit, StartsWord, IsSingle, IsPunctuation, IsDouble;
    if cursor == |source| || source[cursor] == quote || source[cursor] == LINE_FEED || source[cursor] == CARRIAGE_RETURN {
      assert cursor == |source| || source[cursor] != quote ==> LineEnds(source, offset, cursor);
    } else if source[cursor] != BACKSLASH {
      StringFaultIsReal(source, offset, quote, cursor + 1, value + [source[cursor]]);
    } else if cursor + 1 < |source| {
      var escaped := source[cursor + 1];
      if SimpleEscape(escaped).Some? {
        StringFaultIsReal(source, offset, quote, cursor + 2, value + [SimpleEscape(escaped).value]);
      } else if escaped == LETTER_U {
        var digits := FourAt(source, cursor + 2);
        if IsFourHex(digits) {
          StringFaultIsReal(source, offset, quote, cursor + 6, value + [HexValue(digits)]);
        }
      }
    }
  }

  /** An error of the tokenizer is where it says, and what it says. */
  lemma {:induction false} FaultsAreReal(source: Text, offset: nat)
    requires offset <= |source|
    ensures match Tokens(source, offset) case Err(fault, o) => IsReal(source, fault, o) case Ok(_) => true
    decreases |source| - offset
  {
    if offset < |source| {
      if IsSpace(source[offset]) {
        FaultsAreReal(source, offset + 1);
      } else {
        if IsQuote(source[offset]) {
          StringFaultIsReal(source, offset, source[offset], offset + 1, []);
        }
        if TokenAt(source, offset).Ok? {
          FaultsAreReal(source, TokenAt(source, offset).value.end);
        }
        hide StringFrom, NumberEnd, WordEnd;
      }
    }
  }
}
