/** The lexer object: a cursor over the input text that hands out one token
    per call of `GetNextToken`, proved to do what `LexerSpec.NextToken`
    says. */
module Lexers {
  import opened Tokens
  import opened LexerSpec

  class Lexer {
    const text: string
    var pos: nat
    var currentChar: Option<char>

    /** The cursor is inside the text and `currentChar` is the character
        under it, or `None` past the end. */
    ghost predicate Valid()
      reads this
    {
      pos <= |text| && currentChar == (if pos < |text| then Some(text[pos]) else None)
    }

    /** The text not read yet. */
    function Rest(): string
      reads this
      requires Valid()
    {
      text[pos..]
    }

    constructor (text: string)
      ensures this.text == text && pos == 0 && Valid()
    {
      this.text := text;
      pos := 0;
      currentChar := if text != [] then Some(text[0]) else None;
    }

    /** Moves the cursor one character on. Only called on a character. */
    method Advance()
      requires Valid() && currentChar.Some?
      modifies this
      ensures Valid() && pos == old(pos) + 1
    {
      pos := pos + 1;
      currentChar := if pos < |text| then Some(text[pos]) else None;
    }

    /** Moves the cursor past the run of whitespace under it. */
    method SkipWhitespace()
      requires Valid()
      modifies this
      ensures Valid() && pos == old(pos) + Span(IsSpace, old(Rest()))
    {
      ghost var s := Rest();
      SpanIsMaximal(IsSpace, s);
      while currentChar.Some? && IsSpace(currentChar.value)
        invariant Valid() && old(pos) <= pos <= old(pos) + Span(IsSpace, s)
        decreases |text| - pos
      {
        assert s[pos - old(pos)] == text[pos];
        Advance();
      }
      assert pos < |text| ==> s[pos - old(pos)] == text[pos];
    }

    /** Reads the run of digits under the cursor and returns the number it
        spells. Only called on a digit. */
    method Integer() returns (n: nat)
      requires Valid() && currentChar.Some? && IsDigit(currentChar.value)
      modifies this
      ensures Valid()
      ensures pos == old(pos) + Span(IsDigit, old(Rest()))
      ensures AllDigits(text[old(pos)..pos]) && n == DecimalValue(text[old(pos)..pos])
    {
      ghost var s := Rest();
      SpanIsMaximal(IsDigit, s);
      var digits := "";
      while currentChar.Some? && IsDigit(currentChar.value)
        invariant Valid() && old(pos) <= pos <= old(pos) + Span(IsDigit, s)
        invariant digits == text[old(pos)..pos] && AllDigits(digits)
        decreases |text| - pos
      {
        assert s[pos - old(pos)] == text[pos];
        digits := digits + [currentChar.value];
        Advance();
      }
      assert pos < |text| ==> s[pos - old(pos)] == text[pos];
      n := DecimalValue(digits);
    }

    /** Returns the next token and moves the cursor past it, or raises on a
        character that starts no token, with the cursor on that character.
        At the end of the text it returns EOF and stays put. */
    method GetNextToken() returns (r: Result<Token>)
      requires Valid()
      modifies this
      ensures Valid() && old(pos) <= pos
      ensures r.Ok? && r.value.kind != Eof ==> old(pos) < pos
      ensures r.Ok? && r.value.kind == Eof ==> pos == |text|
      ensures old(pos) == |text| ==> r == Ok(EofToken) && pos == old(pos)
      ensures var step := NextToken(old(Rest()));
        && (step.Lexed? ==> r == Ok(step.token) && pos == old(pos) + step.len)
        && (step.Illegal? ==> r == Err(SyntaxError(InvalidCharacter(step.ch)))
                              && pos == old(pos) + Span(IsSpace, old(Rest())))
    {
      ghost var s := Rest();
      ghost var w := Span(IsSpace, s);
      SpanIsMaximal(IsSpace, s);
      while currentChar.Some?
        invariant Valid() && old(pos) <= pos <= old(pos) + w
        decreases |text| - pos
      {
        if IsSpace(currentChar.value) {
          SpanFrom(IsSpace, text, old(pos), pos);
          SkipWhitespace();
          continue;
        }
        assert pos == old(pos) + w by {
          assert s[pos - old(pos)] == text[pos];
        }
        var ch := currentChar.value;
        NextTokenFrom(text, old(pos), pos);
        assert text[pos..][0] == ch;
        if IsDigit(ch) {
          ghost var start := pos;
          var n := Integer();
          SliceOfSuffix(text, start, pos);
          return Ok(IntegerToken(n));
        }
        if IsOperatorChar(ch) {
          Advance();
          return Ok(OperatorToken(CharKind(ch)));
        }
        return Err(SyntaxError(InvalidCharacter(ch)));
      }
      return Ok(EofToken);
    }
  }
}
