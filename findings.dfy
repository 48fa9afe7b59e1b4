/**
 * Three branches of the Java scanner as they are written, each next to
 * the rule the rest of the model scans with, and an input on which the
 * two part ways.
 */
module AsWritten {
  import opened Tokens
  import opened Lexical
  import opened LexProperties

  /** The end of a branch as written: an outcome, or an exception thrown from inside it. */
  datatype Written = Thrown | Done(o: Outcome)

  /**
   * `string()` as written: the loop stops on the closing quote and leaves
   * it unconsumed, the lexeme runs from the opening quote up to the closing
   * one, and the literal is the text from `start + 1` to `current - 1`,
   * which throws when the quotes are adjacent.
   */
  function StringAsWritten(src: string, pos: nat, line: int): (r: Written)
    requires pos < |src| && src[pos] == '"'
    ensures r.Done? ==> pos < r.o.next <= |src| && r.o.line >= line && r.o.token.None? == (r.o.next == |src|)
    ensures r.Thrown? <==> pos + 1 < |src| && src[pos + 1] == '"'
  {
    var q := RunEnd(src, pos + 1, StringText);
    RunEndInside(src, pos + 1, StringText);
    RunEndStops(src, pos + 1, StringText);
    var l := line + NewlinesIn(src, pos + 1, q);
    if q == |src| then Done(Outcome(q, l, None, Some(LexError(l, UnterminatedString))))
    else if q == pos + 1 then Thrown
    else Done(Outcome(q, l, Some(Token(STRING, src[pos..q], StrLit(src[pos + 1..q - 1]), l)), None))
  }

  /**
   * Whenever a string is closed and not empty, the branch as written stops
   * on the closing quote, so the next step opens a new string there, and
   * its literal is one character short of the text between the quotes.
   */
  lemma StringLeavesQuote(src: string, pos: nat, line: int)
    requires pos < |src| && src[pos] == '"'
    requires exists q :: pos + 1 < q < |src| && src[q] == '"'
    requires src[pos + 1] != '"'
    ensures var r, o := StringAsWritten(src, pos, line), Step(src, pos, line);
      && r.Done? && r.o.token.Some? && o.token.Some?
      && r.o.next + 1 == o.next && src[r.o.next] == '"'
      && r.o.token.value.literal.StrLit? && o.token.value.literal.StrLit?
      && |r.o.token.value.literal.text| + 1 == |o.token.value.literal.text|
  {
    StringRule(src, pos, line);
    RunEndInside(src, pos + 1, StringText);
    RunEndStops(src, pos + 1, StringText);
  }

  /** On `"hi"` the branch as written yields the lexeme `"hi` with the literal `h`; the rule yields `"hi"` and `hi`. */
  lemma StringCounterexample(src: string)
    requires |src| == 4 && src[0] == '"' && src[1] == 'h' && src[2] == 'i' && src[3] == '"'
    ensures StringAsWritten(src, 0, 1) == Done(Outcome(3, 1, Some(Token(STRING, src[..3], StrLit(src[1..2]), 1)), None))
    ensures StringLiteral(src, 0, 1) == Outcome(4, 1, Some(Token(STRING, src, StrLit(src[1..3]), 1)), None)
  {
    RunEndAt(src, 1, 3, StringText);
    assert NewlinesIn(src, 1, 3) == 0;
    assert src[0..4] == src;
  }

  /** On the empty string literal `""` the branch as written throws; the rule yields the empty literal. */
  lemma EmptyStringCounterexample(src: string)
    requires |src| == 2 && src[0] == '"' && src[1] == '"'
    ensures StringAsWritten(src, 0, 1) == Thrown
    ensures StringLiteral(src, 0, 1) == Outcome(2, 1, Some(Token(STRING, src, StrLit([]), 1)), None)
  {
    RunEndAt(src, 1, 1, StringText);
    assert src[0..2] == src && src[1..1] == [];
    assert NewlinesIn(src, 1, 1) == 0;
  }

  /**
   * `multiLineComment()` as written, from just after the opener: the loop
   * ends when `match('*')` consumes a star or when a slash is next, and
   * reports the comment unterminated when the next character reads as NUL.
   */
  function CommentAsWritten(src: string, i: nat, line: int): (r: Outcome)
    requires i <= |src|
    ensures i <= r.next <= |src| && r.line >= line && r.token.None?
    ensures r.error.Some? ==> CharAt(src, r.next) == '\0' && r.error.value == LexError(r.line, UnterminatedComment)
    ensures r.error.None? ==> (i < r.next && src[r.next - 1] == '*') || CharAt(src, r.next) == '/'
    decreases |src| - i
  {
    if i < |src| && src[i] == '*' then Skip(i + 1, line)
    else if CharAt(src, i) == '/' then Skip(i, line)
    else if CharAt(src, i) == '\0' then Outcome(i, line, None, Some(LexError(line, UnterminatedComment)))
    else CommentAsWritten(src, i + 1, if src[i] == '\n' then line + 1 else line)
  }

  /**
   * On `/* a */` the branch as written stops after the star and leaves the
   * closing slash to be scanned as a SLASH token; the rule consumes the
   * whole comment.
   */
  lemma CommentCounterexample(src: string)
    requires |src| == 7 && src[0] == '/' && src[1] == '*' && src[2] == ' ' && src[3] == 'a'
    requires src[4] == ' ' && src[5] == '*' && src[6] == '/'
    ensures CommentAsWritten(src, 2, 1) == Skip(6, 1)
    ensures SlashStep(src, 6, 1) == Emit(src, 6, 7, 1, SLASH, NoLit)
    ensures BlockComment(src, 2, 1) == Skip(7, 1)
  {
    assert CommentAsWritten(src, 5, 1) == Skip(6, 1);
    assert CommentAsWritten(src, 4, 1) == CommentAsWritten(src, 5, 1);
    assert CommentAsWritten(src, 3, 1) == CommentAsWritten(src, 4, 1);
    assert CommentAsWritten(src, 2, 1) == CommentAsWritten(src, 3, 1);
    CloserFromAt(src, 2, 5);
    assert NewlinesIn(src, 2, 5) == 0;
  }

  /**
   * The default case as written: after a number or an identifier, and for
   * any other character, it reports an unexpected character.
   */
  function OtherAsWritten(src: string, pos: nat, line: int): (r: Outcome)
    requires pos < |src|
    ensures pos < r.next <= |src| && r.line == line
    ensures r.token.Some? <==> IsAlphaNumeric(src[pos])
  {
    var report := Some(LexError(line, UnexpectedCharacter));
    if IsDigit(src[pos]) then NumberLiteral(src, pos, line).(error := report)
    else if IsAlpha(src[pos]) then IdentifierWord(src, pos, line).(error := report)
    else Outcome(pos + 1, line, None, report)
  }

  /**
   * Every number and identifier draws the report as written; by the rule,
   * a character draws it exactly when it starts nothing, so never there.
   */
  lemma OtherReportsTokens(src: string, pos: nat, line: int)
    requires pos < |src| && IsAlphaNumeric(src[pos])
    ensures OtherAsWritten(src, pos, line).error == Some(LexError(line, UnexpectedCharacter))
    ensures OtherAsWritten(src, pos, line).token.Some?
    ensures Step(src, pos, line).error.None?
  {
    UnexpectedRule(src, pos, line);
    if IsDigit(src[pos]) {
      NumberRule(src, pos, line);
    } else {
      WordRule(src, pos, line);
    }
  }
}
