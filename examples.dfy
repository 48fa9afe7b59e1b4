/**
 * The scanner's unit tests, restated as lemmas about the lexical model:
 * each input of the test suite scans to the tokens and error reports the
 * test expects. Each example rests on a lemma about every text of the same
 * shape, so the concrete inputs only instantiate it.
 */
module ScannerExamples {
  import opened Tokens
  import opened Lexical
  import opened LexProperties
  import opened Pieces

  /** `ScanText` for a text named directly, with its tokens and reports given. */
  lemma ScanTextAs(ps: seq<Piece>, src: string, tokens: seq<Token>, errors: seq<LexError>)
    requires WellFormed(ps) && Text(ps) == src
    requires TokensOf(ps, 1) + [EofToken(1 + LineBreaks(src))] == tokens && ErrorsOf(ps, 1) == errors
    ensures Scan(src).tokens == tokens && Scan(src).errors == errors
  {
    ScanText(ps);
  }

  // ---------------------------------------------------------------------
  // Comments and white space
  // ---------------------------------------------------------------------

  /** White space and closed comments stand for no token and draw no report. */
  predicate Silent(p: Piece) {
    p.Blank? || p.LineNote? || p.BlockNote?
  }

  /** A leading silent piece adds no token and only moves the line on. */
  lemma SilentFirstTokens(ps: seq<Piece>, line: int)
    requires ps != [] && Silent(ps[0])
    ensures TokensOf(ps, line) == TokensOf(ps[1..], line + LineBreaks(Render(ps[0])))
  {
    assert TokenOf(ps[0], line) == None;
    assert TokensOf(ps, line) == [] + TokensOf(ps[1..], line + LineBreaks(Render(ps[0])));
  }

  /** A leading silent piece draws no report and only moves the line on. */
  lemma SilentFirstErrors(ps: seq<Piece>, line: int)
    requires ps != [] && Silent(ps[0])
    ensures ErrorsOf(ps, line) == ErrorsOf(ps[1..], line + LineBreaks(Render(ps[0])))
  {
    assert ErrorOf(ps[0], line) == None;
    assert ErrorsOf(ps, line) == [] + ErrorsOf(ps[1..], line + LineBreaks(Render(ps[0])));
  }

  lemma SilentTail(ps: seq<Piece>)
    requires ps != [] && AllSilent(ps)
    ensures Silent(ps[0]) && AllSilent(ps[1..])
  {
    assert Silent(ps[0]);
    forall i | 0 <= i < |ps[1..]| ensures Silent(ps[1..][i]) {
      assert ps[1..][i] == ps[i + 1];
    }
  }

  lemma {:induction false} SilentPieces(ps: seq<Piece>, line: int)
    requires AllSilent(ps)
    ensures TokensOf(ps, line) == [] && ErrorsOf(ps, line) == []
    decreases |ps|
  {
    if ps != [] {
      SilentTail(ps);
      SilentPieces(ps[1..], line + LineBreaks(Render(ps[0])));
      SilentFirstTokens(ps, line);
      SilentFirstErrors(ps, line);
    }
  }

  /** A text of white space and closed comments scans to EOF alone, on the line the text ends on. */
  lemma QuietText(ps: seq<Piece>)
    requires WellFormed(ps) && AllSilent(ps)
    ensures Scan(Text(ps)).tokens == [EofToken(1 + LineBreaks(Text(ps)))]
    ensures Scan(Text(ps)).errors == []
  {
    SilentPieces(ps, 1);
    var eof := EofToken(1 + LineBreaks(Text(ps)));
    assert TokensOf(ps, 1) + [eof] == [eof];
    ScanTextAs(ps, Text(ps), [eof], []);
  }

  /** An unterminated comment or string, which draws an error report and no token. */
  predicate Unclosed(p: Piece) {
    p.OpenNote? || p.OpenStr?
  }

  /** The message an unclosed piece is reported with. */
  function UnclosedMessage(p: Piece): string
    requires Unclosed(p)
  {
    if p.OpenNote? then UnterminatedComment else UnterminatedString
  }

  predicate AllSilent(ps: seq<Piece>) {
    forall i :: 0 <= i < |ps| ==> Silent(ps[i])
  }

  lemma UnclosedBreaks(p: Piece)
    requires Unclosed(p)
    ensures LineBreaks(Render(p)) == LineBreaks(p.text)
  {
    if p.OpenNote? {
      LineBreaksAppend("/*", p.text);
      assert LineBreaks("/*") == 0;
    } else {
      LineBreaksAppend("\"", p.text);
      assert LineBreaks("\"") == 0;
    }
  }

  /** An unclosed piece on its own reports one error, on the line it ends on. */
  lemma UnclosedPiece(p: Piece, line: int)
    requires Unclosed(p)
    ensures TokensOf([p], line) == []
    ensures ErrorsOf([p], line) == [LexError(line + LineBreaks(Render(p)), UnclosedMessage(p))]
  {
    assert [p][1..] == [];
    UnclosedBreaks(p);
    assert TokensOf([p], line) == [] + [];
    assert ErrorsOf([p], line) == OptionToSeq(ErrorOf(p, line)) + [];
  }

  /**
   * A text that is one unterminated comment or string scans to EOF alone and
   * reports that one error, on the line the text ends on.
   */
  lemma UnclosedText(p: Piece)
    requires WellFormed([p]) && Unclosed(p)
    ensures Scan(Render(p)).tokens == [EofToken(1 + LineBreaks(p.text))]
    ensures Scan(Render(p)).errors == [LexError(1 + LineBreaks(p.text), UnclosedMessage(p))]
  {
    UnclosedAlone(p);
    var line := 1 + LineBreaks(p.text);
    ScanTextAs([p], Render(p), [EofToken(line)], [LexError(line, UnclosedMessage(p))]);
  }

  /** An unclosed piece on its own, as a run of pieces. */
  lemma UnclosedAlone(p: Piece)
    requires Unclosed(p)
    ensures var line := 1 + LineBreaks(p.text);
      && Text([p]) == Render(p)
      && TokensOf([p], 1) + [EofToken(1 + LineBreaks(Render(p)))] == [EofToken(line)]
      && ErrorsOf([p], 1) == [LexError(line, UnclosedMessage(p))]
  {
    UnclosedPiece(p, 1);
    UnclosedBreaks(p);
    TextOne(p);
    assert [] + [EofToken(1 + LineBreaks(p.text))] == [EofToken(1 + LineBreaks(p.text))];
  }

  // ---------------------------------------------------------------------
  // Strings
  // ---------------------------------------------------------------------

  lemma StringPiece(ps: seq<Piece>, line: int)
    requires |ps| == 1 && ps[0].Str?
    ensures TokensOf(ps, line) == [Token(STRING, Text(ps), StrLit(ps[0].text), line + LineBreaks(Text(ps)))]
    ensures ErrorsOf(ps, line) == []
  {
    var p := ps[0];
    assert ps[1..] == [];
    TextOne(p);
    LineBreaksAppend("\"", p.text);
    LineBreaksAppend("\"" + p.text, "\"");
    assert LineBreaks("\"") == 0;
    var tok := Token(STRING, Text(ps), StrLit(p.text), line + LineBreaks(Text(ps)));
    assert TokensOf(ps, line) == [tok] + [];
    assert ErrorsOf(ps, line) == [] + [];
  }

  /**
   * A text that is one closed string scans to a STRING token whose lexeme is
   * the whole text and whose literal is the text between the quotes.
   */
  lemma StringAloneText(ps: seq<Piece>)
    requires WellFormed(ps) && |ps| == 1 && ps[0].Str?
    ensures var line := 1 + LineBreaks(Text(ps));
      Scan(Text(ps)).tokens == [Token(STRING, Text(ps), StrLit(ps[0].text), line), EofToken(line)]
    ensures Scan(Text(ps)).errors == []
  {
    StringPiece(ps, 1);
    ScanText(ps);
  }

  // ---------------------------------------------------------------------
  // Short inputs, character by character
  // ---------------------------------------------------------------------

  /** The tokens have the kinds `ks`, in order. */
  predicate KindsAre(ts: seq<Token>, ks: seq<TokenType>) {
    |ts| == |ks| && forall i :: 0 <= i < |ts| ==> ts[i].kind == ks[i]
  }

  /** From `pos` on line `line`, the scan yields tokens of kinds `ks`, draws no report and stays on the line. */
  predicate ScansTo(src: string, pos: nat, line: int, ks: seq<TokenType>)
    requires pos <= |src|
  {
    var r := ScanFrom(src, pos, line);
    KindsAre(r.tokens, ks) && r.errors == [] && r.line == line
  }

  lemma ScansToEnd(src: string, line: int)
    ensures ScansTo(src, |src|, line, [])
  {
  }

  /** A step that yields a token of kind `k` on the same line puts `k` in front. */
  lemma TokenStep(src: string, pos: nat, line: int, k: TokenType, ks: seq<TokenType>)
    requires pos < |src|
    requires var o := Step(src, pos, line); o.token.Some? && o.token.value.kind == k && o.error.None? && o.line == line
    requires ScansTo(src, Step(src, pos, line).next, line, ks)
    ensures ScansTo(src, pos, line, [k] + ks)
  {
    var o := Step(src, pos, line);
    ScanFromOutcome(src, pos, line, o);
    var rest := ScanFrom(src, o.next, line);
    assert ScanFrom(src, pos, line).tokens == [o.token.value] + rest.tokens;
    assert ScanFrom(src, pos, line).errors == [] + rest.errors;
  }

  /** Closing a run of tokens with EOF closes its kinds with EOF. */
  lemma KindsThenEof(ts: seq<Token>, ks: seq<TokenType>, line: int)
    requires KindsAre(ts, ks)
    ensures KindsAre(ts + [EofToken(line)], ks + [EOF])
  {
  }

  lemma ScanKinds(src: string, ks: seq<TokenType>)
    requires ScansTo(src, 0, 1, ks)
    ensures KindsAre(Scan(src).tokens, ks + [EOF])
    ensures Scan(src).tokens[|ks|] == EofToken(1) && Scan(src).errors == []
  {
  }

  /**
   * The kinds a run of operator characters scans to under maximal munch:
   * each operator takes the `=` after it when there is one.
   */
  function MunchKinds(src: string, pos: nat): seq<TokenType>
    requires pos <= |src| && forall k :: pos <= k < |src| ==> src[k] in Operators
    decreases |src| - pos
  {
    if pos == |src| then []
    else if pos + 1 < |src| && src[pos + 1] == '=' then [Operators[src[pos]].1] + MunchKinds(src, pos + 2)
    else [Operators[src[pos]].0] + MunchKinds(src, pos + 1)
  }

  /** A text of operator characters from `pos` on scans to its maximal-munch kinds. */
  lemma {:induction false} OperatorRun(src: string, pos: nat, line: int)
    requires pos <= |src| && forall k :: pos <= k < |src| ==> src[k] in Operators
    ensures ScansTo(src, pos, line, MunchKinds(src, pos))
    decreases |src| - pos
  {
    if pos < |src| {
      OperatorRule(src, pos, line);
      var next := Step(src, pos, line).next;
      OperatorRun(src, next, line);
      TokenStep(src, pos, line, Step(src, pos, line).token.value.kind, MunchKinds(src, next));
    } else {
      ScansToEnd(src, line);
    }
  }

  lemma MunchInput(src: string)
    requires |src| == 9 && src[0] == '<' && src[1] == '=' && src[2] == '>' && src[3] == '='
    requires src[4] == '=' && src[5] == '=' && src[6] == '!' && src[7] == '=' && src[8] == '='
    ensures MunchKinds(src, 0) == [LESS_EQUAL, GREATER_EQUAL, EQUAL_EQUAL, BANG_EQUAL, EQUAL]
  {
    assert MunchKinds(src, 8) == [EQUAL] + [];
    assert MunchKinds(src, 6) == [BANG_EQUAL] + MunchKinds(src, 8);
    assert MunchKinds(src, 4) == [EQUAL_EQUAL] + MunchKinds(src, 6);
    assert MunchKinds(src, 2) == [GREATER_EQUAL] + MunchKinds(src, 4);
    assert MunchKinds(src, 0) == [LESS_EQUAL] + MunchKinds(src, 2);
  }

  /** `<=>===!==`: every operator takes the `=` after it when there is one. */
  lemma MultiCharOperatorsTest(src: string)
    requires |src| == 9 && src[0] == '<' && src[1] == '=' && src[2] == '>' && src[3] == '='
    requires src[4] == '=' && src[5] == '=' && src[6] == '!' && src[7] == '=' && src[8] == '='
    ensures KindsAre(Scan(src).tokens, [LESS_EQUAL, GREATER_EQUAL, EQUAL_EQUAL, BANG_EQUAL, EQUAL, EOF])
    ensures Scan(src).errors == []
  {
    OperatorRun(src, 0, 1);
    MunchInput(src);
    ScanKinds(src, [LESS_EQUAL, GREATER_EQUAL, EQUAL_EQUAL, BANG_EQUAL, EQUAL]);
  }

  /** The character at `k` is a one-character token: nothing after it extends it. */
  predicate SingleAt(src: string, k: nat)
    requires k < |src|
  {
    || src[k] in Punctuation
    || (src[k] in Operators && CharAt(src, k + 1) != '=')
    || (src[k] == '/' && CharAt(src, k + 1) != '/' && CharAt(src, k + 1) != '*')
  }

  function SingleKind(c: char): TokenType {
    if c in Punctuation then Punctuation[c] else if c in Operators then Operators[c].0 else SLASH
  }

  lemma SingleStep(src: string, pos: nat, line: int)
    requires pos < |src| && SingleAt(src, pos)
    ensures Step(src, pos, line) == Outcome(pos + 1, line, Some(Token(SingleKind(src[pos]), [src[pos]], NoLit, line)), None)
  {
    if src[pos] in Punctuation {
      PunctuationRule(src, pos, line);
    } else if src[pos] in Operators {
      OperatorRule(src, pos, line);
      assert src[pos..pos + 1] == [src[pos]];
    } else {
      SlashAlone(src, pos, line);
    }
  }

  /** A slash that starts no comment is a SLASH token. */
  lemma SlashAlone(src: string, pos: nat, line: int)
    requires pos < |src| && src[pos] == '/' && CharAt(src, pos + 1) != '/' && CharAt(src, pos + 1) != '*'
    ensures Step(src, pos, line) == Outcome(pos + 1, line, Some(Token(SLASH, [src[pos]], NoLit, line)), None)
  {
    assert Step(src, pos, line) == SlashStep(src, pos, line);
    assert src[pos..pos + 1] == [src[pos]];
  }

  /** The kinds of a run of one-character tokens. */
  function SingleKinds(src: string, pos: nat): seq<TokenType>
    decreases |src| - pos
  {
    if pos >= |src| then [] else [SingleKind(src[pos])] + SingleKinds(src, pos + 1)
  }

  /** A run of one-character tokens scans character by character. */
  lemma {:induction false} SingleRun(src: string, pos: nat, line: int)
    requires pos <= |src| && forall k :: pos <= k < |src| ==> SingleAt(src, k)
    ensures ScansTo(src, pos, line, SingleKinds(src, pos))
    decreases |src| - pos
  {
    if pos < |src| {
      SingleStep(src, pos, line);
      SingleRun(src, pos + 1, line);
      TokenStep(src, pos, line, SingleKind(src[pos]), SingleKinds(src, pos + 1));
    } else {
      ScansToEnd(src, line);
    }
  }

  /** The single-character test input, character by character. */
  predicate SinglesInput(src: string) {
    && |src| == 14 && src[0] == '(' && src[1] == ')' && src[2] == '{' && src[3] == '}'
    && src[4] == ',' && src[5] == '.' && src[6] == '-' && src[7] == '+' && src[8] == ';'
    && src[9] == '*' && src[10] == '!' && src[11] == '<' && src[12] == '>' && src[13] == '/'
  }

  const SingleTokens: seq<TokenType> :=
    [LEFT_PAREN, RIGHT_PAREN, LEFT_BRACE, RIGHT_BRACE, COMMA, DOT, MINUS, PLUS, SEMICOLON, STAR,
     BANG, LESS, GREATER, SLASH]

  lemma SinglesAt(src: string)
    requires SinglesInput(src)
    ensures forall k :: 0 <= k < |src| ==> SingleAt(src, k)
  {
    forall k | 0 <= k < |src| ensures SingleAt(src, k) {
      if k < 10 {
        assert src[k] in Punctuation;
      } else if k < 13 {
        assert src[k] in Operators && CharAt(src, k + 1) != '=';
      }
    }
  }

  lemma SinglesKindsTail(src: string)
    requires SinglesInput(src)
    ensures SingleKinds(src, 7) == [PLUS, SEMICOLON, STAR, BANG, LESS, GREATER, SLASH]
  {
    assert SingleKinds(src, 14) == [];
    assert SingleKinds(src, 13) == [SLASH] + SingleKinds(src, 14);
    assert SingleKinds(src, 12) == [GREATER] + SingleKinds(src, 13);
    assert SingleKinds(src, 11) == [LESS] + SingleKinds(src, 12);
    assert SingleKinds(src, 10) == [BANG] + SingleKinds(src, 11);
    assert SingleKinds(src, 9) == [STAR] + SingleKinds(src, 10);
    assert SingleKinds(src, 8) == [SEMICOLON] + SingleKinds(src, 9);
    assert SingleKinds(src, 7) == [PLUS] + SingleKinds(src, 8);
  }

  lemma SinglesKinds(src: string)
    requires SinglesInput(src)
    ensures SingleKinds(src, 0) == SingleTokens
  {
    SinglesKindsTail(src);
    assert SingleKinds(src, 6) == [MINUS] + SingleKinds(src, 7);
    assert SingleKinds(src, 5) == [DOT] + SingleKinds(src, 6);
    assert SingleKinds(src, 4) == [COMMA] + SingleKinds(src, 5);
    assert SingleKinds(src, 3) == [RIGHT_BRACE] + SingleKinds(src, 4);
    assert SingleKinds(src, 2) == [LEFT_BRACE] + SingleKinds(src, 3);
    assert SingleKinds(src, 1) == [RIGHT_PAREN] + SingleKinds(src, 2);
    assert SingleKinds(src, 0) == [LEFT_PAREN] + SingleKinds(src, 1);
  }

  /** Each punctuation and operator character on its own is its own token. */
  lemma SingleTokensTest(src: string)
    requires SinglesInput(src)
    ensures KindsAre(Scan(src).tokens, SingleTokens + [EOF])
    ensures Scan(src).errors == []
  {
    SinglesAt(src);
    SinglesKinds(src);
    SingleRun(src, 0, 1);
    ScanKinds(src, SingleTokens);
  }

  // ---------------------------------------------------------------------
  // Numbers
  // ---------------------------------------------------------------------

  lemma NumberNoBreaks(w: string)
    requires NumberShape(w)
    ensures LineBreaks(w) == 0
  {
    assert NoLineBreak(w) by {
      forall k | 0 <= k < |w| ensures w[k] != '\n' {
        if !IsDigit(w[k]) {
          var d :| 0 < d < |w| - 1 && w[d] == '.' && forall i :: 0 <= i < |w| && i != d ==> IsDigit(w[i]);
        }
      }
    }
    LineBreaksNone(w);
  }

  lemma NumberPiece(w: string, line: int)
    requires NumberShape(w)
    ensures TokensOf([Num(w)], line) == [Token(NUMBER, w, NumLit(w), line)]
    ensures ErrorsOf([Num(w)], line) == []
  {
    assert [Num(w)][1..] == [];
    assert TokensOf([Num(w)], line) == [Token(NUMBER, w, NumLit(w), line)] + [];
    assert ErrorsOf([Num(w)], line) == [] + [];
  }

  /** A number on its own, as a run of pieces. */
  lemma NumberAlone(w: string)
    requires NumberShape(w)
    ensures WellFormed([Num(w)]) && Text([Num(w)]) == w && LineBreaks(w) == 0
    ensures TokensOf([Num(w)], 1) + [EofToken(1)] == [Token(NUMBER, w, NumLit(w), 1), EofToken(1)]
    ensures ErrorsOf([Num(w)], 1) == []
  {
    NumberPiece(w, 1);
    NumberNoBreaks(w);
    TextOne(Num(w));
    assert [Num(w)][1..] == [];
  }

  /** A text of number shape is one NUMBER token, its literal the whole text. */
  lemma NumberText(w: string)
    requires NumberShape(w)
    ensures Scan(w).tokens == [Token(NUMBER, w, NumLit(w), 1), EofToken(1)]
    ensures Scan(w).errors == []
  {
    NumberAlone(w);
    ScanTextAs([Num(w)], w, [Token(NUMBER, w, NumLit(w), 1), EofToken(1)], []);
  }

  lemma NumberDotPieces(w: string, line: int)
    requires DigitsOnly(w)
    ensures var ps := [Num(w), Punct('.')];
      && TokensOf(ps, line) == [Token(NUMBER, w, NumLit(w), line), Token(DOT, ".", NoLit, line)]
      && ErrorsOf(ps, line) == []
  {
    var ps := [Num(w), Punct('.')];
    NumberNoBreaks(w);
    assert ps[1..] == [Punct('.')] && ps[1..][1..] == [];
    assert LineBreaks(".") == 0;
    assert TokensOf(ps[1..], line) == [Token(DOT, ".", NoLit, line)] + [];
    assert ErrorsOf(ps[1..], line) == [] + [];
    assert TokensOf(ps, line) == [Token(NUMBER, w, NumLit(w), line)] + TokensOf(ps[1..], line);
    assert ErrorsOf(ps, line) == [] + ErrorsOf(ps[1..], line);
  }

  lemma NumberDotWellFormed(w: string)
    requires DigitsOnly(w)
    ensures WellFormed([Num(w), Punct('.')]) && Text([Num(w), Punct('.')]) == w + "."
  {
    var ps := [Num(w), Punct('.')];
    assert ps[1..] == [Punct('.')] && ps[1..][1..] == [];
    TextOne(Punct('.'));
    assert Text(ps[1..]) == ".";
  }

  /**
   * Digits then a dot with no digit after it: the dot is not part of the
   * number, so the text is a NUMBER token and then a DOT token.
   */
  lemma NumberThenDotText(w: string)
    requires DigitsOnly(w)
    ensures Scan(w + ".").tokens == [Token(NUMBER, w, NumLit(w), 1), Token(DOT, ".", NoLit, 1), EofToken(1)]
    ensures Scan(w + ".").errors == []
  {
    NumberThenDotAlone(w);
    ScanTextAs([Num(w), Punct('.')], w + ".", [Token(NUMBER, w, NumLit(w), 1), Token(DOT, ".", NoLit, 1), EofToken(1)], []);
  }

  /** Digits then a dot, as a run of pieces. */
  lemma NumberThenDotAlone(w: string)
    requires DigitsOnly(w)
    ensures var ps := [Num(w), Punct('.')];
      && WellFormed(ps) && Text(ps) == w + "." && LineBreaks(w + ".") == 0
      && TokensOf(ps, 1) + [EofToken(1)] == [Token(NUMBER, w, NumLit(w), 1), Token(DOT, ".", NoLit, 1), EofToken(1)]
      && ErrorsOf(ps, 1) == []
  {
    NumberDotWellFormed(w);
    NumberDotPieces(w, 1);
    NumberNoBreaks(w);
    LineBreaksAppend(w, ".");
    assert LineBreaks(".") == 0;
  }

  lemma Number123(w: string)
    requires |w| == 3 && w[0] == '1' && w[1] == '2' && w[2] == '3'
    ensures DigitsOnly(w) && NumberShape(w)
  {
  }

  /** `123` is one NUMBER token whose literal is its text. */
  lemma NumberTest(w: string)
    requires |w| == 3 && w[0] == '1' && w[1] == '2' && w[2] == '3'
    ensures Scan(w).tokens == [Token(NUMBER, w, NumLit(w), 1), EofToken(1)]
    ensures Scan(w).errors == []
  {
    Number123(w);
    NumberText(w);
  }

  lemma Number123Point23(w: string)
    requires |w| == 6 && w[0] == '1' && w[1] == '2' && w[2] == '3' && w[3] == '.' && w[4] == '2' && w[5] == '3'
    ensures NumberShape(w)
  {
    assert forall i :: 0 <= i < |w| && i != 3 ==> IsDigit(w[i]);
  }

  /** `123.23` is one NUMBER token: a dot followed by a digit belongs to the number. */
  lemma FractionTest(w: string)
    requires |w| == 6 && w[0] == '1' && w[1] == '2' && w[2] == '3' && w[3] == '.' && w[4] == '2' && w[5] == '3'
    ensures Scan(w).tokens == [Token(NUMBER, w, NumLit(w), 1), EofToken(1)]
    ensures Scan(w).errors == []
  {
    Number123Point23(w);
    NumberText(w);
  }

  /** `123.` is a NUMBER token and then a DOT token. */
  lemma TrailingDotTest(w: string)
    requires |w| == 3 && w[0] == '1' && w[1] == '2' && w[2] == '3'
    ensures KindsAre(Scan(w + ".").tokens, [NUMBER, DOT, EOF])
    ensures Scan(w + ".").errors == []
  {
    Number123(w);
    NumberThenDotText(w);
  }

  // ---------------------------------------------------------------------
  // Words separated by spaces
  // ---------------------------------------------------------------------

  /** Words joined by single spaces. */
  function Spaced(ws: seq<string>): string {
    if |ws| == 0 then "" else if |ws| == 1 then ws[0] else ws[0] + " " + Spaced(ws[1..])
  }

  /** The pieces of `Spaced(ws)`: each word, and a blank between two words. */
  function WordPieces(ws: seq<string>): seq<Piece> {
    if |ws| == 0 then [] else if |ws| == 1 then [Word(ws[0])] else [Word(ws[0]), Blank(' ')] + WordPieces(ws[1..])
  }

  /** The token each word scans to, on line `line`. */
  function WordTokens(ws: seq<string>, line: int): seq<Token> {
    if ws == [] then [] else [Token(WordKind(ws[0]), ws[0], NoLit, line)] + WordTokens(ws[1..], line)
  }

  predicate AllWords(ws: seq<string>) {
    forall i :: 0 <= i < |ws| ==> IdentifierShaped(ws[i])
  }

  lemma WordNoBreaks(w: string)
    requires IdentifierShaped(w)
    ensures LineBreaks(w) == 0
  {
    assert NoLineBreak(w) by {
      forall k | 0 <= k < |w| ensures w[k] != '\n' {
        assert IsAlphaNumeric(w[k]);
      }
    }
    LineBreaksNone(w);
  }

  lemma AllWordsTail(ws: seq<string>)
    requires AllWords(ws) && ws != []
    ensures IdentifierShaped(ws[0]) && AllWords(ws[1..])
  {
    forall i | 0 <= i < |ws[1..]| ensures IdentifierShaped(ws[1..][i]) {
      assert ws[1..][i] == ws[i + 1];
    }
  }

  lemma WordPiecesSplit(ws: seq<string>)
    requires |ws| > 1
    ensures var ps := WordPieces(ws);
      && ps[0] == Word(ws[0]) && ps[1..] == [Blank(' ')] + WordPieces(ws[1..])
      && ps[1..][0] == Blank(' ') && ps[1..][1..] == WordPieces(ws[1..])
  {
  }

  lemma {:induction false} WordPiecesText(ws: seq<string>)
    requires AllWords(ws)
    ensures Text(WordPieces(ws)) == Spaced(ws) && LineBreaks(Spaced(ws)) == 0
    decreases |ws|
  {
    if |ws| == 1 {
      TextOne(Word(ws[0]));
      WordNoBreaks(ws[0]);
    } else if |ws| > 1 {
      var rest := WordPieces(ws[1..]);
      AllWordsTail(ws);
      WordPiecesText(ws[1..]);
      WordPiecesSplit(ws);
      assert Text(WordPieces(ws)) == ws[0] + (" " + Text(rest));
      assert ws[0] + (" " + Text(rest)) == ws[0] + " " + Spaced(ws[1..]);
      WordNoBreaks(ws[0]);
      LineBreaksAppend(ws[0], " ");
      LineBreaksAppend(ws[0] + " ", Spaced(ws[1..]));
      assert LineBreaks(" ") == 0;
    }
  }

  lemma {:induction false} WordPiecesWellFormed(ws: seq<string>)
    requires AllWords(ws)
    ensures WellFormed(WordPieces(ws))
    decreases |ws|
  {
    if |ws| == 1 {
      assert WordPieces(ws)[1..] == [];
    } else if |ws| > 1 {
      var ps, rest := WordPieces(ws), WordPieces(ws[1..]);
      AllWordsTail(ws);
      WordPiecesWellFormed(ws[1..]);
      WordPiecesSplit(ws);
      assert Text(ps[1..]) == " " + Text(rest);
      assert Text(ps[1..])[0] == ' ';
    }
  }

  /** The tokens of the pieces of one word. */
  lemma WordPieceTokens(ws: seq<string>, line: int)
    requires |ws| == 1
    ensures TokensOf(WordPieces(ws), line) == WordTokens(ws, line)
    ensures ErrorsOf(WordPieces(ws), line) == []
  {
    var ps := WordPieces(ws);
    assert ps[1..] == [] && ws[1..] == [];
    assert TokensOf(ps, line) == [Token(WordKind(ws[0]), ws[0], NoLit, line)] + [];
    assert WordTokens(ws, line) == [Token(WordKind(ws[0]), ws[0], NoLit, line)] + [];
    assert ErrorsOf(ps, line) == [] + [];
  }

  /** A leading space adds no token, no error and no line. */
  lemma SpaceFirst(ps: seq<Piece>, line: int)
    requires ps != [] && ps[0] == Blank(' ')
    ensures TokensOf(ps, line) == TokensOf(ps[1..], line)
    ensures ErrorsOf(ps, line) == ErrorsOf(ps[1..], line)
  {
    SilentFirstTokens(ps, line);
    SilentFirstErrors(ps, line);
    assert Render(ps[0]) == " ";
    assert LineBreaks(" ") == 0;
  }

  /** A leading word adds its own token, no error and no line. */
  lemma WordFirst(ps: seq<Piece>, w: string, line: int)
    requires ps != [] && ps[0] == Word(w) && IdentifierShaped(w)
    ensures TokensOf(ps, line) == [Token(WordKind(w), w, NoLit, line)] + TokensOf(ps[1..], line)
    ensures ErrorsOf(ps, line) == ErrorsOf(ps[1..], line)
  {
    WordNoBreaks(w);
    assert ErrorsOf(ps, line) == [] + ErrorsOf(ps[1..], line);
  }

  /** The tokens of the pieces of two or more words, from those of all but the first. */
  lemma WordPiecesTokensStep(ws: seq<string>, line: int)
    requires |ws| > 1 && IdentifierShaped(ws[0])
    requires TokensOf(WordPieces(ws[1..]), line) == WordTokens(ws[1..], line)
    requires ErrorsOf(WordPieces(ws[1..]), line) == []
    ensures TokensOf(WordPieces(ws), line) == WordTokens(ws, line)
    ensures ErrorsOf(WordPieces(ws), line) == []
  {
    var ps := WordPieces(ws);
    WordPiecesSplit(ws);
    WordFirst(ps, ws[0], line);
    SpaceFirst(ps[1..], line);
  }

  lemma {:induction false} WordPiecesTokens(ws: seq<string>, line: int)
    requires AllWords(ws)
    ensures TokensOf(WordPieces(ws), line) == WordTokens(ws, line)
    ensures ErrorsOf(WordPieces(ws), line) == []
    decreases |ws|
  {
    if |ws| == 1 {
      WordPieceTokens(ws, line);
    } else if |ws| > 1 {
      AllWordsTail(ws);
      WordPiecesTokens(ws[1..], line);
      WordPiecesTokensStep(ws, line);
    }
  }

  /**
   * Identifier-shaped words separated by single spaces scan to one token per
   * word, reserved words to their reserved kinds and the rest to IDENTIFIER.
   */
  lemma WordsText(ws: seq<string>)
    requires AllWords(ws)
    ensures Scan(Spaced(ws)).tokens == WordTokens(ws, 1) + [EofToken(1)]
    ensures Scan(Spaced(ws)).errors == []
  {
    var ps := WordPieces(ws);
    WordPiecesText(ws);
    WordPiecesWellFormed(ws);
    WordPiecesTokens(ws, 1);
    ScanTextAs(ps, Spaced(ws), WordTokens(ws, 1) + [EofToken(1)], []);
  }

  /** Each word of the list gives one token of its kind, with the word as lexeme. */
  lemma {:induction false} WordTokensAt(ws: seq<string>, line: int)
    ensures |WordTokens(ws, line)| == |ws|
    ensures forall i :: 0 <= i < |ws| ==> WordTokens(ws, line)[i] == Token(WordKind(ws[i]), ws[i], NoLit, line)
    decreases |ws|
  {
    if ws != [] {
      WordTokensAt(ws[1..], line);
      assert forall i :: 1 <= i < |ws| ==> ws[1..][i - 1] == ws[i];
    }
  }

  /** The reserved words, in the order the keyword test lists them. */
  const TestKeywords: seq<TokenType> :=
    [AND, CLASS, ELSE, FALSE, FOR, FUN, IF, NIL, OR, PRINT, RETURN, SUPER, THIS, TRUE, VAR, WHILE]

  /** `ws` spells the test's keywords in order. */
  predicate KeywordWords(ws: seq<string>) {
    |ws| == |TestKeywords| && forall i :: 0 <= i < |ws| ==> ws[i] == KeywordText(TestKeywords[i])
  }

  lemma KeywordWordsKinds(ws: seq<string>)
    requires KeywordWords(ws)
    ensures AllWords(ws)
    ensures forall i :: 0 <= i < |ws| ==> WordKind(ws[i]) == TestKeywords[i]
  {
    KeywordsShaped();
    forall i | 0 <= i < |ws|
      ensures IdentifierShaped(ws[i]) && WordKind(ws[i]) == TestKeywords[i]
    {
      KeywordOf(TestKeywords[i]);
    }
  }

  /** The word tokens of the keyword test, kind by kind. */
  lemma KeywordTokens(ws: seq<string>)
    requires KeywordWords(ws)
    ensures AllWords(ws) && KindsAre(WordTokens(ws, 1), TestKeywords)
  {
    KeywordWordsKinds(ws);
    WordTokensAt(ws, 1);
  }

  /** Every reserved word scans to its own kind. */
  lemma KeywordsTest(ws: seq<string>)
    requires KeywordWords(ws)
    ensures KindsAre(Scan(Spaced(ws)).tokens, TestKeywords + [EOF])
    ensures Scan(Spaced(ws)).errors == []
  {
    KeywordTokens(ws);
    WordsText(ws);
    KindsThenEof(WordTokens(ws, 1), TestKeywords, 1);
  }

  /** The word tokens of `return x`. */
  lemma ReturnIdentifierTokens(ws: seq<string>)
    requires |ws| == 2 && ws[0] == "return" && ws[1] == "x"
    ensures AllWords(ws) && KindsAre(WordTokens(ws, 1), [RETURN, IDENTIFIER])
  {
    ReturnIdentifierWords(ws);
    WordTokensAt(ws, 1);
  }

  /** `return x` is a keyword followed by an identifier. */
  lemma ReturnIdentifierTest(ws: seq<string>)
    requires |ws| == 2 && ws[0] == "return" && ws[1] == "x"
    ensures KindsAre(Scan(Spaced(ws)).tokens, [RETURN, IDENTIFIER, EOF])
    ensures Scan(Spaced(ws)).errors == []
  {
    ReturnIdentifierTokens(ws);
    WordsText(ws);
    KindsThenEof(WordTokens(ws, 1), [RETURN, IDENTIFIER], 1);
  }

  lemma ReturnIdentifierWords(ws: seq<string>)
    requires |ws| == 2 && ws[0] == "return" && ws[1] == "x"
    ensures AllWords(ws) && WordKind(ws[0]) == RETURN && WordKind(ws[1]) == IDENTIFIER
  {
    KeywordOf(RETURN);
    assert IdentifierShaped(ws[0]) by {
      KeywordsShaped();
    }
    assert ws[1] !in Keywords;
  }

  /** The words of the `return x` example, joined by a space, are its input. */
  lemma ReturnIdentifierInput(ws: seq<string>)
    requires |ws| == 2 && ws[0] == "return" && ws[1] == "x"
    ensures Spaced(ws) == "return x"
  {
    assert ws[1..] == ["x"];
  }
}
