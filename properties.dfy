/**
 * What the scanner promises about the token list it produces: one EOF
 * token at the end, lexemes that are the source text they were cut from,
 * line numbers that count the line breaks before each token, and the
 * individual lexical rules (maximal munch, comments, strings, numbers,
 * identifiers and reserved words, bad characters).
 */
module LexProperties {
  import opened Tokens
  import opened Lexical

  // ---------------------------------------------------------------------
  // Line breaks and runs
  // ---------------------------------------------------------------------

  /** Counting line breaks is additive over adjacent slices. */
  lemma {:induction false} NewlinesSplit(s: string, i: nat, j: nat, k: nat)
    requires i <= j <= k <= |s|
    ensures NewlinesIn(s, i, k) == NewlinesIn(s, i, j) + NewlinesIn(s, j, k)
    decreases k - j
  {
    if j < k {
      NewlinesSplit(s, i, j, k - 1);
    }
  }

  /** A slice without line breaks counts none. */
  lemma {:induction false} NewlinesNone(s: string, i: nat, j: nat)
    requires i <= j <= |s|
    requires forall k :: i <= k < j ==> s[k] != '\n'
    ensures NewlinesIn(s, i, j) == 0
    decreases j - i
  {
    if i < j {
      NewlinesNone(s, i, j - 1);
    }
  }

  /** Runs of digits, word characters or comment text contain no line break. */
  lemma RunNoNewlines(s: string, i: nat, cls: CharClass)
    requires i <= |s| && cls != StringText
    ensures NewlinesIn(s, i, RunEnd(s, i, cls)) == 0
  {
    RunEndInside(s, i, cls);
    NewlinesNone(s, i, RunEnd(s, i, cls));
  }

  /** A run that is all in its class up to `e` and stops there ends at `e`. */
  lemma {:induction false} RunEndAt(s: string, i: nat, e: nat, cls: CharClass)
    requires i <= e <= |s|
    requires forall k :: i <= k < e ==> InClass(s[k], cls)
    requires e == |s| || !InClass(s[e], cls)
    ensures RunEnd(s, i, cls) == e
    decreases e - i
  {
    if i < e {
      RunEndAt(s, i + 1, e, cls);
    }
  }

  /** With no closer in `[i, e)` and one at `e`, the first closer from `i` is at `e`. */
  lemma {:induction false} CloserFromAt(s: string, i: nat, e: nat)
    requires i <= e <= |s|
    requires forall k :: i <= k < e ==> !CloserAt(s, k)
    requires e == |s| || CloserAt(s, e)
    ensures CloserFrom(s, i) == e
    decreases e - i
  {
    if i < e {
      CloserFromAt(s, i + 1, e);
    }
  }

  // ---------------------------------------------------------------------
  // Numbers
  // ---------------------------------------------------------------------

  predicate DigitsOnly(w: string) {
    |w| > 0 && forall i :: 0 <= i < |w| ==> IsDigit(w[i])
  }

  /**
   * The shape of a Lox number: digits, or digits, one dot and digits (the
   * dot neither first nor last).
   */
  predicate NumberShape(w: string) {
    DigitsOnly(w)
    || exists k :: 0 < k < |w| - 1 && w[k] == '.' && forall i :: 0 <= i < |w| && i != k ==> IsDigit(w[i])
  }

  /**
   * A number literal: its characters, where its integer part ends, and
   * why it stops where it does.
   */
  lemma NumberEndFacts(src: string, pos: nat)
    requires pos < |src| && IsDigit(src[pos])
    ensures var d := RunEnd(src, pos + 1, Digits);
      var e := NumberEnd(src, pos);
      && (forall k :: pos <= k < d ==> IsDigit(src[k]))
      && (e == d ==> !FractionAt(src, d))
      && (e != d ==> d + 1 < e && src[d] == '.' && forall k :: d < k < e ==> IsDigit(src[k]))
      && !IsDigit(CharAt(src, e))
  {
    var d := RunEnd(src, pos + 1, Digits);
    RunEndInside(src, pos + 1, Digits);
    RunEndStops(src, pos + 1, Digits);
    if FractionAt(src, d) {
      RunEndInside(src, d + 1, Digits);
      RunEndStops(src, d + 1, Digits);
    }
  }

  /** A number literal holds no line break. */
  lemma NumberNoNewlines(src: string, pos: nat)
    requires pos < |src| && IsDigit(src[pos])
    ensures NewlinesIn(src, pos, NumberEnd(src, pos)) == 0
  {
    NumberEndFacts(src, pos);
    NewlinesNone(src, pos, NumberEnd(src, pos));
  }

  // ---------------------------------------------------------------------
  // Line counting
  // ---------------------------------------------------------------------

  lemma StringLiteralLine(src: string, pos: nat, line: int)
    requires pos < |src| && src[pos] == '"'
    ensures StringLiteral(src, pos, line).line == line + NewlinesIn(src, pos, StringLiteral(src, pos, line).next)
  {
    var q := RunEnd(src, pos + 1, StringText);
    StringLiteralEnd(src, pos, line);
    RunEndStops(src, pos + 1, StringText);
    StringNewlines(src, pos, q);
  }

  /** Where a string literal ends, and the line breaks it counts. */
  lemma StringLiteralEnd(src: string, pos: nat, line: int)
    requires pos < |src| && src[pos] == '"'
    ensures var q, r := RunEnd(src, pos + 1, StringText), StringLiteral(src, pos, line);
      && r.line == line + NewlinesIn(src, pos + 1, q)
      && r.next == if q == |src| then q else q + 1
  {
  }

  /** The quotes around a string's text hold no line break. */
  lemma StringNewlines(src: string, pos: nat, q: nat)
    requires pos < q <= |src| && src[pos] == '"' && (q < |src| ==> src[q] == '"')
    ensures NewlinesIn(src, pos, q) == NewlinesIn(src, pos + 1, q)
    ensures q < |src| ==> NewlinesIn(src, pos, q + 1) == NewlinesIn(src, pos + 1, q)
  {
    NewlinesNone(src, pos, pos + 1);
    NewlinesSplit(src, pos, pos + 1, q);
    if q < |src| {
      NewlinesNone(src, q, q + 1);
      NewlinesSplit(src, pos, q, q + 1);
    }
  }

  lemma BlockCommentLine(src: string, i: nat, line: int)
    requires i <= |src|
    ensures BlockComment(src, i, line).line == line + NewlinesIn(src, i, BlockComment(src, i, line).next)
  {
    var e := CloserFrom(src, i);
    CloserFromFirst(src, i);
    if e < |src| {
      NewlinesNone(src, e, e + 2);
      NewlinesSplit(src, i, e, e + 2);
    }
  }

  lemma LineCommentLine(src: string, pos: nat)
    requires pos + 1 < |src| && src[pos] == '/' && src[pos + 1] == '/'
    ensures NewlinesIn(src, pos, RunEnd(src, pos + 2, LineText)) == 0
  {
    RunNoNewlines(src, pos + 2, LineText);
    NewlinesNone(src, pos, pos + 2);
    NewlinesSplit(src, pos, pos + 2, RunEnd(src, pos + 2, LineText));
  }

  lemma SlashStepLine(src: string, pos: nat, line: int)
    requires pos < |src| && src[pos] == '/'
    ensures SlashStep(src, pos, line).line == line + NewlinesIn(src, pos, SlashStep(src, pos, line).next)
  {
    if CharAt(src, pos + 1) == '/' {
      LineCommentLine(src, pos);
    } else if CharAt(src, pos + 1) == '*' {
      BlockCommentLine(src, pos + 2, line);
      NewlinesNone(src, pos, pos + 2);
      NewlinesSplit(src, pos, pos + 2, BlockComment(src, pos + 2, line).next);
    } else {
      NewlinesNone(src, pos, pos + 1);
    }
  }

  lemma OtherStepLine(src: string, pos: nat, line: int)
    requires pos < |src| && src[pos] != '\n'
    ensures OtherStep(src, pos, line).line == line + NewlinesIn(src, pos, OtherStep(src, pos, line).next)
  {
    if IsDigit(src[pos]) {
      NumberNoNewlines(src, pos);
    } else if IsAlpha(src[pos]) {
      var e := RunEnd(src, pos + 1, WordChars);
      RunNoNewlines(src, pos + 1, WordChars);
      NewlinesNone(src, pos, pos + 1);
      NewlinesSplit(src, pos, pos + 1, e);
    } else {
      NewlinesNone(src, pos, pos + 1);
    }
  }

  /** A step advances the line counter by the line breaks it consumed. */
  lemma StepLine(src: string, pos: nat, line: int)
    requires pos < |src|
    ensures Step(src, pos, line).line == line + NewlinesIn(src, pos, Step(src, pos, line).next)
  {
    match src[pos]
    case '/' => SlashStepLine(src, pos, line);
    case '"' => StringLiteralLine(src, pos, line);
    case '\n' => assert NewlinesIn(src, pos, pos + 1) == 1;
    case '!' | '=' | '<' | '>' => NewlinesNone(src, pos, Step(src, pos, line).next);
    case '(' | ')' | '{' | '}' | ',' | '.' | '-' | '+' | ';' | '*' | ' ' | '\r' | '\t' =>
      NewlinesNone(src, pos, pos + 1);
    case _ => OtherStepLine(src, pos, line);
  }

  /** The final line is the starting line plus the line breaks of the rest of the input. */
  lemma {:induction false} ScanFromLine(src: string, pos: nat, line: int)
    requires pos <= |src|
    ensures ScanFrom(src, pos, line).line == line + NewlinesIn(src, pos, |src|)
    decreases |src| - pos
  {
    if pos < |src| {
      var o := Step(src, pos, line);
      StepLine(src, pos, line);
      ScanFromLine(src, o.next, o.line);
      NewlinesSplit(src, pos, o.next, |src|);
    }
  }

  // ---------------------------------------------------------------------
  // The reserved words
  // ---------------------------------------------------------------------

  /** A reserved word is shaped like an identifier. */
  predicate IdentifierShaped(w: string) {
    |w| > 0 && IsAlpha(w[0]) && forall i :: 0 <= i < |w| ==> IsAlphaNumeric(w[i])
  }

  /** The reserved word that scans to a kind, or "" for a kind no word scans to. */
  function KeywordText(kind: TokenType): string {
    match kind
    case AND => "and"
    case CLASS => "class"
    case ELSE => "else"
    case FALSE => "false"
    case FOR => "for"
    case FUN => "fun"
    case IF => "if"
    case NIL => "nil"
    case OR => "or"
    case PRINT => "print"
    case RETURN => "return"
    case SUPER => "super"
    case THIS => "this"
    case TRUE => "true"
    case VAR => "var"
    case WHILE => "while"
    case _ => ""
  }

  /** The sixteen kinds of the reserved words. */
  predicate Reserved(kind: TokenType) {
    kind in {AND, CLASS, ELSE, FALSE, FOR, FUN, IF, NIL, OR, PRINT, RETURN, SUPER, THIS, TRUE, VAR, WHILE}
  }

  /** Every reserved word is shaped like an identifier. */
  lemma KeywordsShaped()
    ensures forall w :: w in Keywords ==> IdentifierShaped(w)
  {
  }

  /** Each reserved word is the text of the kind it scans to. */
  lemma KeywordInverse()
    ensures forall w :: w in Keywords ==> KeywordText(Keywords[w]) == w
  {
  }

  /**
   * The table is a one-to-one correspondence between its words and the
   * sixteen reserved kinds: every reserved kind has a word, and no two
   * words share a kind.
   */
  lemma KeywordTable()
    ensures forall kind :: kind in Keywords.Values <==> Reserved(kind)
    ensures forall v, w :: v in Keywords && w in Keywords && Keywords[v] == Keywords[w] ==> v == w
  {
    KeywordKinds();
    KeywordInverse();
  }

  /** The kinds the table maps to are the sixteen reserved ones. */
  lemma KeywordKinds()
    ensures forall kind :: kind in Keywords.Values <==> Reserved(kind)
  {
    forall kind | Reserved(kind)
      ensures kind in Keywords.Values
    {
      KeywordOf(kind);
    }
    KeywordsReserved();
  }

  /** A reserved kind's text is the word the table maps to it. */
  lemma KeywordOf(kind: TokenType)
    requires Reserved(kind)
    ensures KeywordText(kind) in Keywords && Keywords[KeywordText(kind)] == kind
  {
  }

  /** Every kind the table maps to is reserved. */
  lemma KeywordsReserved()
    ensures forall kind :: kind in Keywords.Values ==> Reserved(kind)
  {
    forall kind | kind in Keywords.Values
      ensures Reserved(kind)
    {
      var w :| w in Keywords && Keywords[w] == kind;
    }
  }

  /** A word's kind is IDENTIFIER exactly when it is not reserved. */
  lemma WordKindReserved(w: string)
    ensures WordKind(w) == IDENTIFIER <==> w !in Keywords
    ensures w in Keywords ==> WordKind(w) == Keywords[w]
    ensures WordKind(w) != EOF
  {
    KeywordTable();
    if w in Keywords {
      assert Keywords[w] in Keywords.Values;
    }
  }

  // ---------------------------------------------------------------------
  // Where tokens come from
  // ---------------------------------------------------------------------

  /**
   * Every token is the text of its span, its line is the line counter at
   * its end, and the spans follow one another through the source.
   */
  ghost predicate Located(src: string, pos: nat, line: int, tokens: seq<Token>, spans: seq<Span>)
    requires pos <= |src|
  {
    && |spans| == |tokens|
    && (forall k :: 0 <= k < |tokens| ==>
          && pos <= spans[k].lo <= spans[k].hi <= |src|
          && tokens[k].lexeme == src[spans[k].lo..spans[k].hi]
          && tokens[k].line == line + NewlinesIn(src, pos, spans[k].hi))
    && (forall j, k :: 0 <= j < k < |spans| ==> spans[j].hi <= spans[k].lo)
  }

  /** No step produces an EOF token. */
  lemma StepNotEof(src: string, pos: nat, line: int)
    requires pos < |src|
    ensures Step(src, pos, line).token.Some? ==> Step(src, pos, line).token.value.kind != EOF
  {
    if IsAlpha(src[pos]) {
      WordKindReserved(src[pos..RunEnd(src, pos + 1, WordChars)]);
    }
  }

  /**
   * The tokens of the steps from `pos` are located in the source, none is
   * empty and none is EOF.
   */
  lemma {:induction false} ScanFromLocated(src: string, pos: nat, line: int)
    requires pos <= |src|
    ensures var r := ScanFrom(src, pos, line);
      && Located(src, pos, line, r.tokens, r.spans)
      && (forall k :: 0 <= k < |r.tokens| ==> r.spans[k].lo < r.spans[k].hi && r.tokens[k].kind != EOF)
    decreases |src| - pos
  {
    if pos < |src| {
      var o := Step(src, pos, line);
      ScanFromLocated(src, o.next, o.line);
      StepLine(src, pos, line);
      StepNotEof(src, pos, line);
      LocatedCons(src, pos, line, o, ScanFrom(src, o.next, o.line));
    }
  }

  /**
   * One step in front of located tokens: when the step's token is the text
   * it consumed, on the line it ends on, the tokens stay located.
   */
  lemma LocatedCons(src: string, pos: nat, line: int, o: Outcome, rest: Lexed)
    requires pos < o.next <= |src| && o.line == line + NewlinesIn(src, pos, o.next)
    requires o.token.Some? ==> o.token.value.lexeme == src[pos..o.next] && o.token.value.line == o.line
    requires o.token.Some? ==> o.token.value.kind != EOF
    requires Located(src, o.next, o.line, rest.tokens, rest.spans)
    requires forall k :: 0 <= k < |rest.tokens| ==> rest.spans[k].lo < rest.spans[k].hi && rest.tokens[k].kind != EOF
    ensures var ts, ss := OptionToSeq(o.token) + rest.tokens, (if o.token.Some? then [Span(pos, o.next)] else []) + rest.spans;
      && Located(src, pos, line, ts, ss)
      && (forall k :: 0 <= k < |ts| ==> ss[k].lo < ss[k].hi && ts[k].kind != EOF)
  {
    forall k | 0 <= k < |rest.tokens|
      ensures rest.tokens[k].line == line + NewlinesIn(src, pos, rest.spans[k].hi)
    {
      NewlinesSplit(src, pos, o.next, rest.spans[k].hi);
    }
  }

  /**
   * The scan of a whole input: every token is the text of its span, on the
   * line its end is on; the last token is the only EOF, with an empty
   * lexeme and no literal, on the last line of the input.
   */
  lemma ScanShape(src: string)
    ensures var r := Scan(src);
      && Located(src, 0, 1, r.tokens, r.spans)
      && |r.tokens| >= 1
      && r.tokens[|r.tokens| - 1] == EofToken(1 + NewlinesIn(src, 0, |src|))
      && (forall k :: 0 <= k < |r.tokens| - 1 ==> r.tokens[k].kind != EOF && |r.tokens[k].lexeme| > 0)
  {
    var body := ScanFrom(src, 0, 1);
    ScanFromLocated(src, 0, 1);
    ScanFromLine(src, 0, 1);
    LocatedSnoc(src, 0, 1, body.tokens, body.spans, EofToken(body.line), Span(|src|, |src|));
  }

  /** A token after all the others, cut from its own span, keeps the tokens located. */
  lemma LocatedSnoc(src: string, pos: nat, line: int, tokens: seq<Token>, spans: seq<Span>, t: Token, sp: Span)
    requires pos <= sp.lo <= sp.hi <= |src|
    requires Located(src, pos, line, tokens, spans)
    requires forall k :: 0 <= k < |spans| ==> spans[k].hi <= sp.lo
    requires t.lexeme == src[sp.lo..sp.hi] && t.line == line + NewlinesIn(src, pos, sp.hi)
    ensures Located(src, pos, line, tokens + [t], spans + [sp])
  {
    var ts, ss := tokens + [t], spans + [sp];
    assert forall k :: 0 <= k < |tokens| ==> ts[k] == tokens[k] && ss[k] == spans[k];
  }

  /** Token lines never decrease through the token list. */
  lemma TokenLinesOrdered(src: string)
    ensures var ts := Scan(src).tokens;
      forall j, k :: 0 <= j < k < |ts| ==> ts[j].line <= ts[k].line
  {
    var r := Scan(src);
    ScanShape(src);
    forall j, k | 0 <= j < k < |r.tokens|
      ensures r.tokens[j].line <= r.tokens[k].line
    {
      NewlinesSplit(src, 0, r.spans[j].hi, r.spans[k].hi);
    }
  }

  // ---------------------------------------------------------------------
  // The lexical rules, one step at a time
  // ---------------------------------------------------------------------

  /** The one-character tokens. */
  const Punctuation: map<char, TokenType> := map[
    '(' := LEFT_PAREN, ')' := RIGHT_PAREN, '{' := LEFT_BRACE, '}' := RIGHT_BRACE,
    ',' := COMMA, '.' := DOT, '-' := MINUS, '+' := PLUS, ';' := SEMICOLON, '*' := STAR
  ]

  /** The operators that may be followed by `=`: the kind alone, and with `=`. */
  const Operators: map<char, (TokenType, TokenType)> := map[
    '!' := (BANG, BANG_EQUAL), '=' := (EQUAL, EQUAL_EQUAL),
    '<' := (LESS, LESS_EQUAL), '>' := (GREATER, GREATER_EQUAL)
  ]

  /** The characters that start a token, a comment or a blank. */
  predicate StartsSomething(c: char) {
    c in Punctuation || c in Operators || c == '/' || c == ' ' || c == '\r' || c == '\t'
    || c == '\n' || c == '"' || IsDigit(c) || IsAlpha(c)
  }

  /** A punctuation character is a token by itself. */
  lemma PunctuationRule(src: string, pos: nat, line: int)
    requires pos < |src| && src[pos] in Punctuation
    ensures Step(src, pos, line) == Outcome(pos + 1, line, Some(Token(Punctuation[src[pos]], [src[pos]], NoLit, line)), None)
  {
    assert src[pos..pos + 1] == [src[pos]];
  }

  /** Maximal munch: an operator takes a following `=` exactly when there is one. */
  lemma OperatorRule(src: string, pos: nat, line: int)
    requires pos < |src| && src[pos] in Operators
    ensures var o := Step(src, pos, line);
      var (one, two) := Operators[src[pos]];
      var eq := pos + 1 < |src| && src[pos + 1] == '=';
      && o.line == line && o.error.None? && o.token.Some?
      && o.next == (if eq then pos + 2 else pos + 1)
      && o.token.value == Token(if eq then two else one, src[pos..o.next], NoLit, line)
  {
  }

  /** Blanks are skipped; a line break also moves to the next line. */
  lemma BlankRule(src: string, pos: nat, line: int)
    requires pos < |src| && src[pos] in " \r\t\n"
    ensures Step(src, pos, line) == Skip(pos + 1, if src[pos] == '\n' then line + 1 else line)
  {
  }

  /** A line comment runs up to, not including, the next line break or the end of input. */
  lemma LineCommentRule(src: string, pos: nat, line: int)
    requires pos + 1 < |src| && src[pos] == '/' && src[pos + 1] == '/'
    ensures var o := Step(src, pos, line);
      && o.token.None? && o.error.None? && o.line == line
      && pos + 2 <= o.next && (o.next == |src| || src[o.next] == '\n')
      && forall k :: pos <= k < o.next ==> src[k] != '\n'
  {
    RunEndInside(src, pos + 2, LineText);
    RunEndStops(src, pos + 2, LineText);
  }

  /**
   * A block comment runs through the first closer after its opener; with
   * none, it runs to the end of input and is reported once, on the line
   * the input ends on.
   */
  lemma BlockCommentRule(src: string, pos: nat, line: int)
    requires pos + 1 < |src| && src[pos] == '/' && src[pos + 1] == '*'
    ensures var o := Step(src, pos, line);
      && o.token.None?
      && o.line == line + NewlinesIn(src, pos, o.next)
      && (o.error.None? <==> exists k :: pos + 2 <= k && CloserAt(src, k))
      && (o.error.None? ==> pos + 4 <= o.next && CloserAt(src, o.next - 2)
                            && forall k :: pos + 2 <= k < o.next - 2 ==> !CloserAt(src, k))
      && (o.error.Some? ==> o.next == |src| && o.error.value == LexError(o.line, UnterminatedComment))
  {
    CloserFromFirst(src, pos + 2);
    StepLine(src, pos, line);
  }

  /**
   * A string literal runs through the next double quote; its literal is the
   * text between the quotes.  With no closing quote it runs to the end of
   * input and is reported once, on the line the input ends on.
   */
  lemma StringRule(src: string, pos: nat, line: int)
    requires pos < |src| && src[pos] == '"'
    ensures var o := Step(src, pos, line);
      && o.line == line + NewlinesIn(src, pos, o.next)
      && (o.token.Some? <==> exists q :: pos < q < |src| && src[q] == '"')
      && (o.token.Some? ==>
            && pos + 2 <= o.next && src[o.next - 1] == '"' && o.error.None?
            && o.token.value == Token(STRING, src[pos..o.next], StrLit(src[pos + 1..o.next - 1]), o.line)
            && forall k :: pos < k < o.next - 1 ==> src[k] != '"')
      && (o.token.None? ==> o.next == |src| && o.error == Some(LexError(o.line, UnterminatedString)))
  {
    RunEndInside(src, pos + 1, StringText);
    RunEndStops(src, pos + 1, StringText);
    StepLine(src, pos, line);
  }

  /** A string literal closed at `q` ends just after `q`, its literal the text in between. */
  lemma StringClosedAt(src: string, pos: nat, q: nat, line: int)
    requires pos < q < |src| && src[pos] == '"' && src[q] == '"'
    requires forall k :: pos < k < q ==> src[k] != '"'
    ensures var l := line + NewlinesIn(src, pos + 1, q);
      Step(src, pos, line) == Outcome(q + 1, l, Some(Token(STRING, src[pos..q + 1], StrLit(src[pos + 1..q]), l)), None)
  {
    assert Step(src, pos, line) == StringLiteral(src, pos, line);
    RunEndAt(src, pos + 1, q, StringText);
  }

  /** A string literal never closed runs to the end of input and is reported there. */
  lemma StringUnclosed(src: string, pos: nat, line: int)
    requires pos < |src| && src[pos] == '"'
    requires forall k :: pos < k < |src| ==> src[k] != '"'
    ensures var l := line + NewlinesIn(src, pos + 1, |src|);
      Step(src, pos, line) == Outcome(|src|, l, None, Some(LexError(l, UnterminatedString)))
  {
    RunEndAt(src, pos + 1, |src|, StringText);
  }

  /**
   * A number literal is digits, optionally a dot and more digits, and goes
   * as far as it can: no digit follows it, nor a dot and a digit unless it
   * already has its fraction.
   */
  lemma NumberRule(src: string, pos: nat, line: int)
    requires pos < |src| && IsDigit(src[pos])
    ensures var o := Step(src, pos, line);
      var w := src[pos..o.next];
      && o.line == line && o.error.None?
      && o.token == Some(Token(NUMBER, w, NumLit(w), line))
      && NumberShape(w)
      && !IsDigit(CharAt(src, o.next))
      && (DigitsOnly(w) ==> !FractionAt(src, o.next))
  {
    var d := RunEnd(src, pos + 1, Digits);
    var e := NumberEnd(src, pos);
    NumberEndFacts(src, pos);
    var w := src[pos..e];
    assert forall i :: 0 <= i < |w| ==> w[i] == src[pos + i];
    if e != d {
      assert w[d - pos] == '.';
    }
  }

  /**
   * Conversely, a number-shaped lexeme that no digit, and no fraction it
   * lacks, could extend is exactly where the number literal ends.
   */
  lemma NumberEndAt(src: string, pos: nat, e: nat)
    requires pos < e <= |src| && NumberShape(src[pos..e])
    requires !IsDigit(CharAt(src, e)) && (DigitsOnly(src[pos..e]) ==> !FractionAt(src, e))
    ensures NumberEnd(src, pos) == e
  {
    var w := src[pos..e];
    assert forall i :: 0 <= i < |w| ==> w[i] == src[pos + i];
    if DigitsOnly(w) {
      RunEndAt(src, pos + 1, e, Digits);
    } else {
      var k :| 0 < k < |w| - 1 && w[k] == '.' && forall i :: 0 <= i < |w| && i != k ==> IsDigit(w[i]);
      NumberEndFraction(src, pos, pos + k, e);
    }
  }

  lemma NumberEndFraction(src: string, pos: nat, d: nat, e: nat)
    requires pos < d && d + 1 < e <= |src| && src[d] == '.'
    requires forall i :: pos <= i < e && i != d ==> IsDigit(src[i])
    requires !IsDigit(CharAt(src, e))
    ensures NumberEnd(src, pos) == e
  {
    RunEndAt(src, pos + 1, d, Digits);
    assert FractionAt(src, d);
    RunEndAt(src, d + 1, e, Digits);
  }

  /**
   * A word is a letter followed by letters and digits, as many as there
   * are; it is a reserved word's token when it is one, else an identifier.
   */
  lemma WordRule(src: string, pos: nat, line: int)
    requires pos < |src| && IsAlpha(src[pos])
    ensures var o := Step(src, pos, line);
      var w := src[pos..o.next];
      && o.line == line && o.error.None? && o.token.Some?
      && o.token.value == Token(o.token.value.kind, w, NoLit, line)
      && IdentifierShaped(w) && !IsAlphaNumeric(CharAt(src, o.next))
      && (o.token.value.kind == IDENTIFIER <==> w !in Keywords)
      && (w in Keywords ==> o.token.value.kind == Keywords[w])
  {
    assert Step(src, pos, line) == IdentifierWord(src, pos, line);
    IdentifierWordRule(src, pos, line);
  }

  /** The word rule, for the identifier rule on its own. */
  lemma IdentifierWordRule(src: string, pos: nat, line: int)
    requires pos < |src| && IsAlpha(src[pos])
    ensures var o := IdentifierWord(src, pos, line);
      var w := src[pos..o.next];
      && o.line == line && o.error.None? && o.token.Some?
      && o.token.value == Token(o.token.value.kind, w, NoLit, line)
      && IdentifierShaped(w) && !IsAlphaNumeric(CharAt(src, o.next))
      && (o.token.value.kind == IDENTIFIER <==> w !in Keywords)
      && (w in Keywords ==> o.token.value.kind == Keywords[w])
  {
    var e := RunEnd(src, pos + 1, WordChars);
    RunEndInside(src, pos + 1, WordChars);
    RunEndStops(src, pos + 1, WordChars);
    WordKindReserved(src[pos..e]);
  }

  /**
   * A character that starts nothing is reported, on the current line, and
   * skipped; no other character draws that report.
   */
  lemma UnexpectedRule(src: string, pos: nat, line: int)
    requires pos < |src|
    ensures var o := Step(src, pos, line);
      o.error == Some(LexError(line, UnexpectedCharacter)) <==> !StartsSomething(src[pos])
    ensures !StartsSomething(src[pos]) ==>
      Step(src, pos, line) == Outcome(pos + 1, line, None, Some(LexError(line, UnexpectedCharacter)))
  {
    assert UnexpectedCharacter != UnterminatedString && UnexpectedCharacter != UnterminatedComment;
  }

  /** A step produces a token or an error report, never both. */
  lemma StepExclusive(src: string, pos: nat, line: int)
    requires pos < |src|
    ensures Step(src, pos, line).token.None? || Step(src, pos, line).error.None?
  {
  }

  // ---------------------------------------------------------------------
  // A scan as a chain of steps
  // ---------------------------------------------------------------------

  /** Where the `i`-th of the outcomes `os` starts, the first one starting at `pos`. */
  function StartOf(os: seq<Outcome>, pos: nat, i: nat): nat
    requires i <= |os|
  {
    if i == 0 then pos else os[i - 1].next
  }

  /** The line the `i`-th of the outcomes `os` starts on, the first one starting on `line`. */
  function LineOf(os: seq<Outcome>, line: int, i: nat): int
    requires i <= |os|
  {
    if i == 0 then line else os[i - 1].line
  }

  /** The `i`-th outcome is what the scanner's step does where that outcome starts. */
  predicate StepOK(src: string, os: seq<Outcome>, pos: nat, line: int, i: nat)
    requires i < |os|
  {
    StartOf(os, pos, i) < |src| && Step(src, StartOf(os, pos, i), LineOf(os, line, i)) == os[i]
  }

  /** `os` are the outcomes of the successive steps from `pos` and `line` to the end of `src`. */
  predicate Chain(src: string, pos: nat, line: int, os: seq<Outcome>) {
    pos <= |src| && StartOf(os, pos, |os|) == |src|
    && forall i :: 0 <= i < |os| ==> StepOK(src, os, pos, line, i)
  }

  /** A chain without its first step is the chain from where that step ends. */
  lemma ChainTail(src: string, pos: nat, line: int, os: seq<Outcome>)
    requires Chain(src, pos, line, os) && os != []
    ensures pos < |src| && Step(src, pos, line) == os[0]
    ensures Chain(src, os[0].next, os[0].line, os[1..])
  {
    assert StepOK(src, os, pos, line, 0);
    var tail := os[1..];
    assert StartOf(tail, os[0].next, |tail|) == StartOf(os, pos, |os|);
    forall i | 0 <= i < |tail|
      ensures StepOK(src, tail, os[0].next, os[0].line, i)
    {
      assert StepOK(src, os, pos, line, i + 1);
      assert StartOf(tail, os[0].next, i) == StartOf(os, pos, i + 1);
      assert LineOf(tail, os[0].line, i) == LineOf(os, line, i + 1);
    }
  }

  /** The tokens the outcomes carry, in order. */
  function TokensIn(os: seq<Outcome>): seq<Token> {
    if os == [] then [] else OptionToSeq(os[0].token) + TokensIn(os[1..])
  }

  /** The error reports the outcomes carry, in order. */
  function ErrorsIn(os: seq<Outcome>): seq<LexError> {
    if os == [] then [] else OptionToSeq(os[0].error) + ErrorsIn(os[1..])
  }

  /** A scan is the concatenation of what its steps produce. */
  lemma {:induction false} ScanChain(src: string, pos: nat, line: int, os: seq<Outcome>)
    requires Chain(src, pos, line, os)
    ensures ScanFrom(src, pos, line).tokens == TokensIn(os)
    ensures ScanFrom(src, pos, line).errors == ErrorsIn(os)
    decreases |os|
  {
    if os != [] {
      var o := os[0];
      ChainTail(src, pos, line, os);
      ScanFromOutcome(src, pos, line, o);
      ScanChain(src, o.next, o.line, os[1..]);
    }
  }
}
