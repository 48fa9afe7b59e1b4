/**
 * The lexical rules of Lox, stated as pure functions over the source text:
 * the character classes, the keyword table, the maximal runs the scanner
 * consumes, one scanning step from a position, and the scan of a whole
 * input.  The class Scanning.Scanner is proved to compute exactly these.
 */
module Lexical {
  import opened Tokens

  // The character classes of the scanner, listed out one by one.
  const DecimalDigits: set<char> := {'0', '1', '2', '3', '4', '5', '6', '7', '8', '9'}
  const LowerLetters: set<char> := {
    'a', 'b', 'c', 'd', 'e', 'f', 'g', 'h', 'i', 'j', 'k', 'l', 'm',
    'n', 'o', 'p', 'q', 'r', 's', 't', 'u', 'v', 'w', 'x', 'y', 'z'}
  const UpperLetters: set<char> := {
    'A', 'B', 'C', 'D', 'E', 'F', 'G', 'H', 'I', 'J', 'K', 'L', 'M',
    'N', 'O', 'P', 'Q', 'R', 'S', 'T', 'U', 'V', 'W', 'X', 'Y', 'Z'}

  /** A decimal digit; never the NUL that lookahead reads past the end. */
  function IsDigit(c: char): (b: bool)
    ensures b ==> c != '\0'
  {
    '0' <= c <= '9'
  }

  /** An ASCII letter or `_`; never NUL. */
  function IsAlpha(c: char): (b: bool)
    ensures b ==> c != '\0'
  {
    ('a' <= c <= 'z') || ('A' <= c <= 'Z') || c == '_'
  }

  /** A character that may continue an identifier. */
  function IsAlphaNumeric(c: char): (b: bool)
    ensures b ==> c != '\0'
  {
    IsAlpha(c) || IsDigit(c)
  }

  /** The three classes are exactly the characters listed out above. */
  lemma CharClassesListed(c: char)
    ensures IsDigit(c) <==> c in DecimalDigits
    ensures IsAlpha(c) <==> c in LowerLetters || c in UpperLetters || c == '_'
    ensures IsAlphaNumeric(c) <==> c in LowerLetters || c in UpperLetters || c == '_' || c in DecimalDigits
  {
  }

  /** The classes of characters the scanner consumes in runs. */
  datatype CharClass =
    | Digits      // the digits of a number
    | WordChars   // the letters, digits and underscores of an identifier
    | LineText    // anything but a line break: the body of a line comment
    | StringText  // anything but a double quote: the body of a string

  predicate InClass(c: char, cls: CharClass) {
    match cls
    case Digits => IsDigit(c)
    case WordChars => IsAlphaNumeric(c)
    case LineText => c != '\n'
    case StringText => c != '"'
  }

  /** The reserved words and the kinds they scan to. */
  const Keywords: map<string, TokenType> := map[
    "and"    := AND,
    "class"  := CLASS,
    "else"   := ELSE,
    "false"  := FALSE,
    "for"    := FOR,
    "fun"    := FUN,
    "if"     := IF,
    "nil"    := NIL,
    "or"     := OR,
    "print"  := PRINT,
    "return" := RETURN,
    "super"  := SUPER,
    "this"   := THIS,
    "true"   := TRUE,
    "var"    := VAR,
    "while"  := WHILE
  ]

  /** The kind of an identifier-shaped lexeme: its reserved kind, if any. */
  function WordKind(word: string): (k: TokenType)
    ensures k == IDENTIFIER || word in Keywords
  {
    if word in Keywords then Keywords[word] else IDENTIFIER
  }

  /** One character of lookahead: NUL stands for "past the end". */
  function CharAt(s: string, i: nat): (c: char)
    ensures i < |s| ==> c == s[i]
    ensures i >= |s| ==> c == '\0'
  {
    if i < |s| then s[i] else '\0'
  }

  /** The number of line breaks in `s[i..j]`. */
  function NewlinesIn(s: string, i: nat, j: nat): nat
    requires i <= j <= |s|
    decreases j - i
  {
    if i == j then 0 else NewlinesIn(s, i, j - 1) + (if s[j - 1] == '\n' then 1 else 0)
  }

  /** The end of the longest run of characters of class `cls` that starts at `i`. */
  function RunEnd(s: string, i: nat, cls: CharClass): (j: nat)
    requires i <= |s|
    ensures i <= j <= |s|
    decreases |s| - i
  {
    if i < |s| && InClass(s[i], cls) then RunEnd(s, i + 1, cls) else i
  }

  /** All of the run from `i` is in the class. */
  lemma {:induction false} RunEndInside(s: string, i: nat, cls: CharClass)
    requires i <= |s|
    ensures forall k :: i <= k < RunEnd(s, i, cls) ==> InClass(s[k], cls)
    decreases |s| - i
  {
    if i < |s| && InClass(s[i], cls) {
      RunEndInside(s, i + 1, cls);
    }
  }

  /** The run stops at the end of input or before a character outside the class. */
  lemma {:induction false} RunEndStops(s: string, i: nat, cls: CharClass)
    requires i <= |s|
    ensures RunEnd(s, i, cls) == |s| || !InClass(s[RunEnd(s, i, cls)], cls)
    decreases |s| - i
  {
    if i < |s| && InClass(s[i], cls) {
      RunEndStops(s, i + 1, cls);
    }
  }

  /** A run that goes on past `i` ends where the run from `i + 1` ends. */
  lemma RunEndStep(s: string, i: nat, cls: CharClass)
    requires i < |s| && InClass(s[i], cls)
    ensures RunEnd(s, i, cls) == RunEnd(s, i + 1, cls)
  {
  }

  /** A run ends at once before a character outside its class. */
  lemma RunEndStop(s: string, i: nat, cls: CharClass)
    requires i <= |s| && (i == |s| || !InClass(s[i], cls))
    ensures RunEnd(s, i, cls) == i
  {
  }

  /** A block comment's closing `*` `/` starts at `k`. */
  predicate CloserAt(s: string, k: nat) {
    k + 1 < |s| && s[k] == '*' && s[k + 1] == '/'
  }

  /** The first closer at or after `i`, or `|s|` when there is none. */
  function CloserFrom(s: string, i: nat): (j: nat)
    requires i <= |s|
    ensures i <= j <= |s|
    decreases |s| - i
  {
    if i == |s| || CloserAt(s, i) then i else CloserFrom(s, i + 1)
  }

  /** `CloserFrom` finds the first closer, or reaches the end when there is none. */
  lemma {:induction false} CloserFromFirst(s: string, i: nat)
    requires i <= |s|
    ensures CloserFrom(s, i) == |s| || CloserAt(s, CloserFrom(s, i))
    ensures forall k :: i <= k < CloserFrom(s, i) ==> !CloserAt(s, k)
    decreases |s| - i
  {
    if i < |s| && !CloserAt(s, i) {
      CloserFromFirst(s, i + 1);
    }
  }

  /** With no closer at `i`, the first closer from `i` is the first from `i + 1`. */
  lemma CloserFromStep(s: string, i: nat)
    requires i < |s| && !CloserAt(s, i)
    ensures CloserFrom(s, i) == CloserFrom(s, i + 1)
  {
  }

  /** The first closer from a closer is that closer, and from the end, the end. */
  lemma CloserFromStop(s: string, i: nat)
    requires i <= |s| && (i == |s| || CloserAt(s, i))
    ensures CloserFrom(s, i) == i
  {
  }

  /**
   * The effect of one scanning step: where the cursor ends, the line
   * counter afterwards, and the token and error report it produced.
   */
  datatype Outcome = Outcome(next: nat, line: int, token: Option<Token>, error: Option<LexError>)

  function Emit(src: string, lo: nat, hi: nat, line: int, kind: TokenType, literal: Literal): Outcome
    requires lo <= hi <= |src|
  {
    Outcome(hi, line, Some(Token(kind, src[lo..hi], literal, line)), None)
  }

  function Skip(next: nat, line: int): Outcome {
    Outcome(next, line, None, None)
  }

  /** A string literal whose opening quote is at `pos`. */
  function StringLiteral(src: string, pos: nat, line: int): (r: Outcome)
    requires pos < |src| && src[pos] == '"'
    ensures pos < r.next <= |src| && r.line >= line
    ensures r.token.Some? ==> r.token.value.lexeme == src[pos..r.next] && r.token.value.line == r.line
  {
    var q := RunEnd(src, pos + 1, StringText);
    var l := line + NewlinesIn(src, pos + 1, q);
    if q == |src| then
      Outcome(q, l, None, Some(LexError(l, UnterminatedString)))
    else
      Outcome(q + 1, l, Some(Token(STRING, src[pos..q + 1], StrLit(src[pos + 1..q]), l)), None)
  }

  /** The rest of a block comment whose text starts at `i`, just after its opener. */
  function BlockComment(src: string, i: nat, line: int): (r: Outcome)
    requires i <= |src|
    ensures i <= r.next <= |src| && r.line >= line && r.token.None?
  {
    var e := CloserFrom(src, i);
    CloserFromFirst(src, i);
    var l := line + NewlinesIn(src, i, e);
    if e == |src| then
      Outcome(e, l, None, Some(LexError(l, UnterminatedComment)))
    else
      Skip(e + 2, l)
  }

  /** A `.` followed by a digit at `d`: the fractional part of a number. */
  function FractionAt(src: string, d: nat): (b: bool)
    ensures b ==> d + 1 < |src| && src[d] == '.'
  {
    CharAt(src, d) == '.' && IsDigit(CharAt(src, d + 1))
  }

  /** Where a number literal starting at `pos` ends. */
  function NumberEnd(src: string, pos: nat): (e: nat)
    requires pos < |src|
    ensures pos < e <= |src|
  {
    var d := RunEnd(src, pos + 1, Digits);
    if FractionAt(src, d) then RunEnd(src, d + 1, Digits) else d
  }

  /** A number literal whose first digit is at `pos`. */
  function NumberLiteral(src: string, pos: nat, line: int): (r: Outcome)
    requires pos < |src| && IsDigit(src[pos])
    ensures pos < r.next <= |src| && r.line == line
    ensures r.token.Some? && r.token.value.lexeme == src[pos..r.next] && r.token.value.line == line
  {
    var e := NumberEnd(src, pos);
    Emit(src, pos, e, line, NUMBER, NumLit(src[pos..e]))
  }

  /** An identifier or reserved word whose first letter is at `pos`. */
  function IdentifierWord(src: string, pos: nat, line: int): (r: Outcome)
    requires pos < |src| && IsAlpha(src[pos])
    ensures pos < r.next <= |src| && r.line == line
    ensures r.token.Some? && r.token.value.lexeme == src[pos..r.next] && r.token.value.line == line
  {
    var e := RunEnd(src, pos + 1, WordChars);
    Emit(src, pos, e, line, WordKind(src[pos..e]), NoLit)
  }

  function OneOrTwo(src: string, pos: nat, line: int, one: TokenType, two: TokenType): (r: Outcome)
    requires pos < |src|
    ensures pos < r.next <= |src| && r.line == line && r.token.Some?
    ensures r.token.value.lexeme == src[pos..r.next] && r.token.value.line == r.line
  {
    if CharAt(src, pos + 1) == '=' then Emit(src, pos, pos + 2, line, two, NoLit)
    else Emit(src, pos, pos + 1, line, one, NoLit)
  }

  function SlashStep(src: string, pos: nat, line: int): (r: Outcome)
    requires pos < |src|
    ensures pos < r.next <= |src| && r.line >= line
    ensures r.token.Some? ==> r.token.value.lexeme == src[pos..r.next] && r.token.value.line == r.line
  {
    if CharAt(src, pos + 1) == '/' then Skip(RunEnd(src, pos + 2, LineText), line)
    else if CharAt(src, pos + 1) == '*' then BlockComment(src, pos + 2, line)
    else Emit(src, pos, pos + 1, line, SLASH, NoLit)
  }

  function OtherStep(src: string, pos: nat, line: int): (r: Outcome)
    requires pos < |src|
    ensures pos < r.next <= |src| && r.line == line
    ensures r.token.Some? ==> r.token.value.lexeme == src[pos..r.next] && r.token.value.line == r.line
  {
    if IsDigit(src[pos]) then NumberLiteral(src, pos, line)
    else if IsAlpha(src[pos]) then IdentifierWord(src, pos, line)
    else Outcome(pos + 1, line, None, Some(LexError(line, UnexpectedCharacter)))
  }

  /**
   * One step of the scan from `pos`: the character there selects the rule,
   * and the step consumes at least that character.
   */
  function Step(src: string, pos: nat, line: int): (r: Outcome)
    requires pos < |src|
    ensures pos < r.next <= |src| && r.line >= line
    ensures r.token.Some? ==> r.token.value.lexeme == src[pos..r.next] && r.token.value.line == r.line
  {
    var c := src[pos];
    var p := pos + 1;
    match c
    case '(' => Emit(src, pos, p, line, LEFT_PAREN, NoLit)
    case ')' => Emit(src, pos, p, line, RIGHT_PAREN, NoLit)
    case '{' => Emit(src, pos, p, line, LEFT_BRACE, NoLit)
    case '}' => Emit(src, pos, p, line, RIGHT_BRACE, NoLit)
    case ',' => Emit(src, pos, p, line, COMMA, NoLit)
    case '.' => Emit(src, pos, p, line, DOT, NoLit)
    case '-' => Emit(src, pos, p, line, MINUS, NoLit)
    case '+' => Emit(src, pos, p, line, PLUS, NoLit)
    case ';' => Emit(src, pos, p, line, SEMICOLON, NoLit)
    case '*' => Emit(src, pos, p, line, STAR, NoLit)
    case '!' => OneOrTwo(src, pos, line, BANG, BANG_EQUAL)
    case '=' => OneOrTwo(src, pos, line, EQUAL, EQUAL_EQUAL)
    case '<' => OneOrTwo(src, pos, line, LESS, LESS_EQUAL)
    case '>' => OneOrTwo(src, pos, line, GREATER, GREATER_EQUAL)
    case '/' => SlashStep(src, pos, line)
    case ' ' | '\r' | '\t' => Skip(p, line)
    case '\n' => Skip(p, line + 1)
    case '"' => StringLiteral(src, pos, line)
    case _ => OtherStep(src, pos, line)
  }

  /** Where a token's lexeme lies in the source: `src[lo..hi]`. */
  datatype Span = Span(lo: nat, hi: nat)

  /** The result of scanning: tokens with their spans, error reports, final line. */
  datatype Lexed = Lexed(tokens: seq<Token>, spans: seq<Span>, errors: seq<LexError>, line: int)

  /** The tokens and reports of the steps from `pos` to the end of input. */
  function ScanFrom(src: string, pos: nat, line: int): (r: Lexed)
    requires pos <= |src|
    ensures |r.spans| == |r.tokens|
    ensures r.line >= line
    decreases |src| - pos
  {
    if pos == |src| then Lexed([], [], [], line)
    else
      var o := Step(src, pos, line);
      var rest := ScanFrom(src, o.next, o.line);
      var span := if o.token.Some? then [Span(pos, o.next)] else [];
      Lexed(OptionToSeq(o.token) + rest.tokens, span + rest.spans,
            OptionToSeq(o.error) + rest.errors, rest.line)
  }

  /** `ScanFrom` after one step, with what came before prepended. */
  lemma ScanFromAfterStep(src: string, pos: nat, line: int, tokens: seq<Token>, errors: seq<LexError>)
    requires pos < |src|
    ensures var o := Step(src, pos, line);
      var rest := ScanFrom(src, o.next, o.line);
      && tokens + ScanFrom(src, pos, line).tokens == (tokens + OptionToSeq(o.token)) + rest.tokens
      && errors + ScanFrom(src, pos, line).errors == (errors + OptionToSeq(o.error)) + rest.errors
      && ScanFrom(src, pos, line).line == rest.line
  {
    var o := Step(src, pos, line);
    var rest := ScanFrom(src, o.next, o.line);
    var span := if o.token.Some? then [Span(pos, o.next)] else [];
    assert ScanFrom(src, pos, line)
        == Lexed(OptionToSeq(o.token) + rest.tokens, span + rest.spans, OptionToSeq(o.error) + rest.errors, rest.line);
    assert tokens + (OptionToSeq(o.token) + rest.tokens) == (tokens + OptionToSeq(o.token)) + rest.tokens;
    assert errors + (OptionToSeq(o.error) + rest.errors) == (errors + OptionToSeq(o.error)) + rest.errors;
  }

  /** Scanning from a position whose step is known. */
  lemma ScanFromOutcome(src: string, pos: nat, line: int, o: Outcome)
    requires pos < |src| && Step(src, pos, line) == o
    ensures var rest := ScanFrom(src, o.next, o.line);
      && ScanFrom(src, pos, line).tokens == OptionToSeq(o.token) + rest.tokens
      && ScanFrom(src, pos, line).errors == OptionToSeq(o.error) + rest.errors
      && ScanFrom(src, pos, line).line == rest.line
  {
  }

  /** The scan of a whole input, starting on line 1 and closed by EOF. */
  function Scan(src: string): (r: Lexed)
    ensures |r.tokens| == |r.spans| >= 1 && r.line >= 1
    ensures r.tokens[|r.tokens| - 1] == EofToken(r.line) && r.spans[|r.spans| - 1] == Span(|src|, |src|)
  {
    var body := ScanFrom(src, 0, 1);
    Lexed(body.tokens + [EofToken(body.line)], body.spans + [Span(|src|, |src|)],
          body.errors, body.line)
  }
}
