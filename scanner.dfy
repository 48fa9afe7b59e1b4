/**
 * The Lox scanner as the object it is: the source text, the two cursors
 * `start` and `current`, the line counter, and the token list it appends
 * to.  The error reporter it calls is modelled as the sequence `errors`
 * of the (line, message) pairs it was handed.  Every method is proved to
 * do what the corresponding function of module Lexical says.
 */
module Scanning {
  import opened Tokens
  import opened Lexical

  class Scanner {
    const source: string
    var tokens: seq<Token>
    var errors: seq<LexError>
    var start: nat
    var current: nat
    var line: int

    /** The cursors stay inside the source and lines are counted from 1. */
    ghost predicate Valid()
      reads this
    {
      start <= current <= |source| && line >= 1
    }

    constructor (source: string)
      ensures Valid()
      ensures this.source == source && tokens == [] && errors == []
      ensures start == 0 && current == 0 && line == 1
    {
      this.source := source;
      tokens := [];
      errors := [];
      start := 0;
      current := 0;
      line := 1;
    }

    /**
     * Scans from the cursor to the end of input and closes the token list
     * with one EOF token; every step consumes at least one character.
     * `start` is left where the last step began; beyond `Valid()` its final
     * value is not specified, since nothing reads it after the scan.
     */
    method ScanTokens() returns (result: seq<Token>)
      requires Valid()
      modifies this
      ensures Valid()
      ensures var rest := ScanFrom(source, old(current), old(line));
        && current == |source| && line == rest.line
        && tokens == old(tokens) + rest.tokens + [EofToken(rest.line)]
        && errors == old(errors) + rest.errors
      ensures result == tokens
    {
      ghost var whole := ScanFrom(source, current, line);
      ghost var tokens0, errors0 := tokens, errors;
      while !IsEnd()
        invariant Valid()
        invariant tokens + ScanFrom(source, current, line).tokens == tokens0 + whole.tokens
        invariant errors + ScanFrom(source, current, line).errors == errors0 + whole.errors
        invariant ScanFrom(source, current, line).line == whole.line
        decreases |source| - current
      {
        start := current;
        ScanFromAfterStep(source, current, line, tokens, errors);
        ScanToken();
      }
      tokens := tokens + [EofToken(line)];
      result := tokens;
    }

    /** At the end of input; the cursor never runs past it. */
    function IsEnd(): (b: bool)
      reads this
      requires Valid()
      ensures b <==> current == |source|
    {
      current >= |source|
    }

    /** Consumes one character and returns it. */
    method Advance() returns (c: char)
      requires Valid() && current < |source|
      modifies this`current
      ensures Valid()
      ensures c == source[old(current)] && current == old(current) + 1
    {
      c := source[current];
      current := current + 1;
    }

    /** Appends a token whose lexeme is the text from `start` to `current`. */
    method AddToken(kind: TokenType, literal: Literal)
      requires Valid()
      modifies this`tokens
      ensures tokens == old(tokens) + [Token(kind, source[start..current], literal, line)]
    {
      tokens := tokens + [Token(kind, source[start..current], literal, line)];
    }

    /** The error reporter: records the line and the message. */
    method ReportError(atLine: int, message: string)
      modifies this`errors
      ensures errors == old(errors) + [LexError(atLine, message)]
    {
      errors := errors + [LexError(atLine, message)];
    }

    /** Consumes the next character exactly when it is `expected`. */
    method Match(expected: char) returns (matched: bool)
      requires Valid()
      modifies this`current
      ensures Valid()
      ensures matched <==> old(current) < |source| && source[old(current)] == expected
      ensures current == if matched then old(current) + 1 else old(current)
    {
      if IsEnd() {
        return false;
      }
      if source[current] != expected {
        return false;
      }
      current := current + 1;
      return true;
    }

    /** The character under the cursor, or NUL at the end of input. */
    function Peek(): (c: char)
      reads this
      requires Valid()
      ensures current < |source| ==> c == source[current]
      ensures current == |source| ==> c == '\0'
    {
      if IsEnd() then '\0' else source[current]
    }

    /** The character after the one under the cursor, or NUL if there is none. */
    function PeekNext(): (c: char)
      reads this
      requires Valid()
      ensures current + 1 < |source| ==> c == source[current + 1]
      ensures current + 1 >= |source| ==> c == '\0'
    {
      if current + 1 >= |source| then '\0' else source[current + 1]
    }

    /** Scans one token, comment, blank or bad character starting at `start`. */
    method ScanToken()
      requires Valid() && start == current && current < |source|
      modifies this
      ensures Valid() && start == old(start)
      ensures var r := Step(source, old(current), old(line));
        && current == r.next && line == r.line
        && tokens == old(tokens) + OptionToSeq(r.token)
        && errors == old(errors) + OptionToSeq(r.error)
    {
      var c := Advance();
      match c
      case '(' => AddToken(LEFT_PAREN, NoLit);
      case ')' => AddToken(RIGHT_PAREN, NoLit);
      case '{' => AddToken(LEFT_BRACE, NoLit);
      case '}' => AddToken(RIGHT_BRACE, NoLit);
      case ',' => AddToken(COMMA, NoLit);
      case '.' => AddToken(DOT, NoLit);
      case '-' => AddToken(MINUS, NoLit);
      case '+' => AddToken(PLUS, NoLit);
      case ';' => AddToken(SEMICOLON, NoLit);
      case '*' => AddToken(STAR, NoLit);
      case '!' =>
        var eq := Match('=');
        AddToken(if eq then BANG_EQUAL else BANG, NoLit);
      case '=' =>
        var eq := Match('=');
        AddToken(if eq then EQUAL_EQUAL else EQUAL, NoLit);
      case '<' =>
        var eq := Match('=');
        AddToken(if eq then LESS_EQUAL else LESS, NoLit);
      case '>' =>
        var eq := Match('=');
        AddToken(if eq then GREATER_EQUAL else GREATER, NoLit);
      case '/' => Slash();
      case ' ' | '\r' | '\t' =>
      case '\n' =>
        line := line + 1;
      case '"' => String();
      case _ =>
        if IsDigit(c) {
          Number();
        } else if IsAlpha(c) {
          Identifier();
        } else {
          // The Java code reports this error after every number and
          // identifier too; only a character no rule accepts is reported here.
          ReportError(line, UnexpectedCharacter);
        }
    }

    /**
     * The `/` case of the scanner's switch: a line comment, a block comment
     * or the SLASH token.  The Java case has no `break` and falls into the
     * whitespace case, which does nothing; the fall-through has no effect.
     */
    method Slash()
      requires Valid() && current == start + 1 && source[start] == '/'
      modifies this
      ensures Valid() && start == old(start)
      ensures var r := SlashStep(source, start, old(line));
        && current == r.next && line == r.line
        && tokens == old(tokens) + OptionToSeq(r.token)
        && errors == old(errors) + OptionToSeq(r.error)
    {
      var slash := Match('/');
      if slash {
        ghost var from := current;
        while Peek() != '\n' && !IsEnd()
          invariant Valid() && from <= current
          invariant RunEnd(source, current, LineText) == RunEnd(source, from, LineText)
          modifies this`current
          decreases |source| - current
        {
          RunEndStep(source, current, LineText);
          var c := Advance();
        }
        RunEndStop(source, current, LineText);
      } else {
        var star := Match('*');
        if star {
          MultiLineComment();
        } else {
          AddToken(SLASH, NoLit);
        }
      }
    }

    /** The rest of a string literal; its opening quote is at `start`. */
    method String()
      requires Valid() && current == start + 1 && source[start] == '"'
      modifies this
      ensures Valid() && start == old(start)
      ensures var r := StringLiteral(source, start, old(line));
        && current == r.next && line == r.line
        && tokens == old(tokens) + OptionToSeq(r.token)
        && errors == old(errors) + OptionToSeq(r.error)
    {
      while Peek() != '"' && !IsEnd()
        invariant Valid() && start < current
        invariant RunEnd(source, current, StringText) == RunEnd(source, start + 1, StringText)
        invariant line == old(line) + NewlinesIn(source, start + 1, current)
        modifies this`current, this`line
        decreases |source| - current
      {
        RunEndStep(source, current, StringText);
        if Peek() == '\n' {
          line := line + 1;
        }
        var c := Advance();
      }
      RunEndStop(source, current, StringText);
      if IsEnd() {
        ReportError(line, UnterminatedString);
        return;
      }
      // The Java code leaves the closing quote unconsumed, so its literal
      // loses its last character and the quote opens a new string; the
      // quote is consumed here and the literal is the text between quotes.
      var c := Advance();
      AddToken(STRING, StrLit(source[start + 1..current - 1]));
    }

    /** The rest of a number literal; its first digit is at `start`. */
    method Number()
      requires Valid() && current == start + 1 && IsDigit(source[start])
      modifies this
      ensures Valid() && start == old(start) && line == old(line) && errors == old(errors)
      ensures current == NumberEnd(source, start)
      ensures tokens == old(tokens) + [Token(NUMBER, source[start..current], NumLit(source[start..current]), line)]
    {
      while IsDigit(Peek())
        invariant Valid() && start < current
        invariant RunEnd(source, current, Digits) == RunEnd(source, start + 1, Digits)
        modifies this`current
        decreases |source| - current
      {
        RunEndStep(source, current, Digits);
        var c := Advance();
      }
      RunEndStop(source, current, Digits);
      if Peek() == '.' && IsDigit(PeekNext()) {
        assert FractionAt(source, current);
        var dot := Advance();
        ghost var from := current;
        while IsDigit(Peek())
          invariant Valid() && from <= current
          invariant RunEnd(source, current, Digits) == RunEnd(source, from, Digits)
          modifies this`current
          decreases |source| - current
        {
          RunEndStep(source, current, Digits);
          var c := Advance();
        }
        RunEndStop(source, current, Digits);
        assert current == NumberEnd(source, start);
      } else {
        assert !FractionAt(source, current) && current == NumberEnd(source, start);
      }
      // The literal keeps the lexeme's digits instead of a parsed double.
      AddToken(NUMBER, NumLit(source[start..current]));
    }

    /** The rest of an identifier or reserved word; its first letter is at `start`. */
    method Identifier()
      requires Valid() && current == start + 1 && IsAlpha(source[start])
      modifies this
      ensures Valid() && start == old(start) && line == old(line) && errors == old(errors)
      ensures var r := IdentifierWord(source, start, line);
        && current == r.next && tokens == old(tokens) + OptionToSeq(r.token)
    {
      while IsAlphaNumeric(Peek())
        invariant Valid() && start < current
        invariant RunEnd(source, current, WordChars) == RunEnd(source, start + 1, WordChars)
        modifies this`current
        decreases |source| - current
      {
        RunEndStep(source, current, WordChars);
        var c := Advance();
      }
      RunEndStop(source, current, WordChars);
      AddToken(WordKind(source[start..current]), NoLit);
    }

    /** The rest of a block comment; its opener is at `start`. */
    method MultiLineComment()
      requires Valid() && current == start + 2 <= |source|
      modifies this
      ensures Valid() && start == old(start) && tokens == old(tokens)
      ensures var r := BlockComment(source, start + 2, old(line));
        && current == r.next && line == r.line
        && errors == old(errors) + OptionToSeq(r.error)
    {
      // The Java loop `!match('*') && peek() != '/'` stops at the first `*`
      // or before any `/`, and takes a NUL character for the end of input;
      // here the loop runs to the first closer and tests for the end itself.
      while !IsEnd() && !(Peek() == '*' && PeekNext() == '/')
        invariant Valid() && start + 2 <= current
        invariant CloserFrom(source, current) == CloserFrom(source, start + 2)
        invariant line == old(line) + NewlinesIn(source, start + 2, current)
        modifies this`current, this`line
        decreases |source| - current
      {
        CloserFromStep(source, current);
        if Peek() == '\n' {
          line := line + 1;
        }
        var c := Advance();
      }
      CloserFromStop(source, current);
      if IsEnd() {
        ReportError(line, UnterminatedComment);
        return;
      }
      var star := Advance();
      var slash := Advance();
    }
  }

  /** Scans `source` with a fresh scanner, as the interpreter's driver does. */
  method Lex(source: string) returns (tokens: seq<Token>, errors: seq<LexError>)
    ensures tokens == Scan(source).tokens && errors == Scan(source).errors
  {
    var scanner := new Scanner(source);
    tokens := scanner.ScanTokens();
    errors := scanner.errors;
  }
}
