/**
 * The scanner run backwards: a program text built from lexical pieces
 * (blanks, comments, punctuation, operators, words, numbers, strings and
 * stray characters) scans back to exactly the tokens and error reports
 * those pieces stand for, provided that no piece would swallow the start
 * of the next one.
 */
module Pieces {
  import opened Tokens
  import opened Lexical
  import opened LexProperties

  /** One lexical piece of a program text. */
  datatype Piece =
    | Blank(c: char)                    // a space, tab, carriage return or line break
    | LineNote(text: string)            // `//` and the text up to the line break
    | BlockNote(text: string)           // `/*`, the text, `*/`
    | OpenNote(text: string)            // `/*` and the text, never closed
    | Punct(c: char)                    // a one-character token
    | Slash                             // the `/` operator
    | Operator(c: char, withEq: bool)   // `!`, `=`, `<` or `>`, with or without `=`
    | Word(w: string)                   // an identifier or reserved word
    | Num(w: string)                    // a number literal
    | Str(text: string)                 // a string literal and its text
    | OpenStr(text: string)             // `"` and the text, never closed
    | Stray(c: char)                    // a character that starts nothing

  /**
   * The number of line breaks in a text, counted from the left.  It is the
   * count `Lexical.NewlinesIn` takes of a slice, but of a whole piece and
   * peeled from its first character, which is how a text of pieces is
   * taken apart; `NewlinesAsBreaks` proves the two counts agree.
   */
  function LineBreaks(s: string): nat {
    if s == [] then 0 else (if s[0] == '\n' then 1 else 0) + LineBreaks(s[1..])
  }

  predicate NoLineBreak(t: string) { forall k :: 0 <= k < |t| ==> t[k] != '\n' }

  predicate NoQuote(t: string) { forall k :: 0 <= k < |t| ==> t[k] != '"' }

  // The text contains no comment closer.
  predicate NoCloser(t: string) {
    forall k, j :: 0 <= k < |t| && 0 <= j < |t| && j == k + 1 ==> !(t[k] == '*' && t[j] == '/')
  }

  /** The source text of a piece. */
  function Render(p: Piece): string {
    match p
    case Blank(c) => [c]
    case LineNote(t) => "//" + t
    case BlockNote(t) => "/*" + t + "*/"
    case OpenNote(t) => "/*" + t
    case Punct(c) => [c]
    case Slash => "/"
    case Operator(c, eq) => if eq then [c, '='] else [c]
    case Word(w) => w
    case Num(w) => w
    case Str(t) => "\"" + t + "\""
    case OpenStr(t) => "\"" + t
    case Stray(c) => [c]
  }

  /** The source text of a sequence of pieces. */
  function Text(ps: seq<Piece>): string {
    if ps == [] then "" else Render(ps[0]) + Text(ps[1..])
  }

  /** The piece on its own is what its constructor says it is. */
  predicate Good(p: Piece) {
    match p
    case Blank(c) => c == ' ' || c == '\r' || c == '\t' || c == '\n'
    case LineNote(t) => NoLineBreak(t)
    case BlockNote(t) => NoCloser(t)
    case OpenNote(t) => NoCloser(t)
    case Punct(c) => c in Punctuation
    case Slash => true
    case Operator(c, _) => c in Operators
    case Word(w) => IdentifierShaped(w)
    case Num(w) => NumberShape(w)
    case Str(t) => NoQuote(t)
    case OpenStr(t) => NoQuote(t)
    case Stray(c) => !StartsSomething(c)
  }

  /** The text that follows a piece does not extend it. */
  predicate Fits(p: Piece, rest: string) {
    match p
    case LineNote(_) => rest == [] || rest[0] == '\n'
    case OpenNote(_) => rest == []
    case OpenStr(_) => rest == []
    case Slash => rest == [] || (rest[0] != '/' && rest[0] != '*')
    case Operator(_, eq) => eq || rest == [] || rest[0] != '='
    case Word(_) => rest == [] || !IsAlphaNumeric(rest[0])
    case Num(w) => !IsDigit(CharAt(rest, 0)) && (DigitsOnly(w) ==> !FractionAt(rest, 0))
    case _ => true
  }

  /** Every piece is good and none is extended by the text after it. */
  predicate WellFormed(ps: seq<Piece>) {
    ps == [] || (Good(ps[0]) && Fits(ps[0], Text(ps[1..])) && WellFormed(ps[1..]))
  }

  /** The token a piece stands for, on the line it starts on. */
  function TokenOf(p: Piece, line: int): Option<Token> {
    match p
    case Punct(c) => if c in Punctuation then Some(Token(Punctuation[c], [c], NoLit, line)) else None
    case Slash => Some(Token(SLASH, "/", NoLit, line))
    case Operator(c, eq) =>
      if c in Operators then
        Some(Token(if eq then Operators[c].1 else Operators[c].0, Render(p), NoLit, line))
      else None
    case Word(w) => Some(Token(WordKind(w), Render(p), NoLit, line))
    case Num(w) => Some(Token(NUMBER, Render(p), NumLit(Render(p)), line))
    // a string token carries the line its closing quote is on
    case Str(t) => Some(Token(STRING, Render(p), StrLit(t), line + LineBreaks(t)))
    case _ => None
  }

  /** The error report a piece draws, on the line it starts on. */
  function ErrorOf(p: Piece, line: int): Option<LexError> {
    match p
    case OpenNote(t) => Some(LexError(line + LineBreaks(t), UnterminatedComment))
    case OpenStr(t) => Some(LexError(line + LineBreaks(t), UnterminatedString))
    case Stray(_) => Some(LexError(line, UnexpectedCharacter))
    case _ => None
  }

  /** The tokens a sequence of pieces stands for, starting on `line`. */
  function TokensOf(ps: seq<Piece>, line: int): seq<Token> {
    if ps == [] then []
    else OptionToSeq(TokenOf(ps[0], line)) + TokensOf(ps[1..], line + LineBreaks(Render(ps[0])))
  }

  /** The error reports a sequence of pieces draws, starting on `line`. */
  function ErrorsOf(ps: seq<Piece>, line: int): seq<LexError> {
    if ps == [] then []
    else OptionToSeq(ErrorOf(ps[0], line)) + ErrorsOf(ps[1..], line + LineBreaks(Render(ps[0])))
  }

  // ---------------------------------------------------------------------
  // Counting line breaks
  // ---------------------------------------------------------------------

  lemma {:induction false} LineBreaksAppend(a: string, b: string)
    ensures LineBreaks(a + b) == LineBreaks(a) + LineBreaks(b)
    decreases |a|
  {
    if a != [] {
      assert (a + b)[0] == a[0];
      assert (a + b)[1..] == a[1..] + b;
      LineBreaksAppend(a[1..], b);
    } else {
      assert a + b == b;
    }
  }

  lemma {:induction false} LineBreaksNone(s: string)
    requires NoLineBreak(s)
    ensures LineBreaks(s) == 0
    decreases |s|
  {
    if s != [] {
      LineBreaksNone(s[1..]);
    }
  }

  /** Counting from the right over a slice agrees with counting its text from the left. */
  lemma {:induction false} NewlinesAsBreaks(src: string, pos: nat, t: string)
    requires pos + |t| <= |src| && src[pos..pos + |t|] == t
    ensures NewlinesIn(src, pos, pos + |t|) == LineBreaks(t)
    decreases |t|
  {
    if t != [] {
      assert src[pos] == t[0];
      assert src[pos + 1..pos + |t|] == t[1..];
      NewlinesSplit(src, pos, pos + 1, pos + |t|);
      NewlinesAsBreaks(src, pos + 1, t[1..]);
    }
  }

  // ---------------------------------------------------------------------
  // One piece, one step
  // ---------------------------------------------------------------------

  /** The piece `p` is at `pos` in `src`, and the text after it does not extend it. */
  predicate At(src: string, pos: nat, p: Piece) {
    pos + |Render(p)| <= |src| && src[pos..pos + |Render(p)|] == Render(p)
    && Good(p) && Fits(p, src[pos + |Render(p)|..])
  }

  /** What scanning a piece in place should do. */
  function PieceOutcome(p: Piece, pos: nat, line: int): Outcome {
    Outcome(pos + |Render(p)|, line + LineBreaks(Render(p)), TokenOf(p, line), ErrorOf(p, line))
  }

  /** The characters of a piece at `pos`, and the lookahead after it. */
  lemma AtChars(src: string, pos: nat, p: Piece)
    requires At(src, pos, p)
    ensures forall k :: 0 <= k < |Render(p)| ==> src[pos + k] == Render(p)[k]
    ensures var e := pos + |Render(p)|;
      CharAt(src, e) == CharAt(src[e..], 0) && CharAt(src, e + 1) == CharAt(src[e..], 1)
  {
    var n := |Render(p)|;
    forall k | 0 <= k < n
      ensures src[pos + k] == Render(p)[k]
    {
      assert src[pos..pos + n][k] == src[pos + k];
    }
  }

  /** The text between a piece's delimiters, and the delimiters' first characters, where the piece is. */
  lemma Inner(src: string, pos: nat, a: string, t: string, b: string)
    requires pos + |a + t + b| <= |src| && src[pos..pos + |a + t + b|] == a + t + b
    ensures src[pos + |a|..pos + |a| + |t|] == t
    ensures |a| > 0 ==> src[pos] == a[0]
    ensures |a| > 1 ==> src[pos + 1] == a[1]
    ensures |b| > 0 ==> src[pos + |a| + |t|] == b[0]
    ensures |b| > 1 ==> src[pos + |a| + |t| + 1] == b[1]
  {
    var n := |a + t + b|;
    forall i | 0 <= i < |t|
      ensures src[pos + |a| + i] == t[i]
    {
      assert src[pos + |a| + i] == src[pos..pos + n][|a| + i] == (a + t + b)[|a| + i];
    }
    assert src[pos + |a|..pos + |a| + |t|] == t;
    if |b| > 0 {
      assert src[pos + |a| + |t|] == (a + t + b)[|a| + |t|];
    }
    if |b| > 1 {
      assert src[pos + |a| + |t| + 1] == (a + t + b)[|a| + |t| + 1];
    }
    if |a| > 0 {
      assert src[pos] == (a + t + b)[0];
    }
    if |a| > 1 {
      assert src[pos + 1] == (a + t + b)[1];
    }
  }

  /** A slice without quotes, in place. */
  lemma NoQuoteIn(src: string, lo: nat, t: string)
    requires lo + |t| <= |src| && src[lo..lo + |t|] == t && NoQuote(t)
    ensures forall k :: lo <= k < lo + |t| ==> src[k] != '"'
  {
    forall k | lo <= k < lo + |t|
      ensures src[k] != '"'
    {
      assert src[k] == t[k - lo];
    }
  }

  /** A slice without closers, in place, not followed by a `/`. */
  lemma NoCloserIn(src: string, lo: nat, t: string)
    requires lo + |t| <= |src| && src[lo..lo + |t|] == t && NoCloser(t)
    requires lo + |t| == |src| || src[lo + |t|] != '/'
    ensures forall k :: lo <= k < lo + |t| ==> !CloserAt(src, k)
  {
    forall k | lo <= k < lo + |t|
      ensures !CloserAt(src, k)
    {
      assert src[k] == t[k - lo];
      if k + 1 < lo + |t| {
        assert src[k + 1] == t[k + 1 - lo];
      }
    }
  }

  lemma BlankStep(src: string, pos: nat, line: int, p: Piece)
    requires At(src, pos, p) && p.Blank?
    ensures pos < |src| && Step(src, pos, line) == PieceOutcome(p, pos, line)
  {
    AtChars(src, pos, p);
    BlankRule(src, pos, line);
  }

  lemma PunctStep(src: string, pos: nat, line: int, p: Piece)
    requires At(src, pos, p) && p.Punct?
    ensures pos < |src| && Step(src, pos, line) == PieceOutcome(p, pos, line)
  {
    AtChars(src, pos, p);
    PunctuationRule(src, pos, line);
  }

  lemma SlashPieceStep(src: string, pos: nat, line: int, p: Piece)
    requires At(src, pos, p) && p.Slash?
    ensures pos < |src| && Step(src, pos, line) == PieceOutcome(p, pos, line)
  {
    AtChars(src, pos, p);
    assert LineBreaks("/") == 0;
  }

  lemma OperatorStep(src: string, pos: nat, line: int, p: Piece)
    requires At(src, pos, p) && p.Operator?
    ensures pos < |src| && Step(src, pos, line) == PieceOutcome(p, pos, line)
  {
    AtChars(src, pos, p);
    assert src[pos] == Render(p)[0] == p.c;
    OperatorRule(src, pos, line);
    LineBreaksNone(Render(p));
  }

  lemma LineNoteStep(src: string, pos: nat, line: int, p: Piece)
    requires At(src, pos, p) && p.LineNote?
    ensures pos < |src| && Step(src, pos, line) == PieceOutcome(p, pos, line)
  {
    AtChars(src, pos, p);
    LineCommentRule(src, pos, line);
    LineBreaksAppend("//", p.text);
    LineBreaksNone(p.text);
  }

  lemma BlockNoteStep(src: string, pos: nat, line: int, t: string)
    requires At(src, pos, BlockNote(t))
    ensures pos < |src| && Step(src, pos, line) == PieceOutcome(BlockNote(t), pos, line)
  {
    Inner(src, pos, "/*", t, "*/");
    assert Step(src, pos, line) == BlockComment(src, pos + 2, line);
    NoCloserIn(src, pos + 2, t);
    CloserFromAt(src, pos + 2, pos + 2 + |t|);
    NewlinesAsBreaks(src, pos + 2, t);
    DelimitedBreaks("/*", t, "*/");
  }

  lemma OpenNoteStep(src: string, pos: nat, line: int, t: string)
    requires At(src, pos, OpenNote(t))
    ensures pos < |src| && Step(src, pos, line) == PieceOutcome(OpenNote(t), pos, line)
  {
    Inner(src, pos, "/*", t, "");
    assert Step(src, pos, line) == BlockComment(src, pos + 2, line);
    NoCloserIn(src, pos + 2, t);
    CloserFromAt(src, pos + 2, |src|);
    NewlinesAsBreaks(src, pos + 2, t);
    DelimitedBreaks("/*", t, "");
  }

  /** A closed string in place: its quotes, its text, and the line breaks in it. */
  lemma StrInPlace(src: string, pos: nat, t: string)
    requires At(src, pos, Str(t))
    ensures var q := pos + 1 + |t|;
      && q < |src| && src[pos] == '"' && src[q] == '"'
      && (forall k :: pos < k < q ==> src[k] != '"')
      && src[pos..q + 1] == Render(Str(t)) && src[pos + 1..q] == t
      && NewlinesIn(src, pos + 1, q) == LineBreaks(t) && LineBreaks(Render(Str(t))) == LineBreaks(t)
  {
    Inner(src, pos, "\"", t, "\"");
    NoQuoteIn(src, pos + 1, t);
    assert |Render(Str(t))| == |t| + 2;
    NewlinesAsBreaks(src, pos + 1, t);
    DelimitedBreaks("\"", t, "\"");
  }

  lemma StrStep(src: string, pos: nat, line: int, t: string)
    requires At(src, pos, Str(t))
    ensures pos < |src| && Step(src, pos, line) == PieceOutcome(Str(t), pos, line)
  {
    var q := pos + 1 + |t|;
    StrInPlace(src, pos, t);
    StringClosedAt(src, pos, q, line);
    var l := line + LineBreaks(t);
    assert Step(src, pos, line) == Outcome(q + 1, l, Some(Token(STRING, Render(Str(t)), StrLit(t), l)), None);
  }

  lemma OpenStrStep(src: string, pos: nat, line: int, t: string)
    requires At(src, pos, OpenStr(t))
    ensures pos < |src| && Step(src, pos, line) == PieceOutcome(OpenStr(t), pos, line)
  {
    Inner(src, pos, "\"", t, "");
    assert Step(src, pos, line) == StringLiteral(src, pos, line);
    NoQuoteIn(src, pos + 1, t);
    StringUnclosed(src, pos, line);
    NewlinesAsBreaks(src, pos + 1, t);
    DelimitedBreaks("\"", t, "");
  }

  /** Delimiters without line breaks add none to the text between them. */
  lemma DelimitedBreaks(a: string, t: string, b: string)
    requires NoLineBreak(a) && NoLineBreak(b)
    ensures LineBreaks(a + t + b) == LineBreaks(t)
  {
    LineBreaksAppend(a + t, b);
    LineBreaksAppend(a, t);
    LineBreaksNone(a);
    LineBreaksNone(b);
  }

  lemma NumStep(src: string, pos: nat, line: int, w: string)
    requires At(src, pos, Num(w))
    ensures pos < |src| && Step(src, pos, line) == PieceOutcome(Num(w), pos, line)
  {
    var p, e := Num(w), pos + |w|;
    AtChars(src, pos, p);
    assert src[pos..e] == w;
    NumberStartsWithDigit(w);
    assert IsDigit(src[pos]);
    NumberEndAt(src, pos, e);
    assert Step(src, pos, line) == NumberLiteral(src, pos, line);
    NumberNoNewlines(src, pos);
    NewlinesAsBreaks(src, pos, w);
  }

  /** A number starts with a digit. */
  lemma NumberStartsWithDigit(w: string)
    requires NumberShape(w)
    ensures |w| > 0 && IsDigit(w[0])
  {
    if !DigitsOnly(w) {
      var k :| 0 < k < |w| - 1 && w[k] == '.' && forall i :: 0 <= i < |w| && i != k ==> IsDigit(w[i]);
      assert IsDigit(w[0]);
    }
  }

  /** A word in place: it starts with a letter and its run of word characters ends where it does. */
  lemma WordInPlace(src: string, pos: nat, w: string)
    requires At(src, pos, Word(w))
    ensures pos < |src| && IsAlpha(src[pos]) && RunEnd(src, pos + 1, WordChars) == pos + |w|
    ensures src[pos..pos + |w|] == w && LineBreaks(w) == 0
  {
    var p := Word(w);
    AtChars(src, pos, p);
    assert IsAlpha(src[pos]);
    RunEndAt(src, pos + 1, pos + |w|, WordChars);
    LineBreaksNone(w);
  }

  lemma WordStep(src: string, pos: nat, line: int, w: string)
    requires At(src, pos, Word(w))
    ensures pos < |src| && Step(src, pos, line) == PieceOutcome(Word(w), pos, line)
  {
    WordInPlace(src, pos, w);
    assert Step(src, pos, line) == IdentifierWord(src, pos, line);
    assert IdentifierWord(src, pos, line) == Outcome(pos + |w|, line, Some(Token(WordKind(w), w, NoLit, line)), None);
  }

  lemma StrayStep(src: string, pos: nat, line: int, p: Piece)
    requires At(src, pos, p) && p.Stray?
    ensures pos < |src| && Step(src, pos, line) == PieceOutcome(p, pos, line)
  {
    AtChars(src, pos, p);
    UnexpectedRule(src, pos, line);
    LineBreaksNone(Render(p));
  }

  /** A piece in place is scanned in one step, to what it stands for. */
  lemma PieceStep(src: string, pos: nat, line: int, p: Piece)
    requires At(src, pos, p)
    ensures pos < |src| && Step(src, pos, line) == PieceOutcome(p, pos, line)
  {
    match p
    case Blank(_) => BlankStep(src, pos, line, p);
    case LineNote(_) => LineNoteStep(src, pos, line, p);
    case BlockNote(t) => BlockNoteStep(src, pos, line, t);
    case OpenNote(t) => OpenNoteStep(src, pos, line, t);
    case Punct(_) => PunctStep(src, pos, line, p);
    case Slash => SlashPieceStep(src, pos, line, p);
    case Operator(_, _) => OperatorStep(src, pos, line, p);
    case Word(w) => WordStep(src, pos, line, w);
    case Num(w) => NumStep(src, pos, line, w);
    case Str(t) => StrStep(src, pos, line, t);
    case OpenStr(t) => OpenStrStep(src, pos, line, t);
    case Stray(_) => StrayStep(src, pos, line, p);
  }

  // ---------------------------------------------------------------------
  // A sequence of pieces
  // ---------------------------------------------------------------------

  /** Text that starts with `r` at `pos`, and what follows it. */
  lemma SplitAt(src: string, pos: nat, r: string, rest: string)
    requires pos <= |src| && src[pos..] == r + rest
    ensures pos + |r| <= |src| && src[pos..pos + |r|] == r && src[pos + |r|..] == rest
  {
    forall i | 0 <= i < |r|
      ensures src[pos + i] == r[i]
    {
      assert src[pos + i] == src[pos..][i] == (r + rest)[i];
    }
    forall i | 0 <= i < |rest|
      ensures src[pos + |r| + i] == rest[i]
    {
      assert src[pos + |r| + i] == src[pos..][|r| + i] == (r + rest)[|r| + i];
    }
    assert src[pos..pos + |r|] == r;
    assert src[pos + |r|..] == rest;
  }

  /** The text of two sequences of pieces, one after the other. */
  lemma {:induction false} TextAppend(a: seq<Piece>, b: seq<Piece>)
    ensures Text(a + b) == Text(a) + Text(b)
    decreases |a|
  {
    if a == [] {
      assert a + b == b;
    } else {
      assert (a + b)[0] == a[0];
      assert (a + b)[1..] == a[1..] + b;
      TextAppend(a[1..], b);
    }
  }

  /** The text of the pieces from the `i`-th on: that of the `i`-th piece, then the rest. */
  lemma TextFrom(ps: seq<Piece>, i: nat)
    requires i < |ps|
    ensures Text(ps) == Text(ps[..i]) + Text(ps[i..])
    ensures Text(ps[i..]) == Render(ps[i]) + Text(ps[i + 1..])
  {
    assert ps == ps[..i] + ps[i..];
    TextAppend(ps[..i], ps[i..]);
    assert ps[i..][1..] == ps[i + 1..];
  }

  /** The text of the first `i` pieces is the first piece's text and that of the next `i - 1`. */
  lemma TextTake(ps: seq<Piece>, i: nat)
    requires 0 < i <= |ps|
    ensures Text(ps[..i]) == Render(ps[0]) + Text(ps[1..][..i - 1])
  {
    assert ps[..i][1..] == ps[1..][..i - 1];
  }

  /** The text of one piece. */
  lemma TextOne(p: Piece)
    ensures Text([p]) == Render(p)
  {
    assert [p][1..] == [];
    assert Render(p) + "" == Render(p);
  }

  /** The text of the first `i + 1` pieces extends that of the first `i`. */
  lemma TextSnoc(ps: seq<Piece>, i: nat)
    requires i < |ps|
    ensures Text(ps[..i + 1]) == Text(ps[..i]) + Render(ps[i])
    ensures LineBreaks(Text(ps[..i + 1])) == LineBreaks(Text(ps[..i])) + LineBreaks(Render(ps[i]))
  {
    assert ps[..i + 1] == ps[..i] + [ps[i]];
    TextAppend(ps[..i], [ps[i]]);
    TextOne(ps[i]);
    LineBreaksAppend(Text(ps[..i]), Render(ps[i]));
  }

  /** Each of well-formed pieces is good and not extended by the text after it. */
  lemma {:induction false} WellFormedAt(ps: seq<Piece>, i: nat)
    requires WellFormed(ps) && i < |ps|
    ensures Good(ps[i]) && Fits(ps[i], Text(ps[i + 1..]))
    decreases i
  {
    if i > 0 {
      WellFormedAt(ps[1..], i - 1);
      assert ps[1..][i..] == ps[i + 1..];
    }
  }

  /** Where the `i`-th of the pieces starts, when the first starts at `pos`. */
  function Start(ps: seq<Piece>, pos: nat, i: nat): nat
    requires i <= |ps|
  {
    pos + |Text(ps[..i])|
  }

  /** The line the `i`-th of the pieces starts on, when the first starts on `line`. */
  function LineAt(ps: seq<Piece>, line: int, i: nat): int
    requires i <= |ps|
  {
    line + LineBreaks(Text(ps[..i]))
  }

  /** Each piece starts where the one before it ends. */
  lemma StartNext(ps: seq<Piece>, pos: nat, line: int, i: nat)
    requires i < |ps|
    ensures Start(ps, pos, i + 1) == Start(ps, pos, i) + |Render(ps[i])|
    ensures LineAt(ps, line, i + 1) == LineAt(ps, line, i) + LineBreaks(Render(ps[i]))
  {
    TextSnoc(ps, i);
  }

  /** Dropping the first piece moves the start past its text. */
  lemma StartShift(ps: seq<Piece>, pos: nat, line: int, i: nat)
    requires i < |ps|
    ensures var r := Render(ps[0]);
      && Start(ps, pos, i + 1) == Start(ps[1..], pos + |r|, i)
      && LineAt(ps, line, i + 1) == LineAt(ps[1..], line + LineBreaks(r), i)
  {
    TextTake(ps, i + 1);
    LineBreaksAppend(Render(ps[0]), Text(ps[1..][..i]));
  }

  /** What scanning the pieces one after the other from `pos` and `line` should do. */
  function Outcomes(ps: seq<Piece>, pos: nat, line: int): (os: seq<Outcome>)
    ensures |os| == |ps|
  {
    seq(|ps|, i requires 0 <= i < |ps| => PieceOutcome(ps[i], Start(ps, pos, i), LineAt(ps, line, i)))
  }

  /** Where the `i`-th expected outcome starts, and on which line. */
  lemma StartAt(ps: seq<Piece>, pos: nat, line: int, i: nat)
    requires i <= |ps|
    ensures var os := Outcomes(ps, pos, line);
      StartOf(os, pos, i) == Start(ps, pos, i) && LineOf(os, line, i) == LineAt(ps, line, i)
  {
    if i > 0 {
      StartNext(ps, pos, line, i - 1);
    } else {
      assert ps[..i] == [];
    }
  }

  /** The expected outcomes after the first piece are those of the rest. */
  lemma OutcomesTail(ps: seq<Piece>, pos: nat, line: int)
    requires ps != []
    ensures var r := Render(ps[0]);
      Outcomes(ps, pos, line)[1..] == Outcomes(ps[1..], pos + |r|, line + LineBreaks(r))
  {
    var r := Render(ps[0]);
    var os, rest := Outcomes(ps, pos, line), Outcomes(ps[1..], pos + |r|, line + LineBreaks(r));
    forall k | 0 <= k < |rest|
      ensures os[1..][k] == rest[k]
    {
      OutcomeShift(ps, pos, line, k);
    }
    assert |os[1..]| == |rest|;
  }

  /** The outcome of a piece after the first is the same counted from the second piece. */
  lemma OutcomeShift(ps: seq<Piece>, pos: nat, line: int, k: nat)
    requires k + 1 < |ps|
    ensures var r := Render(ps[0]);
      Outcomes(ps, pos, line)[k + 1] == Outcomes(ps[1..], pos + |r|, line + LineBreaks(r))[k]
  {
    var r, tail := Render(ps[0]), ps[1..];
    assert tail[k] == ps[k + 1];
    StartShift(ps, pos, line, k);
    calc {
      Outcomes(ps, pos, line)[k + 1];
      { OutcomeAt(ps, pos, line, k + 1); }
      PieceOutcome(ps[k + 1], Start(ps, pos, k + 1), LineAt(ps, line, k + 1));
      PieceOutcome(tail[k], Start(tail, pos + |r|, k), LineAt(tail, line + LineBreaks(r), k));
      { OutcomeAt(tail, pos + |r|, line + LineBreaks(r), k); }
      Outcomes(tail, pos + |r|, line + LineBreaks(r))[k];
    }
  }

  /** The `i`-th expected outcome is that of the `i`-th piece where it starts. */
  lemma OutcomeAt(ps: seq<Piece>, pos: nat, line: int, i: nat)
    requires i < |ps|
    ensures Outcomes(ps, pos, line)[i] == PieceOutcome(ps[i], Start(ps, pos, i), LineAt(ps, line, i))
  {
  }

  /** The first expected outcome is that of the first piece. */
  lemma OutcomesHead(ps: seq<Piece>, pos: nat, line: int)
    requires ps != []
    ensures Outcomes(ps, pos, line)[0] == PieceOutcome(ps[0], pos, line)
  {
    assert ps[..0] == [];
  }

  /** Outcomes that carry the first piece's token and then the rest's carry all the pieces' tokens. */
  lemma TokensStep(os: seq<Outcome>, ps: seq<Piece>, line: int)
    requires os != [] && ps != [] && os[0].token == TokenOf(ps[0], line)
    requires TokensIn(os[1..]) == TokensOf(ps[1..], line + LineBreaks(Render(ps[0])))
    ensures TokensIn(os) == TokensOf(ps, line)
  {
  }

  /** Outcomes that carry the first piece's error and then the rest's carry all the pieces' errors. */
  lemma ErrorsStep(os: seq<Outcome>, ps: seq<Piece>, line: int)
    requires os != [] && ps != [] && os[0].error == ErrorOf(ps[0], line)
    requires ErrorsIn(os[1..]) == ErrorsOf(ps[1..], line + LineBreaks(Render(ps[0])))
    ensures ErrorsIn(os) == ErrorsOf(ps, line)
  {
  }

  /** The expected outcomes carry the pieces' tokens when those after the first piece do. */
  lemma TokensFromTail(ps: seq<Piece>, pos: nat, line: int)
    requires ps != []
    requires var r := Render(ps[0]);
      TokensIn(Outcomes(ps[1..], pos + |r|, line + LineBreaks(r))) == TokensOf(ps[1..], line + LineBreaks(r))
    ensures TokensIn(Outcomes(ps, pos, line)) == TokensOf(ps, line)
  {
    OutcomesHead(ps, pos, line);
    OutcomesTail(ps, pos, line);
    TokensStep(Outcomes(ps, pos, line), ps, line);
  }

  /** The expected outcomes carry the pieces' tokens. */
  lemma {:induction false} OutcomesCarryTokens(ps: seq<Piece>, pos: nat, line: int)
    ensures TokensIn(Outcomes(ps, pos, line)) == TokensOf(ps, line)
    decreases |ps|
  {
    if ps != [] {
      var r := Render(ps[0]);
      OutcomesCarryTokens(ps[1..], pos + |r|, line + LineBreaks(r));
      TokensFromTail(ps, pos, line);
    }
  }

  /** The expected outcomes carry the pieces' errors when those after the first piece do. */
  lemma ErrorsFromTail(ps: seq<Piece>, pos: nat, line: int)
    requires ps != []
    requires var r := Render(ps[0]);
      ErrorsIn(Outcomes(ps[1..], pos + |r|, line + LineBreaks(r))) == ErrorsOf(ps[1..], line + LineBreaks(r))
    ensures ErrorsIn(Outcomes(ps, pos, line)) == ErrorsOf(ps, line)
  {
    OutcomesHead(ps, pos, line);
    OutcomesTail(ps, pos, line);
    ErrorsStep(Outcomes(ps, pos, line), ps, line);
  }

  /** The expected outcomes carry the pieces' error reports. */
  lemma {:induction false} OutcomesCarryErrors(ps: seq<Piece>, pos: nat, line: int)
    ensures ErrorsIn(Outcomes(ps, pos, line)) == ErrorsOf(ps, line)
    decreases |ps|
  {
    if ps != [] {
      var r := Render(ps[0]);
      OutcomesCarryErrors(ps[1..], pos + |r|, line + LineBreaks(r));
      ErrorsFromTail(ps, pos, line);
    }
  }

  /** Text that ends with `a`, `b` and `c` at `pos`: where `b` and `c` are. */
  lemma SplitThree(src: string, pos: nat, a: string, b: string, c: string)
    requires pos <= |src| && src[pos..] == a + (b + c)
    ensures var e := pos + |a|;
      e + |b| <= |src| && src[e..e + |b|] == b && src[e + |b|..] == c
  {
    SplitAt(src, pos, a, b + c);
    SplitAt(src, pos + |a|, b, c);
  }

  /** The `i`-th of the pieces whose text ends `src` is there, followed by the text of the rest. */
  lemma PlacedAt(src: string, pos: nat, ps: seq<Piece>, i: nat)
    requires pos <= |src| && src[pos..] == Text(ps) && i < |ps|
    ensures var e, r := Start(ps, pos, i), Render(ps[i]);
      e + |r| <= |src| && src[e..e + |r|] == r && src[e + |r|..] == Text(ps[i + 1..])
  {
    TextFrom(ps, i);
    SplitThree(src, pos, Text(ps[..i]), Render(ps[i]), Text(ps[i + 1..]));
  }

  /** The `i`-th of the well-formed pieces whose text ends `src` is in place there. */
  lemma PieceAt(src: string, pos: nat, ps: seq<Piece>, i: nat)
    requires pos <= |src| && src[pos..] == Text(ps) && WellFormed(ps) && i < |ps|
    ensures At(src, Start(ps, pos, i), ps[i])
  {
    PlacedAt(src, pos, ps, i);
    WellFormedAt(ps, i);
  }

  /** The `i`-th of the well-formed pieces is scanned in one step, to its expected outcome. */
  lemma StepAtPiece(src: string, pos: nat, line: int, ps: seq<Piece>, i: nat)
    requires pos <= |src| && src[pos..] == Text(ps) && WellFormed(ps) && i < |ps|
    ensures StepOK(src, Outcomes(ps, pos, line), pos, line, i)
  {
    PieceAt(src, pos, ps, i);
    StartAt(ps, pos, line, i);
    OutcomeAt(ps, pos, line, i);
    PieceStep(src, Start(ps, pos, i), LineAt(ps, line, i), ps[i]);
  }

  /** The text of well-formed pieces is scanned one step per piece, to the expected outcomes. */
  lemma PiecesChain(src: string, pos: nat, line: int, ps: seq<Piece>)
    requires pos <= |src| && src[pos..] == Text(ps) && WellFormed(ps)
    ensures Chain(src, pos, line, Outcomes(ps, pos, line))
  {
    var os := Outcomes(ps, pos, line);
    StartAt(ps, pos, line, |ps|);
    assert ps[..|ps|] == ps;
    forall i | 0 <= i < |os|
      ensures StepOK(src, os, pos, line, i)
    {
      StepAtPiece(src, pos, line, ps, i);
    }
  }

  /** The line a text ends on, counting its line breaks from line 1. */
  lemma EndLine(src: string)
    ensures ScanFrom(src, 0, 1).line == 1 + LineBreaks(src)
  {
    ScanFromLine(src, 0, 1);
    assert src[0..|src|] == src;
    NewlinesAsBreaks(src, 0, src);
  }

  /**
   * Scanning the text of well-formed pieces yields their tokens, closed by
   * EOF on the line the text ends on, and their error reports.
   */
  lemma ScanText(ps: seq<Piece>)
    requires WellFormed(ps)
    ensures Scan(Text(ps)).tokens == TokensOf(ps, 1) + [EofToken(1 + LineBreaks(Text(ps)))]
    ensures Scan(Text(ps)).errors == ErrorsOf(ps, 1)
  {
    var src := Text(ps);
    assert src[0..] == src;
    PiecesChain(src, 0, 1, ps);
    ScanChain(src, 0, 1, Outcomes(ps, 0, 1));
    OutcomesCarryTokens(ps, 0, 1);
    OutcomesCarryErrors(ps, 0, 1);
    EndLine(src);
  }
}
