/** Line-by-line input: what has been typed so far, and what can still become of it. */
module Repl {
  import opened Tokens
  import opened Tokenizer
  import opened Ast
  import opened Grammar
  import opened Prefix
  import opened OpenInput
  import ParserClass

  datatype ParseOutcome =
    | Complete(nodes: seq<AstNode>)
    | NeedsMore
    | Rejected(error: LogoError)

  function Classify(r: Result<seq<AstNode>>): ParseOutcome {
    match r
    case Ok(nodes) => Complete(nodes)
    case Err(error) => if error.Incomplete? then NeedsMore else Rejected(error)
  }

  function Check(source: string, arities: Arities): ParseOutcome {
    match TokensOf(source)
    case Err(error) => Rejected(error)
    case Ok(ts) =>
      LexEndsOnce(source, START, true);
      Classify(Outcome(Grammar.Parse(ts, arities)))
  }

  method CheckInput(source: string, arities: Arities) returns (r: ParseOutcome)
    ensures r == Check(source, arities)
  {
    hide Grammar.Parse, Lex;
    var tokens := Tokenize(source);
    if tokens.Err? {
      return Rejected(tokens.error);
    }
    LexEndsOnce(source, START, true);
    var parser := new ParserClass.Parser(arities);
    var nodes := parser.Parse(tokens.value);
    match nodes {
      case Ok(ast) => r := Complete(ast);
      case Err(error) => r := if error.Incomplete? then NeedsMore else Rejected(error);
    }
  }

  // ---- Lexing line by line ----

  lemma RunBeforeLine(cl: Class, s: string, b: string)
    requires !cl.Has('\n') || Run(cl, s) < |s|
    ensures Run(cl, s + "\n" + b) == Run(cl, s)
  {
    var n := Run(cl, s);
    var t := s + "\n" + b;
    assert forall k :: 0 <= k < n ==> t[k] == s[k];
    assert n < |s| ==> t[n] == s[n];
    assert n == |s| ==> t[n] == '\n';
    RunIs(cl, t, n);
  }

  /** A comment is the only lexeme that would run over the end of its line. */
  lemma CommentBeforeLine(s: string, b: string)
    ensures Run(CommentText, s + "\n" + b) == Run(CommentText, s)
  {
    RunBeforeLine(CommentText, s, b);
  }

  lemma InfixBeforeLine(s: string, b: string, negative: bool)
    requires s != [] && IsInfix(s[0])
    ensures ScanInfix(s + "\n" + b, negative) == ScanInfix(s, negative)
  {
    hide Run;
    var t := s + "\n" + b;
    assert t[1..] == s[1..] + "\n" + b;
    RunBeforeLine(NumberText, s[1..], b);
    assert |s| > 1 ==> t[1] == s[1] && t[..2] == s[..2];
    assert |s| == 1 ==> t[1] == '\n';
    assert t[..1] == s[..1];
    var n := 1 + Run(NumberText, s[1..]);
    assert n <= |s| && t[..n] == s[..n];
  }

  lemma QuotedBeforeLine(s: string, b: string)
    requires s != [] && s[0] == '"' && !ScanQuoted(s).Stuck?
    ensures ScanQuoted(s + "\n" + b) == ScanQuoted(s)
  {
    hide Run;
    var t := s + "\n" + b;
    if |s| > 1 && s[1] == '|' {
      assert t[1] == s[1] && t[2..] == s[2..] + "\n" + b;
      RunBeforeLine(BarText, s[2..], b);
      var n := Run(BarText, s[2..]);
      assert t[2..2 + n] == s[2..2 + n];
    } else {
      assert t[1..] == s[1..] + "\n" + b;
      assert |s| > 1 ==> t[1] == s[1];
      RunBeforeLine(QuotedText, s[1..], b);
      var n := Run(QuotedText, s[1..]);
      assert t[1..1 + n] == s[1..1 + n];
    }
  }

  /** What follows the line end does not change a lexeme before it. */
  lemma ScanBeforeLine(s: string, b: string, negative: bool)
    requires s != [] && !Scan(s, negative).Stuck?
    ensures Scan(s + "\n" + b, negative) == Scan(s, negative)
  {
    hide Run, ScanInfix, ScanQuoted;
    var t := s + "\n" + b;
    assert t[0] == s[0] && t[1..] == s[1..] + "\n" + b;
    assert |s| > 1 ==> t[1] == s[1];
    assert |s| == 1 ==> t[1] == '\n';
    if s[0] == ';' {
      CommentBeforeLine(s, b);
    } else if IsInfix(s[0]) {
      InfixBeforeLine(s, b, negative);
    } else if s[0] == '"' {
      QuotedBeforeLine(s, b);
    } else if s[0] == ':' {
      RunBeforeLine(VariableText, s[1..], b);
      assert t[1..1 + Run(VariableText, s[1..])] == s[1..1 + Run(VariableText, s[1..])];
    } else {
      RunBeforeLine(NumberText, s, b);
      RunBeforeLine(WordText, s, b);
      assert t[..Run(NumberText, s)] == s[..Run(NumberText, s)];
      assert t[..Run(WordText, s)] == s[..Run(WordText, s)];
      assert StartsNumber(t) == StartsNumber(s);
    }
  }

  function Front<T>(s: seq<T>): seq<T>
    requires s != []
  {
    s[..|s| - 1]
  }

  function Last<T>(s: seq<T>): T
    requires s != []
  {
    s[|s| - 1]
  }

  /** The line end between two pieces of text, and the lexing of the second from there. */
  function Continue(end: Token, b: string): Result<seq<Token>> {
    Prepend([Token(TokenType.Newline, "\n", end.line, end.col)], Lex(b, Position(end.line + 1, 1), true))
  }

  lemma {:induction false} LexLines(a: string, b: string, p: Position, negative: bool)
    requires Lex(a, p, negative).Ok?
    ensures Lex(a, p, negative).value != []
    ensures var ts := Lex(a, p, negative).value;
      Lex(a + "\n" + b, p, negative) == Prepend(Front(ts), Continue(Last(ts), b))
    decreases |a|
  {
    hide Scan;
    if a == [] {
      LineEnd(b, p, negative);
      PrependNothing(Continue(Token(TokenType.Eof, "", p.line, p.col), b));
    } else {
      var t := a + "\n" + b;
      ScanBeforeLine(a, b, negative);
      var l := Scan(a, negative);
      var n := l.length;
      assert t[..n] == a[..n] && t[n..] == a[n..] + "\n" + b;
      if l.Skip? {
        LexLines(a[n..], b, Past(p, a[..n]), negative);
      } else {
        var q := Past(p, a[..n]);
        LexLines(a[n..], b, q, AllowsNegative(l.kind));
        var rest := Lex(a[n..], q, AllowsNegative(l.kind)).value;
        var first := [Placed(l.kind, l.value, p, q)];
        assert Front(first + rest) == first + Front(rest);
        PrependTwice(first, Front(rest), Continue(Last(rest), b));
      }
    }
  }

  lemma LineEnd(b: string, p: Position, negative: bool)
    ensures Lex("" + "\n" + b, p, negative)
         == Prepend([Token(TokenType.Newline, "\n", p.line, p.col)], Lex(b, Position(p.line + 1, 1), true))
  {
    hide Walk;
    var t := "" + "\n" + b;
    assert t[..1] == "\n" && t[1..] == b;
    WalkLineEnd(p, t[..1]);
  }

  // ---- Positions count from the first line ----

  function Lower(p: Position, k: nat): Position {
    Position(p.line + k, p.col)
  }

  function LowerToken(t: Token, k: nat): Token {
    t.(line := t.line + k)
  }

  function LowerResult(r: Result<seq<Token>>, k: nat): Result<seq<Token>> {
    match r
    case Ok(ts) => Ok(seq(|ts|, i requires 0 <= i < |ts| => LowerToken(ts[i], k)))
    case Err(Syntax(message, line, col)) => Err(Syntax(message, line + k, col))
    case Err(e) => Err(e)
  }

  lemma {:induction false} LowerWalk(p: Position, text: string, k: nat)
    ensures Walk(Lower(p, k), text) == Lower(Walk(p, text), k)
    decreases |text|
  {
    if text != [] {
      LowerWalk(p, text[..|text| - 1], k);
    }
  }

  /** Starting `k` lines further down moves every token, and the error, `k` lines down. */
  lemma {:induction false} LexLower(s: string, p: Position, negative: bool, k: nat)
    ensures Lex(s, Lower(p, k), negative) == LowerResult(Lex(s, p, negative), k)
    decreases |s|
  {
    hide Scan, Walk;
    if s == [] {
      assert LowerResult(Lex(s, p, negative), k).value == [LowerToken(Token(TokenType.Eof, "", p.line, p.col), k)];
    } else {
      var l := Scan(s, negative);
      LowerWalk(p, s[..l.length], k);
      var q := Past(p, s[..l.length]);
      if l.Skip? {
        LexLower(s[l.length..], q, negative, k);
      } else if l.Emit? {
        LexLower(s[l.length..], q, AllowsNegative(l.kind), k);
        var first := Placed(l.kind, l.value, p, q);
        assert LowerToken(first, k) == Placed(l.kind, l.value, Lower(p, k), Lower(q, k));
        LowerPrepend(first, Lex(s[l.length..], q, AllowsNegative(l.kind)), k);
      }
    }
  }

  lemma LowerPrepend(t: Token, r: Result<seq<Token>>, k: nat)
    requires r.Err? ==> r.error.Syntax?
    ensures LowerResult(Prepend([t], r), k) == Prepend([LowerToken(t, k)], LowerResult(r, k))
  {
    if r.Ok? {
      var ts := [t] + r.value;
      assert forall i :: 1 <= i < |ts| ==> ts[i] == r.value[i - 1];
      assert LowerResult(Ok(ts), k).value == [LowerToken(t, k)] + LowerResult(r, k).value;
    }
  }

  /** Two texts joined by a line end lex to the tokens of the first, the line end, and the tokens of the second moved down. */
  lemma LexingIsCompositional(a: string, b: string)
    requires TokensOf(a).Ok?
    ensures TokensOf(a).value != []
    ensures var ts := TokensOf(a).value;
      var end := Last(ts);
      TokensOf(a + "\n" + b)
      == Prepend(Front(ts) + [Token(TokenType.Newline, "\n", end.line, end.col)], LowerResult(TokensOf(b), end.line))
  {
    hide Lex;
    LexLines(a, b, START, true);
    var ts := TokensOf(a).value;
    var end := Last(ts);
    LexLower(b, START, true, end.line);
    assert Lower(START, end.line) == Position(end.line + 1, 1);
    PrependTwice(Front(ts), [Token(TokenType.Newline, "\n", end.line, end.col)], LowerResult(TokensOf(b), end.line));
  }

  // ---- The prompt ----

  /**
   * An error in front of the end of what was typed, or in a last number that is none, is final: whatever lines follow, the input stays
   * rejected, with the same error unless those lines cannot even be lexed.
   */
  lemma FurtherLinesKeepTheError(a: string, b: string, arities: Arities)
    requires TokensOf(a).Ok?
    ensures Ended(TokensOf(a).value)
    ensures var ts := TokensOf(a).value;
      var r := Grammar.Parse(ts, arities);
      IsFinal(r, |ts| - 1) ==>
        && Check(a, arities) == Rejected(r.error)
        && Check(a + "\n" + b, arities) ==
             Rejected(if TokensOf(b).Ok? then r.error else LowerResult(TokensOf(b), Last(ts).line).error)
  {
    hide Lex, Grammar.Parse;
    LexEndsOnce(a, START, true);
    LexingIsCompositional(a, b);
    var ts := TokensOf(a).value;
    var r := Grammar.Parse(ts, arities);
    if IsFinal(r, |ts| - 1) && TokensOf(b).Ok? {
      LexEndsOnce(a + "\n" + b, START, true);
      var end := Last(ts);
      var more := [Token(TokenType.Newline, "\n", end.line, end.col)] + LowerResult(TokensOf(b), end.line).value;
      assert ts == Front(ts) + [end];
      assert TokensOf(a + "\n" + b).value == Front(ts) + more;
      ErrorsArePermanent(Front(ts), [end], more, arities);
    }
  }

  /** And more lines are asked for only when everything typed so far has been understood. */
  lemma MoreIsAskedForAtTheEnd(a: string, arities: Arities)
    requires Check(a, arities) == NeedsMore
    ensures TokensOf(a).Ok? && Ended(TokensOf(a).value)
    ensures Grammar.Parse(TokensOf(a).value, arities).state.pos == |TokensOf(a).value| - 1
  {
    hide Lex, Grammar.Parse;
    LexEndsOnce(a, START, true);
    var ts := TokensOf(a).value;
    assert ts == Front(ts) + [Last(ts)];
    IncompleteMeansAllRead(Front(ts), Last(ts), arities);
  }

  /** The tokens of two texts joined by a line end go on where those of the first have ended. */
  lemma LinesContinue(a: string, b: string)
    requires TokensOf(a).Ok? && TokensOf(a + "\n" + b).Ok?
    ensures var ts, us := TokensOf(a).value, TokensOf(a + "\n" + b).value;
      Ended(ts) && Continued(ts, us, |ts| - 1)
  {
    hide Lex;
    LexEndsOnce(a, START, true);
    LexEndsOnce(a + "\n" + b, START, true);
    LexingIsCompositional(a, b);
    var ts, us := TokensOf(a).value, TokensOf(a + "\n" + b).value;
    var line := Token(TokenType.Newline, "\n", Last(ts).line, Last(ts).col);
    assert us == Front(ts) + ([line] + LowerResult(TokensOf(b), Last(ts).line).value);
    assert us[|ts| - 1] == line;
  }

  /**
   * Only an open bracket or an open definition waits for further lines. Whatever else the parser has found wrong or
   * missing, also at the very end and also where the prompt then asks for more, stays wrong on every further line.
   */
  lemma OnlyOpenInputWaits(a: string, b: string, arities: Arities)
    requires TokensOf(a).Ok?
    ensures Ended(TokensOf(a).value)
    ensures var r := Grammar.Parse(TokensOf(a).value, arities);
      r.Fail? && !IsOpen(r.error) ==> Check(a + "\n" + b, arities).Rejected?
  {
    hide Lex, Grammar.Parse;
    LexEndsOnce(a, START, true);
    var ts := TokensOf(a).value;
    var r := Grammar.Parse(ts, arities);
    if r.Fail? && !IsOpen(r.error) && TokensOf(a + "\n" + b).Ok? {
      LinesContinue(a, b);
      OnlyOpenInputGoesOn(ts, TokensOf(a + "\n" + b).value, |ts| - 1, arities);
    }
  }
}
