/** Every kind of lexeme, told character by character: what it is, what it becomes, and where the lexer stands behind it. */
module Lexemes {
  import opened Tokens
  import opened Tokenizer

  // ---- Characters, each named ----

  /** The characters that end every word. */
  predicate IsBreak(c: char) {
    c in {' ', '\t', '\r', '\n', '[', ']', '(', ')', ';'}
  }

  predicate IsSign(c: char) {
    c in {'+', '-', '*', '/', '=', '<', '>'}
  }

  /** A bare word consists of these. */
  predicate IsLetter(c: char) {
    !IsBreak(c) && !IsSign(c) && c != '"' && c != ':'
  }

  predicate IsFigure(c: char) {
    c in {'0', '1', '2', '3', '4', '5', '6', '7', '8', '9'}
  }

  predicate Numeric(c: char) {
    IsFigure(c) || c == '.'
  }

  /** The text behind a lexeme does not go on with such characters. */
  predicate Ends(rest: string, more: char -> bool) {
    rest == "" || !more(rest[0])
  }

  predicate BeginsNumber(s: string) {
    s != "" && (IsFigure(s[0]) || (s[0] == '.' && |s| > 1 && IsFigure(s[1])))
  }

  /** `v` is `w` with its 26 capital letters, `A` to `Z`, made small and nothing else changed. */
  predicate IsLowered(v: string, w: string) {
    |v| == |w| && forall i :: 0 <= i < |w| ==>
      if 'A' <= w[i] <= 'Z' then v[i] as int == w[i] as int + 32 else v[i] == w[i]
  }

  /** Behind a token on the line. */
  function Right(p: Position, n: nat): Position {
    Position(p.line, p.col + n)
  }

  /** The token in front, and the lexing of the rest from where it ends. */
  ghost predicate LexesTo(s: string, p: Position, negative: bool, t: Token, rest: string, q: Position, then0: bool) {
    Lex(s, p, negative) == Prepend([t], Lex(rest, q, then0))
  }

  // ---- Stretches of text ----

  lemma RunIsPrefix(cl: Class, x: string, rest: string)
    requires (forall i :: 0 <= i < |x| ==> cl.Has(x[i])) && (rest == "" || !cl.Has(rest[0]))
    ensures Run(cl, x + rest) == |x| && (x + rest)[..|x|] == x && (x + rest)[|x|..] == rest
  {
    var s := x + rest;
    assert forall i :: 0 <= i < |x| ==> s[i] == x[i];
    assert |x| < |s| ==> s[|x|] == rest[0];
    RunIs(cl, s, |x|);
  }

  lemma {:induction false} WalksRight(p: Position, x: string)
    requires forall i :: 0 <= i < |x| ==> x[i] != '\n'
    ensures Walk(p, x) == Right(p, |x|)
    decreases |x|
  {
    if x != "" {
      WalksRight(p, x[..|x| - 1]);
    }
  }

  lemma LexesAny(x: string, rest: string, p: Position, negative: bool, kind: TokenType, value: string)
    requires x != "" && x[0] != ';' && Scan(x + rest, negative) == Emit(kind, value, |x|)
    ensures var q := Walk(p, x); LexesTo(x + rest, p, negative, Placed(kind, value, p, q), rest, q, AllowsNegative(kind))
  {
    hide Scan, Walk;
    assert (x + rest)[..|x|] == x && (x + rest)[|x|..] == rest;
  }

  /** One lexeme that lies on one line. */
  lemma LexesOne(x: string, rest: string, p: Position, negative: bool, kind: TokenType, value: string)
    requires x != "" && x[0] != ';' && forall i :: 0 <= i < |x| ==> x[i] != '\n'
    requires Scan(x + rest, negative) == Emit(kind, value, |x|)
    ensures LexesTo(x + rest, p, negative, Token(kind, value, p.line, p.col), rest, Right(p, |x|), AllowsNegative(kind))
  {
    hide Scan, Walk;
    assert (x + rest)[..|x|] == x && (x + rest)[|x|..] == rest;
    WalksRight(p, x);
  }

  // ---- Words, variables and numbers ----

  /** A bare word is in lower case, however it was typed. */
  lemma LexesWord(w: string, rest: string, p: Position, negative: bool) returns (v: string)
    requires w != "" && (forall i :: 0 <= i < |w| ==> IsLetter(w[i])) && !BeginsNumber(w) && Ends(rest, IsLetter)
    requires w == "." ==> Ends(rest, IsFigure)
    ensures IsLowered(v, w)
    ensures LexesTo(w + rest, p, negative, Token(TokenType.Word, v, p.line, p.col), rest, Right(p, |w|), false)
  {
    hide Lex, Walk, Run;
    v := ToLower(w);
    RunIsPrefix(WordText, w, rest);
    var s := w + rest;
    assert s[0] == w[0] && (|w| > 1 ==> s[1] == w[1]) && (|w| == 1 && rest != "" ==> s[1] == rest[0]);
    assert Scan(s, negative) == Emit(TokenType.Word, v, |w|);
    LexesOne(w, rest, p, negative, TokenType.Word, v);
  }

  /** The name of a variable too; operators end it, quotes and colons do not. */
  lemma LexesVariable(w: string, rest: string, p: Position, negative: bool) returns (v: string)
    requires w != "" && (forall i :: 0 <= i < |w| ==> !IsBreak(w[i]) && !IsSign(w[i])) && Ends(rest, c => !IsBreak(c) && !IsSign(c))
    ensures IsLowered(v, w)
    ensures LexesTo(":" + w + rest, p, negative, Token(TokenType.Variable, v, p.line, p.col), rest, Right(p, 1 + |w|), false)
  {
    hide Lex, Walk, Run;
    v := ToLower(w);
    RunIsPrefix(VariableText, w, rest);
    var s := ":" + w + rest;
    assert s[1..] == w + rest && s[1..1 + |w|] == w && s[0] == ':';
    assert Scan(s, negative) == Emit(TokenType.Variable, v, 1 + |w|);
    LexesOne(":" + w, rest, p, negative, TokenType.Variable, v);
  }

  lemma ColonAlone(rest: string, p: Position, negative: bool)
    requires Ends(rest, c => !IsBreak(c) && !IsSign(c))
    ensures Lex(":" + rest, p, negative) == Err(Syntax(ExpectedVariableName, p.line, p.col + 1))
  {
    hide Walk, Run;
    RunIs(VariableText, rest, 0);
    var s := ":" + rest;
    assert s[1..] == rest && s[..1] == ":" && s[0] == ':';
    assert Scan(s, negative) == Stuck(ExpectedVariableName, 1);
    WalksRight(p, ":");
  }

  lemma LexesNumber(x: string, rest: string, p: Position, negative: bool)
    requires BeginsNumber(x) && (forall i :: 0 <= i < |x| ==> Numeric(x[i])) && Ends(rest, Numeric)
    ensures LexesTo(x + rest, p, negative, Token(TokenType.Number, x, p.line, p.col), rest, Right(p, |x|), false)
  {
    hide Lex, Walk, Run;
    RunIsPrefix(NumberText, x, rest);
    var s := x + rest;
    assert s[0] == x[0] && (|x| > 1 ==> s[1] == x[1]);
    assert Scan(s, negative) == Emit(TokenType.Number, x, |x|);
    LexesOne(x, rest, p, negative, TokenType.Number, x);
  }

  /** Where a negative number may stand, a minus sign before a figure belongs to it. */
  lemma LexesNegative(x: string, rest: string, p: Position)
    requires x != "" && IsFigure(x[0]) && (forall i :: 0 <= i < |x| ==> Numeric(x[i])) && Ends(rest, Numeric)
    ensures LexesTo("-" + x + rest, p, true, Token(TokenType.Number, "-" + x, p.line, p.col), rest, Right(p, 1 + |x|), false)
  {
    hide Lex, Walk, Run;
    RunIsPrefix(NumberText, x, rest);
    var s := "-" + x + rest;
    assert s[0] == '-' && s[1] == x[0] && s[1..] == x + rest && s[..1 + |x|] == "-" + x;
    assert Scan(s, true) == Emit(TokenType.Number, "-" + x, 1 + |x|);
    LexesOne("-" + x, rest, p, true, TokenType.Number, "-" + x);
  }

  // ---- Which lexemes are numbers ----

  predicate Figures(s: string) {
    forall i :: 0 <= i < |s| ==> IsFigure(s[i])
  }

  /** Figures only, and at least one; or a point between figures, of which one side may be missing. */
  ghost predicate IsDecimal(s: string) {
    (s != "" && Figures(s)) || exists n :: 0 <= n < |s| && HasPointAt(s, n)
  }

  predicate HasPointAt(s: string, n: nat)
    requires n < |s|
  {
    s[n] == '.' && Figures(s[..n]) && Figures(s[n + 1..]) && |s| > 1
  }

  lemma {:induction false} NoDots(s: string)
    ensures CountDots(s) == 0 <==> forall i :: 0 <= i < |s| ==> s[i] != '.'
    decreases s
  {
    if s != "" {
      NoDots(s[1..]);
      assert forall i :: 0 < i < |s| ==> s[i] == s[1..][i - 1];
    }
  }

  lemma {:induction false} DotsAt(s: string, n: nat)
    requires n < |s| && s[n] == '.' && forall i :: 0 <= i < n ==> s[i] != '.'
    ensures CountDots(s) == 1 + CountDots(s[n + 1..])
    decreases n
  {
    if n > 0 {
      DotsAt(s[1..], n - 1);
      assert s[1..][n..] == s[n + 1..];
    }
  }

  /** A lexeme without a sign is taken for a number exactly if it is a decimal. */
  lemma UnsignedIff(s: string)
    ensures IsUnsignedNumber(s) <==> IsDecimal(s)
  {
    hide CountDots, IsFigure;
    NoDots(s);
    forall c: char ensures IsDigit(c) <==> IsFigure(c) {
      FigureIs(c);
    }
    FigureIs('.');
    if forall i :: 0 <= i < |s| ==> s[i] != '.' {
      assert s != "" && Figures(s) ==> IsDigit(s[0]);
    } else {
      var n := FirstPoint(s);
      DotsAt(s, n);
      NoDots(s[n + 1..]);
      assert forall i :: n < i < |s| ==> s[i] == s[n + 1..][i - n - 1];
      PointAt(s, n);
      var k := if n == 0 then 1 else 0;
      assert |s| > 1 && IsFigure(s[k]) ==> IsDigit(s[k]);
    }
  }

  lemma FigureIs(c: char)
    ensures IsDigit(c) <==> IsFigure(c)
    ensures c == '.' ==> !IsFigure(c)
  {
  }

  lemma {:induction false} FirstPoint(s: string) returns (n: nat)
    requires exists i :: 0 <= i < |s| && s[i] == '.'
    ensures n < |s| && s[n] == '.' && forall i :: 0 <= i < n ==> s[i] != '.'
    decreases s
  {
    if s[0] == '.' {
      n := 0;
    } else {
      n := FirstPoint(s[1..]);
      n := n + 1;
    }
  }

  /** With its first point at `n`, a text is a decimal exactly if the point stands between figures. */
  lemma PointAt(s: string, n: nat)
    requires n < |s| && s[n] == '.' && forall i :: 0 <= i < n ==> s[i] != '.'
    ensures IsDecimal(s) <==> HasPointAt(s, n)
    ensures HasPointAt(s, n) <==> |s| > 1 && forall i :: 0 <= i < |s| && i != n ==> IsFigure(s[i])
  {
    FigureIs('.');
    forall m | n < m < |s| ensures !HasPointAt(s, m) {
      assert s[..m][n] == s[n];
    }
    if HasPointAt(s, n) {
      forall i | n < i < |s| ensures IsFigure(s[i]) {
        assert s[n + 1..][i - n - 1] == s[i];
      }
      forall i | 0 <= i < n ensures IsFigure(s[i]) {
        assert s[..n][i] == s[i];
      }
    }
  }

  /** And with a minus sign in front. */
  lemma NumberIff(s: string)
    ensures IsNumber("-" + s) <==> IsDecimal(s)
    ensures (s == "" || s[0] != '-') ==> (IsNumber(s) <==> IsDecimal(s))
  {
    hide IsUnsignedNumber, IsDecimal;
    assert ("-" + s)[1..] == s;
    UnsignedIff(s);
  }

  // ---- Operators and brackets ----

  predicate IsPair(c: char, d: char) {
    (c == '>' && d == '=') || (c == '<' && d == '=') || (c == '<' && d == '>')
  }

  lemma LexesOperator(c: char, rest: string, p: Position, negative: bool)
    requires IsSign(c) && (rest != "" ==> !IsPair(c, rest[0]))
    requires c == '-' && negative ==> Ends(rest, IsFigure)
    ensures LexesTo([c] + rest, p, negative, Token(TokenType.Infix, [c], p.line, p.col), rest, Right(p, 1), true)
  {
    hide Lex, Walk, Run;
    var s := [c] + rest;
    assert s[0] == c && (rest != "" ==> s[1] == rest[0]) && s[..1] == [c];
    assert Scan(s, negative) == Emit(TokenType.Infix, [c], 1);
    LexesOne([c], rest, p, negative, TokenType.Infix, [c]);
  }

  lemma LexesPair(c: char, d: char, rest: string, p: Position, negative: bool)
    requires IsPair(c, d)
    ensures LexesTo([c, d] + rest, p, negative, Token(TokenType.Infix, [c, d], p.line, p.col), rest, Right(p, 2), true)
  {
    hide Lex, Walk, Run;
    var s := [c, d] + rest;
    assert s[0] == c && s[1] == d && s[..2] == [c, d];
    assert Scan(s, negative) == Emit(TokenType.Infix, [c, d], 2);
    LexesOne([c, d], rest, p, negative, TokenType.Infix, [c, d]);
  }

  lemma LexesBracket(c: char, rest: string, p: Position, negative: bool)
    requires c in {'[', ']', '(', ')'}
    ensures var kind := if c == '[' then TokenType.OpenBracket else if c == ']' then TokenType.CloseBracket
                        else if c == '(' then TokenType.OpenParen else TokenType.CloseParen;
      LexesTo([c] + rest, p, negative, Token(kind, [c], p.line, p.col), rest, Right(p, 1), c == '[' || c == '(')
  {
    hide Lex, Walk, Run;
    var s := [c] + rest;
    assert s[0] == c;
    var kind := if c == '[' then TokenType.OpenBracket else if c == ']' then TokenType.CloseBracket
                else if c == '(' then TokenType.OpenParen else TokenType.CloseParen;
    assert Scan(s, negative) == Emit(kind, [c], 1);
    LexesOne([c], rest, p, negative, kind, [c]);
  }

  // ---- What is passed over, and line ends ----

  /** Blanks, tabs and carriage returns are passed over, one column each. */
  lemma LexesBlank(c: char, rest: string, p: Position, negative: bool)
    requires c in {' ', '\t', '\r'}
    ensures Lex([c] + rest, p, negative) == Lex(rest, Right(p, 1), negative)
  {
    hide Walk;
    var s := [c] + rest;
    assert s[0] == c && s[..1] == [c] && s[1..] == rest;
    assert Scan(s, negative) == Skip(1);
    WalksRight(p, [c]);
  }

  lemma LexesLineEnd(rest: string, p: Position, negative: bool)
    ensures LexesTo("\n" + rest, p, negative, Token(TokenType.Newline, "\n", p.line, p.col), rest, Position(p.line + 1, 1), true)
  {
    var s := "\n" + rest;
    assert s[0] == '\n' && s[..1] == "\n" && s[1..] == rest;
    assert Scan(s, negative) == Emit(TokenType.Newline, "\n", 1);
    assert "\n"[..0] == "";
    assert Walk(p, "\n") == Position(p.line + 1, 1);
  }

  /** A comment runs up to the line end, which it leaves; the column stays where the comment started. */
  lemma LexesComment(text: string, rest: string, p: Position, negative: bool)
    requires (forall i :: 0 <= i < |text| ==> text[i] != '\n') && (rest == "" || rest[0] == '\n')
    ensures Lex(";" + text + rest, p, negative) == Lex(rest, p, negative)
  {
    hide Walk, Run;
    var x := ";" + text;
    RunIsPrefix(CommentText, x, rest);
    var s := x + rest;
    assert s == ";" + text + rest && s[0] == ';';
    assert Scan(s, negative) == Skip(|x|);
  }

  // ---- Quoted words ----

  /** A quoted word is kept as it is typed, capitals included. */
  lemma LexesQuoted(t: string, rest: string, p: Position, negative: bool)
    requires (forall i :: 0 <= i < |t| ==> !IsBreak(t[i])) && Ends(rest, c => !IsBreak(c)) && (t != "" ==> t[0] != '|')
    ensures LexesTo("\"" + t + rest, p, negative, Token(TokenType.QuotedWord, t, p.line, p.col), rest, Right(p, 1 + |t|), false)
  {
    hide Lex, Walk, Run, Scan;
    RunIsPrefix(QuotedText, t, rest);
    var s := "\"" + t + rest;
    assert s[1..] == t + rest && s[1..1 + |t|] == t && s[0] == '"' && (t != "" ==> s[1] == t[0]) && (t == "" && rest != "" ==> s[1] == rest[0]);
    PlainQuotedScan(s, |t|);
    LexesOne("\"" + t, rest, p, negative, TokenType.QuotedWord, t);
  }

  /** The number of line ends in a text. */
  function LineEnds(s: string): nat {
    if s == "" then 0 else LineEnds(s[..|s| - 1]) + if s[|s| - 1] == '\n' then 1 else 0
  }

  /** The characters behind the last line end. */
  function LastLine(s: string): nat {
    if s == "" then 0 else if s[|s| - 1] == '\n' then 0 else 1 + LastLine(s[..|s| - 1])
  }

  /** Walking over a text counts its line ends and the columns of its last line. */
  lemma {:induction false} WalkCounts(p: Position, s: string)
    ensures Walk(p, s) == if LineEnds(s) == 0 then Position(p.line, p.col + |s|) else Position(p.line + LineEnds(s), 1 + LastLine(s))
    ensures LineEnds(s) == 0 ==> LastLine(s) == |s|
    decreases |s|
  {
    if s != "" {
      WalkCounts(p, s[..|s| - 1]);
    }
  }

  /** A word in bars may hold anything but a bar; its token stands on the line of the closing bar, in the column of the quote. */
  lemma LexesBarred(t: string, rest: string, p: Position, negative: bool)
    requires forall i :: 0 <= i < |t| ==> t[i] != '|'
    ensures var q := if LineEnds(t) == 0 then Right(p, 3 + |t|) else Position(p.line + LineEnds(t), 2 + LastLine(t));
      LexesTo("\"|" + t + "|" + rest, p, negative, Token(TokenType.QuotedWord, t, p.line + LineEnds(t), p.col), rest, q, false)
  {
    hide Walk, Scan, LineEnds, LastLine, LexesTo;
    var x := "\"|" + t + "|";
    ScansBarred(t, rest, negative);
    LexesAny(x, rest, p, negative, TokenType.QuotedWord, t);
    WalkCounts(p, x);
    BarsCount(t);
  }

  lemma ScansBarred(t: string, rest: string, negative: bool)
    requires forall i :: 0 <= i < |t| ==> t[i] != '|'
    ensures Scan("\"|" + t + "|" + rest, negative) == Emit(TokenType.QuotedWord, t, |t| + 3)
  {
    hide Run, Scan;
    var s := "\"|" + t + "|" + rest;
    assert s[2..] == t + ("|" + rest) && s[0] == '"' && s[1] == '|';
    RunIsPrefix(BarText, t, "|" + rest);
    BarWordScan(s, |t| + 2);
    assert s[2..|t| + 2] == t;
  }

  lemma BarsCount(t: string)
    ensures var x := "\"|" + t + "|"; LineEnds(x) == LineEnds(t) && (LineEnds(t) > 0 ==> LastLine(x) == LastLine(t) + 1)
  {
    var x, front := "\"|" + t + "|", "\"|" + t;
    assert x[..|x| - 1] == front;
    assert LineEnds(front) == LineEnds(t) && (LineEnds(t) > 0 ==> LastLine(front) == LastLine(t)) by {
      FrontCounts("\"|", t);
    }
  }

  lemma {:induction false} FrontCounts(front: string, t: string)
    requires forall i :: 0 <= i < |front| ==> front[i] != '\n'
    ensures LineEnds(front + t) == LineEnds(t) && (LineEnds(t) > 0 ==> LastLine(front + t) == LastLine(t))
    decreases |t|
  {
    if t == "" {
      assert front + t == front;
      NoLineEnds(front);
    } else {
      assert (front + t)[..|front + t| - 1] == front + t[..|t| - 1];
      FrontCounts(front, t[..|t| - 1]);
    }
  }

  lemma {:induction false} NoLineEnds(s: string)
    requires forall i :: 0 <= i < |s| ==> s[i] != '\n'
    ensures LineEnds(s) == 0
    decreases |s|
  {
    if s != "" {
      NoLineEnds(s[..|s| - 1]);
    }
  }

  /** A word in bars without the second bar is an error at the end of the text. */
  lemma MissingBarIs(t: string, p: Position, negative: bool)
    requires forall i :: 0 <= i < |t| ==> t[i] != '|'
    ensures var q := if LineEnds(t) == 0 then Right(p, 2 + |t|) else Position(p.line + LineEnds(t), 1 + LastLine(t));
      Lex("\"|" + t, p, negative) == Err(Syntax(MissingBar, q.line, q.col))
  {
    hide Walk, Run;
    var s := "\"|" + t;
    assert s[2..] == t && s[0] == '"' && s[1] == '|' && t + "" == t && s[..|s|] == s;
    RunIsPrefix(BarText, t, "");
    assert Scan(s, negative) == Stuck(MissingBar, |s|);
    WalkCounts(p, s);
    FrontCounts("\"|", t);
  }

  // ---- Whole texts ----

  /** A text that is one bare word. */
  lemma OneWord(w: string) returns (v: string)
    requires w != "" && (forall i :: 0 <= i < |w| ==> IsLetter(w[i])) && !BeginsNumber(w)
    ensures IsLowered(v, w)
    ensures TokensOf(w) == Ok([Token(TokenType.Word, v, 1, 1), Token(TokenType.Eof, "", 1, 1 + |w|)])
  {
    v := LexesWord(w, "", START, true);
    assert w + "" == w;
    assert Lex("", Right(START, |w|), false) == Ok([Token(TokenType.Eof, "", 1, 1 + |w|)]);
    assert [Token(TokenType.Word, v, 1, 1)] + [Token(TokenType.Eof, "", 1, 1 + |w|)]
        == [Token(TokenType.Word, v, 1, 1), Token(TokenType.Eof, "", 1, 1 + |w|)];
  }

  lemma OneVariable(w: string) returns (v: string)
    requires w != "" && forall i :: 0 <= i < |w| ==> !IsBreak(w[i]) && !IsSign(w[i])
    ensures IsLowered(v, w)
    ensures TokensOf(":" + w) == Ok([Token(TokenType.Variable, v, 1, 1), Token(TokenType.Eof, "", 1, 2 + |w|)])
  {
    v := LexesVariable(w, "", START, true);
    assert ":" + w + "" == ":" + w;
    assert Lex("", Right(START, 1 + |w|), false) == Ok([Token(TokenType.Eof, "", 1, 2 + |w|)]);
    assert [Token(TokenType.Variable, v, 1, 1)] + [Token(TokenType.Eof, "", 1, 2 + |w|)]
        == [Token(TokenType.Variable, v, 1, 1), Token(TokenType.Eof, "", 1, 2 + |w|)];
  }

  /** The end of every text that lexes stands on the line that its line ends make. */
  lemma {:induction false} EndLine(s: string, p: Position, negative: bool)
    requires Lex(s, p, negative).Ok?
    ensures var ts := Lex(s, p, negative).value; ts != [] && ts[|ts| - 1].line == p.line + LineEnds(s)
    decreases |s|
  {
    hide Scan, Walk;
    if s != [] {
      var l := Scan(s, negative);
      var x, rest := s[..l.length], s[l.length..];
      assert s == x + rest;
      JoinCounts(x, rest);
      WalkCounts(p, x);
      CommentHasNoLineEnd(s, negative);
      EndLine(rest, Past(p, x), if l.Emit? then AllowsNegative(l.kind) else negative);
    }
  }

  lemma {:induction false} JoinCounts(a: string, b: string)
    ensures LineEnds(a + b) == LineEnds(a) + LineEnds(b)
    decreases |b|
  {
    if b == "" {
      assert a + b == a;
    } else {
      assert (a + b)[..|a + b| - 1] == a + b[..|b| - 1];
      JoinCounts(a, b[..|b| - 1]);
    }
  }

  lemma CommentHasNoLineEnd(s: string, negative: bool)
    requires s != []
    ensures s[0] == ';' ==> LineEnds(s[..Scan(s, negative).length]) == 0
  {
    if s[0] == ';' {
      var x := s[..Scan(s, negative).length];
      assert forall i :: 0 <= i < |x| ==> x[i] == s[i] && CommentText.Has(s[i]);
      NoLineEnds(x);
    }
  }
}
