/** The hand-written lexer: its meaning as a function, and the loop that computes it. */
module Tokenizer {
  import opened Tokens

  // ---- Character classes ----

  predicate IsInfix(c: char) {
    c == '+' || c == '-' || c == '*' || c == '/' || c == '=' || c == '<' || c == '>'
  }

  predicate IsBlank(c: char) {
    c == ' ' || c == '\t' || c == '\r'
  }

  predicate IsQuotedWordDelimiter(c: char) {
    IsBlank(c) || c == '\n' || c == '[' || c == ']' || c == '(' || c == ')' || c == ';'
  }

  predicate IsDelimiter(c: char) {
    IsQuotedWordDelimiter(c) || IsInfix(c)
  }

  predicate IsWordChar(c: char) {
    !IsDelimiter(c) && c != '"' && c != ':'
  }

  predicate IsTwoCharOp(c: char, d: char) {
    (c == '>' && d == '=') || (c == '<' && (d == '=' || d == '>'))
  }

  /** The sets of characters that the inner loops run over. */
  datatype Class = CommentText | BarText | NumberText | QuotedText | VariableText | WordText {
    predicate Has(c: char) {
      match this
      case CommentText => c != '\n'
      case BarText => c != '|'
      case NumberText => IsDigit(c) || c == '.'
      case QuotedText => !IsQuotedWordDelimiter(c)
      case VariableText => !IsDelimiter(c)
      case WordText => IsWordChar(c)
    }
  }

  /** Length of the longest prefix of `s` whose characters are all in `cl`. */
  function Run(cl: Class, s: string): (n: nat)
    ensures n <= |s|
    ensures forall k :: 0 <= k < n ==> cl.Has(s[k])
    ensures n < |s| ==> !cl.Has(s[n])
  {
    if s == [] || !cl.Has(s[0]) then 0 else 1 + Run(cl, s[1..])
  }

  lemma RunIs(cl: Class, s: string, n: nat)
    requires n <= |s|
    requires forall k :: 0 <= k < n ==> cl.Has(s[k])
    requires n < |s| ==> !cl.Has(s[n])
    ensures Run(cl, s) == n
  {
    var m := Run(cl, s);
    assert !(m < n);
    assert !(n < m);
  }

  // ---- One lexeme ----

  datatype Lexeme =
    | Skip(length: nat)
    | Emit(kind: TokenType, value: string, length: nat)
    | Stuck(message: Message, length: nat)

  predicate StartsNumber(s: string) {
    s != [] && (IsDigit(s[0]) || (s[0] == '.' && |s| > 1 && IsDigit(s[1])))
  }

  function ScanInfix(s: string, negative: bool): (r: Lexeme)
    requires s != [] && IsInfix(s[0])
    ensures 0 < r.length <= |s|
    ensures r.Emit? ==> r.kind != TokenType.Eof
  {
    if s[0] == '-' && |s| > 1 && IsDigit(s[1]) && negative then
      var n := 1 + Run(NumberText, s[1..]);
      Emit(TokenType.Number, s[..n], n)
    else if |s| > 1 && IsTwoCharOp(s[0], s[1]) then
      Emit(TokenType.Infix, s[..2], 2)
    else
      Emit(TokenType.Infix, s[..1], 1)
  }

  function ScanQuoted(s: string): (r: Lexeme)
    requires s != [] && s[0] == '"'
    ensures 0 < r.length <= |s|
    ensures r.Emit? ==> r.kind != TokenType.Eof
  {
    if |s| > 1 && s[1] == '|' then
      var n := Run(BarText, s[2..]);
      if 2 + n == |s| then
        Stuck(MissingBar, |s|)
      else
        Emit(TokenType.QuotedWord, s[2..2 + n], n + 3)
    else
      var n := Run(QuotedText, s[1..]);
      Emit(TokenType.QuotedWord, s[1..1 + n], n + 1)
  }

  /**
   * The lexeme at the front of `s`. `negative` says whether a minus sign followed by a digit
   * starts a number here.
   */
  function Scan(s: string, negative: bool): (r: Lexeme)
    requires s != []
    ensures 0 < r.length <= |s|
    ensures r.Emit? ==> r.kind != TokenType.Eof
  {
    var c := s[0];
    if c == ';' then Skip(Run(CommentText, s))
    else if IsBlank(c) then Skip(1)
    else if c == '\n' then Emit(TokenType.Newline, "\n", 1)
    else if c == '[' then Emit(TokenType.OpenBracket, "[", 1)
    else if c == ']' then Emit(TokenType.CloseBracket, "]", 1)
    else if c == '(' then Emit(TokenType.OpenParen, "(", 1)
    else if c == ')' then Emit(TokenType.CloseParen, ")", 1)
    else if IsInfix(c) then ScanInfix(s, negative)
    else if StartsNumber(s) then
      var n := Run(NumberText, s);
      Emit(TokenType.Number, s[..n], n)
    else if c == '"' then ScanQuoted(s)
    else if c == ':' then
      var n := Run(VariableText, s[1..]);
      if n == 0 then Stuck(ExpectedVariableName, 1)
      else Emit(TokenType.Variable, ToLower(s[1..1 + n]), n + 1)
    else if IsWordChar(c) then
      var n := Run(WordText, s);
      Emit(TokenType.Word, ToLower(s[..n]), n)
    else
      Stuck(UnexpectedCharacter(c), 1)
  }

  /** The tokens after which `-5` is one number. */
  predicate AllowsNegative(kind: TokenType) {
    kind.OpenBracket? || kind.OpenParen? || kind.Infix? || kind.Newline?
  }

  predicate NegativeAfter(tokens: seq<Token>) {
    tokens == [] || AllowsNegative(tokens[|tokens| - 1].kind)
  }

  // ---- Source positions ----

  datatype Position = Position(line: nat, col: nat)

  const START := Position(1, 1)

  function Step(p: Position, c: char): Position {
    if c == '\n' then Position(p.line + 1, 1) else Position(p.line, p.col + 1)
  }

  function Walk(p: Position, text: string): Position {
    if text == [] then p else Step(Walk(p, text[..|text| - 1]), text[|text| - 1])
  }

  /** Where the scan stands after `text`: a comment does not advance the column. */
  function Past(p: Position, text: string): Position
    requires text != []
  {
    if text[0] == ';' then p else Walk(p, text)
  }

  /** A quoted word is reported at the line on which it ends, every other token at its start. */
  function Placed(kind: TokenType, value: string, p: Position, q: Position): Token {
    Token(kind, value, if kind == TokenType.QuotedWord then q.line else p.line, p.col)
  }

  // ---- The whole input ----

  function Prepend<T>(front: seq<T>, r: Result<seq<T>>): (r': Result<seq<T>>) {
    match r
    case Ok(rest) => Ok(front + rest)
    case Err(e) => Err(e)
  }

  /** The tokens of `s` when the scan stands at position `p`. */
  function Lex(s: string, p: Position, negative: bool): (r: Result<seq<Token>>)
    ensures r.Err? ==> r.error.Syntax?
    decreases |s|
  {
    if s == [] then
      Ok([Token(TokenType.Eof, "", p.line, p.col)])
    else
      match Scan(s, negative)
      case Skip(n) => Lex(s[n..], Past(p, s[..n]), negative)
      case Emit(kind, value, n) =>
        var q := Past(p, s[..n]);
        Prepend([Placed(kind, value, p, q)], Lex(s[n..], q, AllowsNegative(kind)))
      case Stuck(message, n) =>
        var q := Past(p, s[..n]);
        Err(Syntax(message, q.line, q.col))
  }

  function TokensOf(source: string): Result<seq<Token>> {
    Lex(source, START, true)
  }

  /** Every token list ends in an end-of-file token, and in no other place holds one. */
  lemma {:induction false} LexEndsOnce(s: string, p: Position, negative: bool)
    requires Lex(s, p, negative).Ok?
    ensures var ts := Lex(s, p, negative).value;
      ts != [] && ts[|ts| - 1].kind == TokenType.Eof &&
      forall i :: 0 <= i < |ts| - 1 ==> ts[i].kind != TokenType.Eof
    decreases |s|
  {
    hide Scan, Past;
    if s != [] {
      match Scan(s, negative)
      case Skip(n) => LexEndsOnce(s[n..], Past(p, s[..n]), negative);
      case Emit(kind, _, n) => LexEndsOnce(s[n..], Past(p, s[..n]), AllowsNegative(kind));
    }
  }

  // ---- Facts the loop needs ----

  lemma {:induction false} WalkSplit(p: Position, a: string, b: string)
    ensures Walk(p, a + b) == Walk(Walk(p, a), b)
    decreases |b|
  {
    if b == [] {
      assert a + b == a;
    } else {
      var b' := b[..|b| - 1];
      WalkSplit(p, a, b');
      assert (a + b)[..|a + b| - 1] == a + b';
    }
  }

  lemma {:induction false} WalkOneLine(p: Position, text: string)
    requires forall k :: 0 <= k < |text| ==> text[k] != '\n'
    ensures Walk(p, text) == Position(p.line, p.col + |text|)
    decreases |text|
  {
    if text != [] {
      WalkOneLine(p, text[..|text| - 1]);
    }
  }

  lemma WalkLineEnd(p: Position, text: string)
    requires text == "\n"
    ensures Walk(p, text) == Position(p.line + 1, 1)
  {
    assert text[..0] == [];
  }

  lemma PrependTwice<T>(a: seq<T>, b: seq<T>, r: Result<seq<T>>)
    ensures Prepend(a, Prepend(b, r)) == Prepend(a + b, r)
  {
    if r.Ok? {
      assert a + (b + r.value) == (a + b) + r.value;
    }
  }

  lemma PrependNothing<T>(r: Result<seq<T>>)
    ensures Prepend([], r) == r
  {
    if r.Ok? {
      assert [] + r.value == r.value;
    }
  }

  /** The state of the scan at index `i`: what was emitted is a prefix of what the whole input yields. */
  ghost predicate Scanned(source: string, i: nat, p: Position, tokens: seq<Token>) {
    i <= |source| &&
    TokensOf(source) == Prepend(tokens, Lex(source[i..], p, NegativeAfter(tokens)))
  }

  lemma ScanStarts(source: string)
    ensures Scanned(source, 0, START, [])
  {
    assert source[0..] == source;
    PrependNothing(TokensOf(source));
  }

  lemma ScanEnds(source: string, p: Position, tokens: seq<Token>)
    requires Scanned(source, |source|, p, tokens)
    ensures TokensOf(source) == Ok(tokens + [Token(TokenType.Eof, "", p.line, p.col)])
  {
    assert source[|source|..] == [];
  }

  lemma Skipped(source: string, i: nat, p: Position, tokens: seq<Token>, n: nat, q: Position)
    requires i < |source| && Scanned(source, i, p, tokens)
    requires Scan(source[i..], NegativeAfter(tokens)) == Skip(n)
    requires q == Past(p, source[i..i + n])
    ensures Scanned(source, i + n, q, tokens)
  {
    hide Scan, Walk, Past;
    assert source[i..][..n] == source[i..i + n];
    assert source[i..][n..] == source[i + n..];
  }

  lemma Emitted(source: string, i: nat, p: Position, tokens: seq<Token>,
                kind: TokenType, value: string, n: nat, q: Position)
    requires i < |source| && Scanned(source, i, p, tokens)
    requires Scan(source[i..], NegativeAfter(tokens)) == Emit(kind, value, n)
    requires q == Past(p, source[i..i + n])
    ensures Scanned(source, i + n, q, tokens + [Placed(kind, value, p, q)])
  {
    hide Scan, Walk, Past;
    assert source[i..][..n] == source[i..i + n];
    assert source[i..][n..] == source[i + n..];
    PrependTwice(tokens, [Placed(kind, value, p, q)], Lex(source[i + n..], q, AllowsNegative(kind)));
  }

  lemma Failed(source: string, i: nat, p: Position, tokens: seq<Token>, message: Message, n: nat)
    requires i < |source| && Scanned(source, i, p, tokens)
    requires Scan(source[i..], NegativeAfter(tokens)) == Stuck(message, n)
    ensures var q := Past(p, source[i..i + n]);
      TokensOf(source) == Err(Syntax(message, q.line, q.col))
  {
    hide Scan, Walk, Past;
    assert source[i..][..n] == source[i..i + n];
  }

  lemma BarWordScan(s: string, end: nat)
    requires 1 < end < |s| && s[0] == '"' && s[1] == '|' && end - 2 == Run(BarText, s[2..])
    ensures forall negative :: Scan(s, negative) == Emit(TokenType.QuotedWord, s[2..end], end + 1)
  {
  }

  lemma BarWordWalk(p: Position, source: string, i: nat, end: nat)
    requires i + 1 < end < |source| && source[i] == '"' && source[i + 1] == '|' && source[end] == '|'
    ensures var q := Walk(Position(p.line, p.col + 2), source[i + 2..end]);
      Past(p, source[i..end + 1]) == Position(q.line, q.col + 1)
  {
    WalkOneLine(p, source[i..i + 2]);
    WalkSplit(p, source[i..i + 2], source[i + 2..end]);
    assert source[i..i + 2] + source[i + 2..end] == source[i..end];
    assert source[i..end + 1][..end - i] == source[i..end];
  }

  /** A word in bars: its token stands on the line where the closing bar is. */
  lemma BarWord(source: string, i: nat, p: Position, tokens: seq<Token>, end: nat, q: Position)
    requires i + 1 < end < |source| && Scanned(source, i, p, tokens) && source[end] == '|'
    requires source[i] == '"' && source[i + 1] == '|' && end - (i + 2) == Run(BarText, source[i + 2..])
    requires q == Walk(Position(p.line, p.col + 2), source[i + 2..end])
    ensures Scanned(source, end + 1, Position(q.line, q.col + 1),
                    tokens + [Token(TokenType.QuotedWord, source[i + 2..end], q.line, p.col)])
  {
    hide Scanned, Walk, Run, Scan;
    BarWordScan(source[i..], end - i);
    BarWordWalk(p, source, i, end);
    assert source[i..][2..end - i] == source[i + 2..end];
    Emitted(source, i, p, tokens, TokenType.QuotedWord, source[i + 2..end], end + 1 - i, Position(q.line, q.col + 1));
  }

  lemma PlainQuotedScan(s: string, n: nat)
    requires s != [] && s[0] == '"' && !(|s| > 1 && s[1] == '|') && n == Run(QuotedText, s[1..])
    ensures forall negative :: Scan(s, negative) == Emit(TokenType.QuotedWord, s[1..1 + n], n + 1)
  {
  }

  lemma OpenBars(source: string, i: nat, p: Position, tokens: seq<Token>)
    requires i + 1 < |source| && Scanned(source, i, p, tokens)
    requires source[i] == '"' && source[i + 1] == '|' && |source| - (i + 2) == Run(BarText, source[i + 2..])
    ensures var q := Walk(Position(p.line, p.col + 2), source[i + 2..|source|]);
      TokensOf(source) == Err(Syntax(MissingBar, q.line, q.col))
  {
    hide Scanned, Lex, Walk, Run;
    assert source[i..][2..] == source[i + 2..] == source[i + 2..|source|];
    WalkOneLine(p, source[i..i + 2]);
    WalkSplit(p, source[i..i + 2], source[i + 2..]);
    assert source[i..i + 2] + source[i + 2..] == source[i..];
    assert source[i..i + (|source| - i)] == source[i..];
    Failed(source, i, p, tokens, MissingBar, |source| - i);
  }

  // ---- The loop ----

  /** An inner loop of the lexer: where the run of characters in `cl` that starts at `start` ends. */
  method ScanRun(cl: Class, chars: string, start: nat, col0: nat) returns (i: nat, col: nat)
    requires start <= |chars|
    ensures start <= i <= |chars| && i - start == Run(cl, chars[start..]) && col == col0 + (i - start)
    ensures !cl.CommentText? && !cl.BarText? ==> forall k :: start <= k < i ==> chars[k] != '\n'
  {
    hide Run;
    i, col := start, col0;
    while i < |chars| && cl.Has(chars[i])
      invariant start <= i <= |chars| && col == col0 + (i - start)
      invariant forall k :: start <= k < i ==> cl.Has(chars[k])
    {
      i := i + 1;
      col := col + 1;
    }
    RunIs(cl, chars[start..], i - start);
  }

  /** The loop over a word in bars, which alone may cross lines. */
  method ScanBars(chars: string, start: nat, p: Position) returns (i: nat, q: Position)
    requires start <= |chars|
    ensures start <= i <= |chars| && i - start == Run(BarText, chars[start..])
    ensures q == Walk(p, chars[start..i])
  {
    hide Run;
    i := start;
    var line, col := p.line, p.col;
    while i < |chars| && chars[i] != '|'
      invariant start <= i <= |chars|
      invariant forall k :: start <= k < i ==> chars[k] != '|'
      invariant Position(line, col) == Walk(p, chars[start..i])
    {
      assert chars[start..i + 1][..i - start] == chars[start..i];
      if chars[i] == '\n' {
        line := line + 1;
        col := 0;
      }
      i := i + 1;
      col := col + 1;
    }
    q := Position(line, col);
    RunIs(BarText, chars[start..], i - start);
  }

  /** Push a token that lies within one line. */
  method PushLine(source: string, i: nat, line: nat, col: nat, tokens: seq<Token>,
                  kind: TokenType, value: string, end: nat, endCol: nat)
    returns (i': nat, col': nat, tokens': seq<Token>)
    requires i < end <= |source| && endCol == col + (end - i)
    requires Scanned(source, i, Position(line, col), tokens)
    requires Scan(source[i..], NegativeAfter(tokens)) == Emit(kind, value, end - i)
    requires source[i] != ';' && forall k :: i <= k < end ==> source[k] != '\n'
    ensures i' == end && col' == endCol && tokens' == tokens + [Token(kind, value, line, col)]
    ensures Scanned(source, i', Position(line, col'), tokens')
  {
    hide Scanned, Scan, Walk;
    WalkOneLine(Position(line, col), source[i..end]);
    Emitted(source, i, Position(line, col), tokens, kind, value, end - i, Position(line, endCol));
    i', col', tokens' := end, endCol, tokens + [Token(kind, value, line, col)];
  }

  /** Infix operators, but not negative numbers. */
  method LexInfix(source: string, i: nat, line: nat, col: nat, tokens: seq<Token>)
    returns (i': nat, col': nat, tokens': seq<Token>)
    requires i < |source| && IsInfix(source[i]) && Scanned(source, i, Position(line, col), tokens)
    ensures i < i' <= |source| && Scanned(source, i', Position(line, col'), tokens')
  {
    hide Scanned, Walk, Run;
    var ch := source[i];
    assert source[i..][1..] == source[i + 1..];
    if ch == '-' && i + 1 < |source| && IsDigit(source[i + 1]) && NegativeAfter(tokens) {
      var end, c := ScanRun(NumberText, source, i + 1, col + 1);
      assert source[i..][..end - i] == source[i..end];
      i', col', tokens' := PushLine(source, i, line, col, tokens, TokenType.Number, source[i..end], end, c);
    } else if i + 1 < |source| && IsTwoCharOp(ch, source[i + 1]) {
      assert source[i..][..2] == source[i..i + 2];
      i', col', tokens' := PushLine(source, i, line, col, tokens, TokenType.Infix, source[i..i + 2], i + 2, col + 2);
    } else {
      assert source[i..][..1] == source[i..i + 1];
      i', col', tokens' := PushLine(source, i, line, col, tokens, TokenType.Infix, source[i..i + 1], i + 1, col + 1);
    }
  }

  /** Quoted words: `"hello` or `"|hello world|`. */
  method LexQuoted(source: string, i: nat, line: nat, col: nat, tokens: seq<Token>)
    returns (i': nat, line': nat, col': nat, tokens': seq<Token>, error: Option<LogoError>)
    requires i < |source| && source[i] == '"' && Scanned(source, i, Position(line, col), tokens)
    ensures error.None? ==> i < i' <= |source| && Scanned(source, i', Position(line', col'), tokens')
    ensures error.Some? ==> TokensOf(source) == Err(error.value)
  {
    hide Scanned, Walk, Run, Scan;
    ghost var p := Position(line, col);
    line', error := line, None;
    if i + 1 < |source| && source[i + 1] == '|' {
      var end, q := ScanBars(source, i + 2, Position(line, col + 2));
      if end >= |source| {
        OpenBars(source, i, p, tokens);
        return i, line, col, tokens, Some(Syntax(MissingBar, q.line, q.col));
      }
      BarWord(source, i, p, tokens, end, q);
      tokens' := tokens + [Token(TokenType.QuotedWord, source[i + 2..end], q.line, col)];
      i', line', col' := end + 1, q.line, q.col + 1;
    } else {
      var end, c := ScanRun(QuotedText, source, i + 1, col + 1);
      assert source[i..][1..] == source[i + 1..];
      assert source[i..][1..end - i] == source[i + 1..end];
      PlainQuotedScan(source[i..], end - i - 1);
      i', col', tokens' := PushLine(source, i, line, col, tokens, TokenType.QuotedWord, source[i + 1..end], end, c);
    }
  }

  /** A variable reference: `:name`. */
  method LexVariable(source: string, i: nat, line: nat, col: nat, tokens: seq<Token>)
    returns (i': nat, col': nat, tokens': seq<Token>, error: Option<LogoError>)
    requires i < |source| && source[i] == ':' && Scanned(source, i, Position(line, col), tokens)
    ensures error.None? ==> i < i' <= |source| && Scanned(source, i', Position(line, col'), tokens')
    ensures error.Some? ==> TokensOf(source) == Err(error.value)
  {
    hide Scanned, Walk, Run;
    var end, c := ScanRun(VariableText, source, i + 1, col + 1);
    assert source[i..][1..] == source[i + 1..];
    if end == i + 1 {
      WalkOneLine(Position(line, col), source[i..i + 1]);
      Failed(source, i, Position(line, col), tokens, ExpectedVariableName, 1);
      return i, col, tokens, Some(Syntax(ExpectedVariableName, line, c));
    }
    assert source[i..][1..end - i] == source[i + 1..end];
    i', col', tokens' := PushLine(source, i, line, col, tokens, TokenType.Variable, ToLower(source[i + 1..end]), end, c);
    error := None;
  }

  /** Numbers and bare words. */
  method LexWord(source: string, i: nat, line: nat, col: nat, tokens: seq<Token>)
    returns (i': nat, col': nat, tokens': seq<Token>)
    requires i < |source| && IsWordChar(source[i]) && Scanned(source, i, Position(line, col), tokens)
    ensures i < i' <= |source| && Scanned(source, i', Position(line, col'), tokens')
  {
    hide Scanned, Walk, Run;
    var ch := source[i];
    if IsDigit(ch) || (ch == '.' && i + 1 < |source| && IsDigit(source[i + 1])) {
      var end, c := ScanRun(NumberText, source, i, col);
      assert source[i..][..end - i] == source[i..end];
      i', col', tokens' := PushLine(source, i, line, col, tokens, TokenType.Number, source[i..end], end, c);
    } else {
      var end, c := ScanRun(WordText, source, i, col);
      assert source[i..][..end - i] == source[i..end];
      i', col', tokens' := PushLine(source, i, line, col, tokens, TokenType.Word, ToLower(source[i..end]), end, c);
    }
  }

  /** The lexer: one pass over the characters, with the line and column counted along. */
  method Tokenize(source: string) returns (r: Result<seq<Token>>)
    ensures r == TokensOf(source)
  {
    hide Scanned, Walk, Run;
    var tokens: seq<Token> := [];
    var i, line: nat, col: nat := 0, 1, 1;
    ScanStarts(source);
    while i < |source|
      invariant i <= |source| && Scanned(source, i, Position(line, col), tokens)
    {
      var ch := source[i];
      if ch == ';' {
        var end, _ := ScanRun(CommentText, source, i, col);
        Skipped(source, i, Position(line, col), tokens, end - i, Position(line, col));
        i := end;
      } else if IsBlank(ch) {
        WalkOneLine(Position(line, col), source[i..i + 1]);
        Skipped(source, i, Position(line, col), tokens, 1, Position(line, col + 1));
        i, col := i + 1, col + 1;
      } else if ch == '\n' {
        WalkLineEnd(Position(line, col), source[i..i + 1]);
        Emitted(source, i, Position(line, col), tokens, TokenType.Newline, "\n", 1, Position(line + 1, 1));
        tokens := tokens + [Token(TokenType.Newline, "\n", line, col)];
        i, line, col := i + 1, line + 1, 1;
      } else if ch == '[' {
        i, col, tokens := PushLine(source, i, line, col, tokens, TokenType.OpenBracket, "[", i + 1, col + 1);
      } else if ch == ']' {
        i, col, tokens := PushLine(source, i, line, col, tokens, TokenType.CloseBracket, "]", i + 1, col + 1);
      } else if ch == '(' {
        i, col, tokens := PushLine(source, i, line, col, tokens, TokenType.OpenParen, "(", i + 1, col + 1);
      } else if ch == ')' {
        i, col, tokens := PushLine(source, i, line, col, tokens, TokenType.CloseParen, ")", i + 1, col + 1);
      } else if IsInfix(ch) {
        i, col, tokens := LexInfix(source, i, line, col, tokens);
      } else if ch == '"' {
        var error;
        i, line, col, tokens, error := LexQuoted(source, i, line, col, tokens);
        if error.Some? {
          return Err(error.value);
        }
      } else if ch == ':' {
        var error;
        i, col, tokens, error := LexVariable(source, i, line, col, tokens);
        if error.Some? {
          return Err(error.value);
        }
      } else if IsWordChar(ch) {
        i, col, tokens := LexWord(source, i, line, col, tokens);
      } else {
        return Err(Syntax(UnexpectedCharacter(ch), line, col));
      }
    }
    ScanEnds(source, Position(line, col), tokens);
    tokens := tokens + [Token(TokenType.Eof, "", line, col)];
    r := Ok(tokens);
  }
}
