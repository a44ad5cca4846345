/** Which trees the lexer and the parser can give back at all: a text holds no more bars than its tokens. */
module Spelling {
  import opened Tokens
  import opened Tokenizer
  import opened Ast
  import opened Unparse
  import opened Printable
  import opened BarWeight
  import opened Printed
  import opened PrintLex

  // ---- Tokens as the lexer makes them ----

  /** A token that the lexer can make of text that holds no word in bars. */
  predicate LexFit(t: Tok) {
    match t.kind
    case Word => CleanName(t.value)
    case QuotedWord => CleanQuoted(t.value)
    case Variable => CleanVariable(t.value)
    case Number => IsNumber(t.value) ==> CleanNumber(t.value)
    case Infix => IsOperator(t.value)
    case _ => true
  }

  /** A token of a tree that was read from such tokens: a bare word in a list has become a quoted one. */
  predicate TreeFit(t: Tok) {
    match t.kind
    case QuotedWord => CleanQuoted(t.value) || CleanName(t.value)
    case Number => CleanNumber(t.value)
    case _ => LexFit(t)
  }

  ghost predicate AllTreeFit(ks: seq<Tok>) {
    forall k <- ks :: TreeFit(k)
  }

  lemma AllTreeFitJoin(a: seq<Tok>, b: seq<Tok>)
    ensures AllTreeFit(a + b) <==> AllTreeFit(a) && AllTreeFit(b)
  {
    assert forall k <- a :: k in a + b;
    assert forall k <- b :: k in a + b;
  }

  lemma AllTreeFitOne(t: Tok)
    ensures AllTreeFit([t]) <==> TreeFit(t)
  {
    assert t in [t];
  }

  lemma WeightBefore(a: string, b: string)
    requires !Meet(a, b)
    ensures Weight(a + b) == Weight(a) + Weight(b)
  {
    WeightJoin(a, b);
  }

  /** One lexeme: its text weighs at least what its value weighs, and more if it is a word in bars. */
  ghost predicate Weighed(s: string, l: Lexeme) {
    && l.length <= |s| && !Meet(s[..l.length], s[l.length..])
    && (l.Emit? ==> Bars.Of(Tok(l.kind, l.value)) <= Weight(s[..l.length]))
    && (l.Emit? && !LexFit(Tok(l.kind, l.value)) ==> Bars.Of(Tok(l.kind, l.value)) < Weight(s[..l.length]))
  }

  lemma WeighsScan(s: string, negative: bool)
    requires s != [] && !Scan(s, negative).Stuck?
    ensures Weighed(s, Scan(s, negative))
  {
    hide Run, Weight, Weighed;
    var c := s[0];
    if c == ';' {
      WeighsComment(s);
    } else if IsInfix(c) {
      WeighsInfix(s, negative);
    } else if c == '"' {
      WeighsQuoted(s);
    } else if c == ':' {
      WeighsVariable(s, negative);
    } else if IsWordChar(c) {
      WeighsWord(s, negative);
    } else {
      WeighsSymbol(s, negative);
    }
  }

  lemma WeighsComment(s: string)
    requires s != [] && s[0] == ';'
    ensures Weighed(s, Skip(Run(CommentText, s)))
  {
  }

  lemma WeighsSymbol(s: string, negative: bool)
    requires s != [] && !IsInfix(s[0]) && s[0] != ';' && s[0] != '"' && s[0] != ':' && !IsWordChar(s[0])
    ensures Weighed(s, Scan(s, negative))
  {
    hide Run;
  }

  /** What `Run` says of the text that it was run on behind a prefix. */
  lemma RunWithin(cl: Class, s: string, from: nat)
    requires from <= |s|
    ensures var n := Run(cl, s[from..]);
      && from + n <= |s| && (forall i :: from <= i < from + n ==> cl.Has(s[i])) && (from + n < |s| ==> !cl.Has(s[from + n]))
  {
    var rest, n := s[from..], Run(cl, s[from..]);
    assert forall i :: from <= i < from + n ==> s[i] == rest[i - from];
    assert from + n < |s| ==> s[from + n] == rest[n];
  }

  lemma WeighsInfix(s: string, negative: bool)
    requires s != [] && IsInfix(s[0])
    ensures Weighed(s, ScanInfix(s, negative))
  {
    hide IsNumber, Weight, Run;
    var l := ScanInfix(s, negative);
    assert l.value == s[..l.length] && l.value[0] == s[0];
    RunWithin(NumberText, s, 1);
    if l.kind == TokenType.Number {
      assert l.value[1] == s[1] && l.value[l.length - 1] == s[l.length - 1];
      assert NumberText.Has(s[l.length - 1]);
    } else {
      assert l.value[l.length - 1] == s[l.length - 1];
    }
  }

  lemma WeighsQuoted(s: string)
    requires s != [] && s[0] == '"' && !ScanQuoted(s).Stuck?
    ensures Weighed(s, ScanQuoted(s))
  {
    hide Run, Weight, CleanQuoted;
    if |s| > 1 && s[1] == '|' {
      WeighsBarred(s);
    } else {
      RunWithin(QuotedText, s, 1);
      var n := Run(QuotedText, s[1..]);
      var v := s[1..n + 1];
      assert s[..n + 1] == "\"" + v;
      assert forall i :: 0 <= i < |v| ==> v[i] == s[i + 1];
      PlainWeighs(v);
    }
  }

  lemma WeighsBarred(s: string)
    requires |s| > 1 && s[0] == '"' && s[1] == '|' && !ScanQuoted(s).Stuck?
    ensures Weighed(s, ScanQuoted(s))
  {
    hide Run, Weight, CleanQuoted;
    RunWithin(BarText, s, 2);
    var n := Run(BarText, s[2..]);
    var v, x := s[2..2 + n], s[..n + 3];
    assert forall i :: 0 <= i < |v| ==> v[i] == s[i + 2];
    assert s[n + 2] == '|' && x[n + 2] == s[n + 2];
    assert x[..2] == "\"|" && x[2..] == v + "|" && x == x[..2] + x[2..];
    BarsWeigh(v);
  }

  lemma PlainWeighs(v: string)
    requires (v != "" ==> v[0] != '|') && forall i :: 0 <= i < |v| ==> QuotedText.Has(v[i])
    ensures Weight("\"" + v) == Weight(v) && CleanQuoted(v)
  {
    NoBars("\"");
    WeightJoin("\"", v);
  }

  lemma BarsWeigh(v: string)
    requires forall i :: 0 <= i < |v| ==> v[i] != '|'
    ensures Weight(v) == 0 < Weight("\"|" + (v + "|"))
  {
    NoBars(v);
    WeightJoin("\"|", v + "|");
    WeightJoin(v, "|");
    BarsAlone();
  }

  lemma BarsAlone()
    ensures Weight("\"|") == 1 && Weight("|") == 2
  {
    NoBars("\"");
    WeightJoin("\"", "|");
    assert "\"" + "|" == "\"|";
    assert "|"[..0] == "";
  }

  lemma LowerWeight(s: string)
    ensures Weight(ToLower(s)) == Weight(s)
  {
    SameWeight(ToLower(s), s);
  }

  lemma LowerTwice(v: string)
    ensures ToLower(ToLower(v)) == ToLower(v)
  {
  }

  lemma LowerIsVariable(v: string)
    requires v != "" && forall i :: 0 <= i < |v| ==> VariableText.Has(v[i])
    ensures CleanVariable(ToLower(v))
  {
    LowerTwice(v);
    assert forall i :: 0 <= i < |v| ==> ToLower(v)[i] == LowerChar(v[i]);
  }

  lemma LowerIsName(v: string)
    requires v != "" && !StartsNumber(v) && forall i :: 0 <= i < |v| ==> WordText.Has(v[i])
    ensures CleanName(ToLower(v))
  {
    LowerTwice(v);
    assert forall i :: 0 <= i < |v| ==> ToLower(v)[i] == LowerChar(v[i]);
  }

  lemma WeighsVariable(s: string, negative: bool)
    requires s != [] && s[0] == ':' && !Scan(s, negative).Stuck?
    ensures Weighed(s, Scan(s, negative))
  {
    hide Run, Weight, ToLower, CleanVariable;
    RunWithin(VariableText, s, 1);
    var n := Run(VariableText, s[1..]);
    var v := s[1..1 + n];
    assert forall i :: 0 <= i < |v| ==> v[i] == s[i + 1];
    assert s[..1 + n] == ":" + v;
    WeightJoin(":", v);
    NoBars(":");
    LowerWeight(v);
    LowerIsVariable(v);
  }

  lemma WeighsWord(s: string, negative: bool)
    requires s != [] && IsWordChar(s[0])
    ensures Weighed(s, Scan(s, negative))
  {
    hide Run, Weight, IsNumber, ToLower, CleanName;
    assert s[0..] == s;
    if StartsNumber(s) {
      RunWithin(NumberText, s, 0);
      var n := Run(NumberText, s);
      var v := s[..n];
      assert n > 0 && v[0] == s[0] && v[n - 1] == s[n - 1] && (n > 1 ==> v[1] == s[1]);
    } else {
      RunWithin(WordText, s, 0);
      var n := Run(WordText, s);
      var v := s[..n];
      assert n > 0 && v[0] == s[0] && v[n - 1] == s[n - 1] && (n > 1 ==> v[1] == s[1]);
      LowerWeight(v);
      LowerIsName(v);
    }
  }

  /** The tokens of a text weigh no more than the text, and less if a word stood in bars. */
  lemma {:induction false} WeighsText(s: string, negative: bool)
    requires Shapes(s, negative).Some?
    ensures var ks := Shapes(s, negative).value;
      && Count(Bars, ks) <= Weight(s)
      && (Count(Bars, ks) == Weight(s) ==> forall k <- ks :: LexFit(k))
    decreases |s|
  {
    hide Scan, Weight, LexFit;
    if s == [] {
      assert LexFit(EOF) by { EndIsFit(); }
      assert Shapes(s, negative).value == [EOF];
      CountOne(Bars, EOF);
    } else {
      var l := Scan(s, negative);
      WeighsScan(s, negative);
      var x, rest := s[..l.length], s[l.length..];
      assert s == x + rest;
      WeightBefore(x, rest);
      if l.Skip? {
        WeighsText(rest, negative);
      } else {
        WeighsText(rest, AllowsNegative(l.kind));
        var ks := Shapes(rest, AllowsNegative(l.kind)).value;
        var t := Tok(l.kind, l.value);
        CountAppend(Bars, [t], ks);
        CountOne(Bars, t);
        assert forall k <- [t] + ks :: k == t || k in ks;
      }
    }
  }

  lemma EndIsFit()
    ensures LexFit(EOF)
  {
  }

  // ---- The printed text ----

  /** The text weighs no more than the tokens of its tree, and less if a quoted word starts with a bar. */
  ghost predicate Light(s: string, ks: seq<Tok>) {
    Weight(s) + Count(Led, ks) <= Count(Bars, ks)
  }

  /** Two texts with a separator between them, and two lists of tokens. */
  lemma LightJoin(a: string, c: string, b: string, ka: seq<Tok>, kb: seq<Tok>)
    requires Light(a, ka) && Light(b, kb) && Weight(c) == 0
    ensures Light(a + c + b, ka + kb)
  {
    WeightJoin(a, c);
    WeightJoin(a + c, b);
    CountAppend(Led, ka, kb);
    CountAppend(Bars, ka, kb);
  }

  lemma LightSpaced(a: string, b: string, ka: seq<Tok>, kb: seq<Tok>)
    requires Light(a, ka) && Light(b, kb)
    ensures Light(Spaced(a, b), ka + kb)
  {
    hide Light;
    NoBars(" ");
    LightJoin(a, " ", b, ka, kb);
  }

  lemma LightLined(a: string, b: string, ka: seq<Tok>, kb: seq<Tok>)
    requires Light(a, ka) && Light(b, kb)
    ensures Light(Lined(a, b), ka + kb)
  {
    hide Light;
    NoBars("\n");
    LightJoin(a, "\n", b, ka, kb);
  }

  lemma LightNothing()
    ensures Light("", [])
  {
  }

  /** Tokens without values spelled in the text weigh nothing. */
  lemma LightToken(t: Tok)
    requires !IsSpelled(t.kind)
    ensures Light("", [t])
  {
    CountOne(Led, t);
    CountOne(Bars, t);
  }

  lemma LightSpelled(t: Tok)
    requires IsSpelled(t.kind) && !t.kind.QuotedWord?
    ensures Light(t.value, [t])
  {
    CountOne(Led, t);
    CountOne(Bars, t);
  }

  lemma LightQuoted(v: string)
    ensures Light("\"" + v, [Tok(TokenType.QuotedWord, v)])
  {
    var t := Tok(TokenType.QuotedWord, v);
    CountOne(Led, t);
    CountOne(Bars, t);
    NoBars("\"");
    WeightJoin("\"", v);
  }

  lemma LightVariable(v: string)
    ensures Light(":" + v, [Tok(TokenType.Variable, v)])
  {
    var t := Tok(TokenType.Variable, v);
    CountOne(Led, t);
    CountOne(Bars, t);
    NoBars(":");
    WeightJoin(":", v);
  }

  lemma LightEnclosed(open: Tok, s: string, ks: seq<Tok>, close: Tok)
    requires Light(s, ks) && !IsSpelled(open.kind) && !IsSpelled(close.kind)
    requires Weight(open.value) == 0 && Weight(close.value) == 0
    ensures Light(open.value + s + close.value, [open] + ks + [close])
  {
    hide Light;
    LightToken(open);
    LightToken(close);
    LightJoin("", open.value, s, [open], ks);
    assert "" + open.value + s == open.value + s;
    LightJoin(open.value + s, close.value, "", [open] + ks, [close]);
    assert open.value + s + close.value + "" == open.value + s + close.value;
  }

  lemma LightBlock(s: string, body: seq<AstNode>)
    requires Light(s, SeqToks(body))
    ensures Light(Block(s), BlockToks(body))
  {
    hide Light, SeqToks;
    NoBars("[");
    NoBars("]");
    LightEnclosed(OPEN, s, SeqToks(body), CLOSE);
  }

  lemma LightForm(name: string, s: string, ks: seq<Tok>)
    requires Light(s, ks)
    ensures Light(Spaced(name, s), [WordTok(name)] + ks)
  {
    hide Light;
    LightSpelled(WordTok(name));
    LightSpaced(name, s, [WordTok(name)], ks);
  }

  lemma {:induction false} NodeIsLight(n: AstNode)
    ensures Light(NodeToSource(n), Toks(n))
    decreases n, 3
  {
    hide Light, SeqToks, BodyToSource, BlockToks, LineToks, ParamToks, ProcedureToSource, Spaced, Block;
    match n
    case Number(lexeme) => LightSpelled(Tok(TokenType.Number, lexeme));
    case Word(text) => LightQuoted(text);
    case Variable(name) => LightVariable(name);
    case List(elements) => BlockIsLight(elements);
    case Infix(operator, left, right) => InfixIsLight(n);
    case Paren(name, args) => ParenIsLight(name, args);
    case Call(name, args) => CallIsLight(name, args);
    case ProcDef(name, params, body) => ProcedureIsLight(name, params, body);
    case Output(value) => NodeIsLight(value); LightForm("output", NodeToSource(value), Toks(value));
    case Stop => LightSpelled(WordTok("stop"));
    case Forever(body) => BlockIsLight(body); LightForm("forever", Block(BodyToSource(body)), BlockToks(body));
    case Launch(body) => BlockIsLight(body); LightForm("launch", Block(BodyToSource(body)), BlockToks(body));
    case WaitUntil(test) => BlockIsLight(test); LightForm("waituntil", Block(BodyToSource(test)), BlockToks(test));
    case Carefully(body, handler) => PairIsLight(n, "carefully", body, handler);
    case While(test, body) => PairIsLight(n, "while", test, body);
    case Until(test, body) => PairIsLight(n, "until", test, body);
    case _ => HeadedIsLight(n);
  }

  lemma {:induction false} InfixIsLight(n: AstNode)
    requires n.Infix?
    ensures Light(NodeToSource(n), Toks(n))
    decreases n, 2
  {
    hide Light, Spaced;
    var op := Tok(TokenType.Infix, n.operator);
    NodeIsLight(n.left);
    NodeIsLight(n.right);
    LightSpelled(op);
    LightSpaced(n.operator, NodeToSource(n.right), [op], Toks(n.right));
    LightSpaced(NodeToSource(n.left), Spaced(n.operator, NodeToSource(n.right)), Toks(n.left), [op] + Toks(n.right));
    assert Toks(n.left) + ([op] + Toks(n.right)) == Toks(n.left) + [op] + Toks(n.right);
  }

  lemma {:induction false} ParenIsLight(name: string, args: seq<AstNode>)
    ensures Light(NodeToSource(Paren(name, args)), Toks(Paren(name, args)))
    decreases args, 2
  {
    hide Light, SeqToks, BodyToSource, Spaced;
    var open, close := Tok(TokenType.OpenParen, "("), Tok(TokenType.CloseParen, ")");
    BodyIsLight(args);
    LightForm(name, BodyToSource(args), SeqToks(args));
    NoBars("(");
    NoBars(")");
    LightEnclosed(open, Spaced(name, BodyToSource(args)), [WordTok(name)] + SeqToks(args), close);
    assert [open] + ([WordTok(name)] + SeqToks(args)) + [close] == [open, WordTok(name)] + SeqToks(args) + [close];
  }

  lemma {:induction false} CallIsLight(name: string, args: seq<AstNode>)
    ensures Light(NodeToSource(Call(name, args)), Toks(Call(name, args)))
    decreases args, 2
  {
    hide Light, BodyToSource, Spaced;
    if args == [] {
      LightSpelled(WordTok(name));
      assert [WordTok(name)] + [] == [WordTok(name)];
    } else {
      BodyIsLight(args);
      LightForm(name, BodyToSource(args), SeqToks(args));
    }
  }

  lemma {:induction false} BlockIsLight(body: seq<AstNode>)
    ensures Light(Block(BodyToSource(body)), BlockToks(body))
    decreases body, 1
  {
    hide Light, BodyToSource, Block, BlockToks;
    BodyIsLight(body);
    LightBlock(BodyToSource(body), body);
  }

  lemma {:induction false} BodyIsLight(body: seq<AstNode>)
    ensures Light(BodyToSource(body), SeqToks(body))
    decreases body, 0
  {
    hide Light, Toks, NodeToSource, Spaced;
    if body == [] {
      LightNothing();
    } else {
      NodeIsLight(body[0]);
      BodyIsLight(body[1..]);
      if |body| == 1 {
        assert Toks(body[0]) + [] == Toks(body[0]);
      } else {
        LightSpaced(NodeToSource(body[0]), BodyToSource(body[1..]), Toks(body[0]), SeqToks(body[1..]));
      }
    }
  }

  lemma {:induction false} PairIsLight(n: AstNode, name: string, a: seq<AstNode>, b: seq<AstNode>)
    requires (n == Carefully(a, b) && name == "carefully") || (n == While(a, b) && name == "while") || (n == Until(a, b) && name == "until")
    ensures Light(NodeToSource(n), Toks(n))
    decreases n, 2
  {
    hide Light, BodyToSource, Block, BlockToks, Spaced;
    BlockIsLight(a);
    BlockIsLight(b);
    LightSpaced(Block(BodyToSource(a)), Block(BodyToSource(b)), BlockToks(a), BlockToks(b));
    LightForm(name, Spaced(Block(BodyToSource(a)), Block(BodyToSource(b))), BlockToks(a) + BlockToks(b));
  }

  lemma {:induction false} HeadedIsLight(n: AstNode)
    requires n.Repeat? || n.If? || n.IfElse? || n.ForEach?
    ensures Light(NodeToSource(n), Toks(n))
    decreases n, 2
  {
    hide Light, BodyToSource, Block, BlockToks, Spaced;
    match n
    case Repeat(count, body) =>
      PartIsLight(n, count, body);
      LightForm("repeat", Spaced(NodeToSource(count), Block(BodyToSource(body))), Toks(count) + BlockToks(body));
    case If(condition, body) =>
      PartIsLight(n, condition, body);
      LightForm("if", Spaced(NodeToSource(condition), Block(BodyToSource(body))), Toks(condition) + BlockToks(body));
    case IfElse(condition, a, b) =>
      NodeIsLight(condition);
      BlockIsLight(a);
      BlockIsLight(b);
      var s := Spaced(Block(BodyToSource(a)), Block(BodyToSource(b)));
      LightSpaced(Block(BodyToSource(a)), Block(BodyToSource(b)), BlockToks(a), BlockToks(b));
      LightSpaced(NodeToSource(condition), s, Toks(condition), BlockToks(a) + BlockToks(b));
      LightForm("ifelse", Spaced(NodeToSource(condition), s), Toks(condition) + (BlockToks(a) + BlockToks(b)));
    case ForEach(variable, list, body) =>
      PartIsLight(n, list, body);
      var s, ks := Spaced(NodeToSource(list), Block(BodyToSource(body))), Toks(list) + BlockToks(body);
      LightQuoted(variable);
      LightNothing();
      LightSpaced("", s, [], ks);
      assert [] + ks == ks;
      LightSpaced("\"" + variable, Spaced("", s), [Tok(TokenType.QuotedWord, variable)], ks);
      LightForm("foreach", Spaced("\"" + variable, Spaced("", s)), [Tok(TokenType.QuotedWord, variable)] + ks);
  }

  lemma {:induction false} PartIsLight(n: AstNode, head: AstNode, body: seq<AstNode>)
    requires n == Repeat(head, body) || n == If(head, body) || (n.ForEach? && n.list == head && n.body == body)
    ensures Light(Spaced(NodeToSource(head), Block(BodyToSource(body))), Toks(head) + BlockToks(body))
    decreases n, 1
  {
    hide Light, BodyToSource, Block, BlockToks, Spaced;
    NodeIsLight(head);
    BlockIsLight(body);
    LightSpaced(NodeToSource(head), Block(BodyToSource(body)), Toks(head), BlockToks(body));
  }

  lemma {:induction false} ParamsAreLight(params: seq<string>)
    ensures Light(ParamsToSource(params), ParamToks(params))
    decreases params
  {
    hide Light, Spaced;
    if params == [] {
      LightNothing();
    } else {
      var t := Tok(TokenType.Variable, params[0]);
      LightVariable(params[0]);
      ParamsAreLight(params[1..]);
      if |params| == 1 {
        assert [t] + [] == [t];
      } else {
        LightSpaced(":" + params[0], ParamsToSource(params[1..]), [t], ParamToks(params[1..]));
      }
    }
  }

  lemma HeaderIsLight(name: string, params: seq<string>)
    ensures Light(HeaderToSource(name, params), [WordTok("to"), WordTok(name)] + ParamToks(params))
  {
    hide Light, Spaced;
    LightSpelled(WordTok("to"));
    LightSpelled(WordTok(name));
    LightSpaced("to", name, [WordTok("to")], [WordTok(name)]);
    assert [WordTok("to")] + [WordTok(name)] == [WordTok("to"), WordTok(name)];
    if params == [] {
      assert [WordTok("to"), WordTok(name)] + [] == [WordTok("to"), WordTok(name)];
    } else {
      ParamsAreLight(params);
      LightSpaced(Spaced("to", name), ParamsToSource(params), [WordTok("to"), WordTok(name)], ParamToks(params));
    }
  }

  lemma {:induction false} LinesAreLight(nodes: seq<AstNode>)
    ensures Light(LinesToSource(nodes), LineToks(nodes))
    decreases nodes, 0
  {
    hide Light, Toks, NodeToSource;
    if nodes == [] {
      LightNothing();
    } else {
      var first := nodes[0];
      NodeIsLight(first);
      LightNothing();
      NoBars("  ");
      LightJoin("", "  ", NodeToSource(first), [], Toks(first));
      assert "" + "  " + NodeToSource(first) == "  " + NodeToSource(first) && [] + Toks(first) == Toks(first);
      if |nodes| > 1 {
        LinesAreLight(nodes[1..]);
        LightToken(LINE);
        LightLined("  " + NodeToSource(first), LinesToSource(nodes[1..]), Toks(first), LineToks(nodes[1..]));
        LightWithLine("  " + NodeToSource(first), LinesToSource(nodes[1..]), Toks(first), LineToks(nodes[1..]));
      }
    }
  }

  /** Two pieces of text on lines of their own, with the token of the line end between them. */
  lemma LightWithLine(a: string, b: string, ka: seq<Tok>, kb: seq<Tok>)
    requires Light(a, ka) && Light(b, kb)
    ensures Light(Lined(a, b), ka + [LINE] + kb)
  {
    hide Light;
    LightToken(LINE);
    LightNothing();
    NoBars("");
    LightJoin(a, "", "", ka, [LINE]);
    assert a + "" + "" == a;
    LightLined(a, b, ka + [LINE], kb);
  }

  lemma {:induction false} ProcedureIsLight(name: string, params: seq<string>, body: seq<AstNode>)
    ensures Light(ProcedureToSource(name, params, body), Toks(ProcDef(name, params, body)))
    decreases body, 2
  {
    hide Light, HeaderToSource, LinesToSource, LineToks, ParamToks, Lined;
    var head, end := [WordTok("to"), WordTok(name)] + ParamToks(params), [WordTok("end")];
    HeaderIsLight(name, params);
    LinesAreLight(body);
    LightSpelled(WordTok("end"));
    LightWithLine(LinesToSource(body), "end", LineToks(body), end);
    LightWithLine(HeaderToSource(name, params), Lined(LinesToSource(body), "end"), head, LineToks(body) + [LINE] + end);
    assert head + [LINE] + (LineToks(body) + [LINE] + end) == head + [LINE] + LineToks(body) + [LINE, WordTok("end")];
  }

  // ---- Trees whose tokens are all fit ----

  ghost predicate AllLexFit(ks: seq<Tok>) {
    forall k <- ks :: LexFit(k) && (k.kind.Number? ==> CleanNumber(k.value))
  }

  lemma AllLexFitJoin(a: seq<Tok>, b: seq<Tok>)
    ensures AllLexFit(a + b) <==> AllLexFit(a) && AllLexFit(b)
  {
    assert forall k <- a :: k in a + b;
    assert forall k <- b :: k in a + b;
  }

  lemma AllLexFitOne(t: Tok)
    ensures AllLexFit([t]) <==> LexFit(t) && (t.kind.Number? ==> CleanNumber(t.value))
  {
    assert t in [t];
  }

  lemma {:induction false} FitIs(n: AstNode)
    requires AllLexFit(Toks(n))
    ensures Fit(n)
    decreases n, 3
  {
    hide AllLexFit, CleanNumber, CleanQuoted, CleanVariable, CleanName, IsOperator, BlockToks, SeqToks, FitSeq, LineToks, ParamToks, IsNumber;
    match n
    case Number(lexeme) => AllLexFitOne(Tok(TokenType.Number, lexeme));
    case Word(text) => AllLexFitOne(Tok(TokenType.QuotedWord, text));
    case Variable(name) => AllLexFitOne(Tok(TokenType.Variable, name));
    case List(elements) => FitBlockIs(elements);
    case Infix(operator, left, right) =>
      var op := Tok(TokenType.Infix, operator);
      AllLexFitJoin(Toks(left) + [op], Toks(right));
      AllLexFitJoin(Toks(left), [op]);
      AllLexFitOne(op);
      FitIs(left);
      FitIs(right);
    case Paren(name, args) => FitParenIs(name, args);
    case Call(name, args) => FitCallIs(name, args);
    case ProcDef(name, params, body) => FitProcedureIs(name, params, body);
    case Output(value) => AllLexFitJoin([WordTok("output")], Toks(value)); FitIs(value);
    case Stop =>
    case Forever(body) => AllLexFitJoin([WordTok("forever")], BlockToks(body)); FitBlockIs(body);
    case Launch(body) => AllLexFitJoin([WordTok("launch")], BlockToks(body)); FitBlockIs(body);
    case WaitUntil(test) => AllLexFitJoin([WordTok("waituntil")], BlockToks(test)); FitBlockIs(test);
    case Carefully(body, handler) => AllLexFitJoin([WordTok("carefully")], BlockToks(body) + BlockToks(handler)); FitPairIs(n, body, handler);
    case While(test, body) => AllLexFitJoin([WordTok("while")], BlockToks(test) + BlockToks(body)); FitPairIs(n, test, body);
    case Until(test, body) => AllLexFitJoin([WordTok("until")], BlockToks(test) + BlockToks(body)); FitPairIs(n, test, body);
    case _ => FitHeadedIs(n);
  }

  lemma {:induction false} FitBlockIs(body: seq<AstNode>)
    requires AllLexFit(BlockToks(body))
    ensures FitSeq(body)
    decreases body, 1
  {
    hide AllLexFit, SeqToks, FitSeq;
    AllLexFitJoin([OPEN] + SeqToks(body), [CLOSE]);
    AllLexFitJoin([OPEN], SeqToks(body));
    FitSeqIs(body);
  }

  lemma {:induction false} FitSeqIs(nodes: seq<AstNode>)
    requires AllLexFit(SeqToks(nodes))
    ensures FitSeq(nodes)
    decreases nodes, 0
  {
    hide AllLexFit, Toks, Fit;
    if nodes != [] {
      AllLexFitJoin(Toks(nodes[0]), SeqToks(nodes[1..]));
      FitIs(nodes[0]);
      FitSeqIs(nodes[1..]);
    }
  }

  lemma {:induction false} FitLinesIs(nodes: seq<AstNode>)
    requires AllLexFit(LineToks(nodes))
    ensures FitSeq(nodes)
    decreases nodes, 0
  {
    hide AllLexFit, Toks, Fit;
    if |nodes| == 1 {
      FitIs(nodes[0]);
      assert nodes[1..] == [];
    } else if nodes != [] {
      AllLexFitJoin(Toks(nodes[0]) + [LINE], LineToks(nodes[1..]));
      AllLexFitJoin(Toks(nodes[0]), [LINE]);
      FitIs(nodes[0]);
      FitLinesIs(nodes[1..]);
    }
  }

  lemma {:induction false} FitParenIs(name: string, args: seq<AstNode>)
    requires AllLexFit(Toks(Paren(name, args)))
    ensures Fit(Paren(name, args))
    decreases args, 2
  {
    hide AllLexFit, CleanName, SeqToks, FitSeq;
    var open, close := Tok(TokenType.OpenParen, "("), Tok(TokenType.CloseParen, ")");
    AllLexFitJoin([open, WordTok(name)] + SeqToks(args), [close]);
    AllLexFitJoin([open, WordTok(name)], SeqToks(args));
    assert [open, WordTok(name)] == [open] + [WordTok(name)];
    AllLexFitJoin([open], [WordTok(name)]);
    AllLexFitOne(WordTok(name));
    FitSeqIs(args);
  }

  lemma {:induction false} FitCallIs(name: string, args: seq<AstNode>)
    requires AllLexFit(Toks(Call(name, args)))
    ensures Fit(Call(name, args))
    decreases args, 2
  {
    hide AllLexFit, CleanName, SeqToks, FitSeq;
    AllLexFitJoin([WordTok(name)], SeqToks(args));
    AllLexFitOne(WordTok(name));
    FitSeqIs(args);
  }

  lemma {:induction false} FitPairIs(n: AstNode, a: seq<AstNode>, b: seq<AstNode>)
    requires (n == Carefully(a, b) || n == While(a, b) || n == Until(a, b)) && AllLexFit(BlockToks(a) + BlockToks(b))
    ensures Fit(n)
    decreases n, 2
  {
    hide AllLexFit, BlockToks, FitSeq;
    AllLexFitJoin(BlockToks(a), BlockToks(b));
    FitBlockIs(a);
    FitBlockIs(b);
  }

  lemma {:induction false} FitHeadedIs(n: AstNode)
    requires (n.Repeat? || n.If? || n.IfElse? || n.ForEach?) && AllLexFit(Toks(n))
    ensures Fit(n)
    decreases n, 2
  {
    hide AllLexFit, CleanQuoted, BlockToks, FitSeq;
    match n
    case Repeat(count, body) => AllLexFitJoin([WordTok("repeat")], Toks(count) + BlockToks(body)); FitPartIs(n, count, body);
    case If(condition, body) => AllLexFitJoin([WordTok("if")], Toks(condition) + BlockToks(body)); FitPartIs(n, condition, body);
    case IfElse(condition, a, b) =>
      AllLexFitJoin([WordTok("ifelse")], Toks(condition) + (BlockToks(a) + BlockToks(b)));
      AllLexFitJoin(Toks(condition), BlockToks(a) + BlockToks(b));
      AllLexFitJoin(BlockToks(a), BlockToks(b));
      FitIs(condition);
      FitBlockIs(a);
      FitBlockIs(b);
    case ForEach(variable, list, body) =>
      var v := Tok(TokenType.QuotedWord, variable);
      AllLexFitJoin([WordTok("foreach")], [v] + (Toks(list) + BlockToks(body)));
      AllLexFitJoin([v], Toks(list) + BlockToks(body));
      AllLexFitOne(v);
      FitPartIs(n, list, body);
  }

  lemma {:induction false} FitPartIs(n: AstNode, head: AstNode, body: seq<AstNode>)
    requires n == Repeat(head, body) || n == If(head, body) || (n.ForEach? && n.list == head && n.body == body)
    requires AllLexFit(Toks(head) + BlockToks(body))
    ensures Fit(head) && FitSeq(body)
    decreases n, 1
  {
    hide AllLexFit, BlockToks, FitSeq, Fit;
    AllLexFitJoin(Toks(head), BlockToks(body));
    FitIs(head);
    FitBlockIs(body);
  }

  lemma {:induction false} FitParamsAre(params: seq<string>)
    requires AllLexFit(ParamToks(params))
    ensures forall p <- params :: CleanVariable(p)
    decreases params
  {
    hide AllLexFit, CleanVariable;
    if params != [] {
      AllLexFitJoin([Tok(TokenType.Variable, params[0])], ParamToks(params[1..]));
      AllLexFitOne(Tok(TokenType.Variable, params[0]));
      FitParamsAre(params[1..]);
      assert forall p <- params :: p == params[0] || p in params[1..];
    }
  }

  lemma {:induction false} FitProcedureIs(name: string, params: seq<string>, body: seq<AstNode>)
    requires AllLexFit(Toks(ProcDef(name, params, body)))
    ensures Fit(ProcDef(name, params, body))
    decreases body, 2
  {
    hide AllLexFit, CleanName, CleanVariable, ParamToks, LineToks, FitSeq;
    var start, end := [WordTok("to"), WordTok(name)], [LINE, WordTok("end")];
    AllLexFitJoin(start + ParamToks(params) + [LINE] + LineToks(body), end);
    AllLexFitJoin(start + ParamToks(params) + [LINE], LineToks(body));
    AllLexFitJoin(start + ParamToks(params), [LINE]);
    AllLexFitJoin(start, ParamToks(params));
    assert start == [WordTok("to")] + [WordTok(name)];
    AllLexFitJoin([WordTok("to")], [WordTok(name)]);
    AllLexFitOne(WordTok(name));
    FitParamsAre(params);
    FitLinesIs(body);
  }

  /** A bare word that does not start with a bar can be a quoted one. */
  lemma {:induction false} NoneLed(ks: seq<Tok>)
    requires AllTreeFit(ks) && Count(Led, ks) == 0
    ensures AllLexFit(ks)
    decreases ks
  {
    if ks != [] {
      assert ks == [ks[0]] + ks[1..];
      AllTreeFitJoin([ks[0]], ks[1..]);
      NoneLed(ks[1..]);
      AllTreeFitOne(ks[0]);
      NotLed(ks[0]);
      AllLexFitOne(ks[0]);
      AllLexFitJoin([ks[0]], ks[1..]);
    }
  }

  lemma NotLed(t: Tok)
    requires TreeFit(t) && Led.Of(t) == 0
    ensures LexFit(t) && (t.kind.Number? ==> CleanNumber(t.value))
  {
    hide IsNumber;
  }
}
