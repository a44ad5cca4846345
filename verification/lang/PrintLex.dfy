/** Lexing what the printer wrote gives the tokens of the printed tree. */
module PrintLex {
  import opened Tokens
  import opened Tokenizer
  import opened Ast
  import opened Unparse
  import opened Printable
  import opened Printed

  // ---- Tokens without positions ----

  function Strip(ts: seq<Token>): (r: seq<Tok>)
    ensures |r| == |ts| && forall i :: 0 <= i < |ts| ==> r[i] == ts[i].Shape()
  {
    seq(|ts|, i requires 0 <= i < |ts| => ts[i].Shape())
  }

  function Cons(t: Tok, r: Option<seq<Tok>>): Option<seq<Tok>> {
    Add([t], r)
  }

  function Add(front: seq<Tok>, r: Option<seq<Tok>>): Option<seq<Tok>> {
    match r
    case None => None
    case Some(rest) => Some(front + rest)
  }

  const EOF := Tok(TokenType.Eof, "")

  /** The lexer, ignoring positions. */
  function Shapes(s: string, negative: bool): Option<seq<Tok>>
    decreases |s|
  {
    if s == [] then Some([EOF])
    else
      match Scan(s, negative)
      case Skip(n) => Shapes(s[n..], negative)
      case Emit(kind, value, n) => Cons(Tok(kind, value), Shapes(s[n..], AllowsNegative(kind)))
      case Stuck(_, _) => None
  }

  lemma {:induction false} ShapesOfLex(s: string, p: Position, negative: bool)
    ensures Lex(s, p, negative).Ok? <==> Shapes(s, negative).Some?
    ensures Lex(s, p, negative).Ok? ==> Strip(Lex(s, p, negative).value) == Shapes(s, negative).value
    decreases |s|
  {
    hide Scan, Past;
    if s != [] {
      match Scan(s, negative)
      case Skip(n) =>
        ShapesOfLex(s[n..], Past(p, s[..n]), negative);
      case Emit(kind, value, n) =>
        ShapesOfLex(s[n..], Past(p, s[..n]), AllowsNegative(kind));
      case Stuck(_, _) =>
    }
  }

  // ---- Text that lexes to given tokens wherever it stands ----

  /** What the printer may put after a node. */
  predicate Boundary(rest: string) {
    rest == "" || rest[0] == ' ' || rest[0] == '\n' || rest[0] == ']' || rest[0] == ')'
  }

  /**
   * In front of every boundary, `s` lexes to `ks`; `before` and `after` say whether a negative
   * number may stand at its front and behind it.
   */
  ghost predicate Emits(s: string, ks: seq<Tok>, before: bool, after: bool) {
    forall rest | Boundary(rest) :: Shapes(s + rest, before) == Add(ks, Shapes(rest, after))
  }

  lemma AddAdd(a: seq<Tok>, b: seq<Tok>, r: Option<seq<Tok>>)
    ensures Add(a, Add(b, r)) == Add(a + b, r)
  {
    if r.Some? {
      assert a + (b + r.value) == (a + b) + r.value;
    }
  }

  lemma EmitsNothing(before: bool)
    ensures Emits("", [], before, before)
  {
    hide Shapes;
    forall rest | Boundary(rest)
      ensures Shapes("" + rest, before) == Add([], Shapes(rest, before))
    {
      assert "" + rest == rest;
      if Shapes(rest, before).Some? {
        assert [] + Shapes(rest, before).value == Shapes(rest, before).value;
      }
    }
  }

  /** One lexeme that ends at every boundary. */
  lemma EmitsOne(s: string, kind: TokenType, value: string, before: bool)
    requires s != []
    requires forall rest | Boundary(rest) :: Scan(s + rest, before) == Emit(kind, value, |s|)
    ensures Emits(s, [Tok(kind, value)], before, AllowsNegative(kind))
  {
    hide Scan;
    forall rest | Boundary(rest)
      ensures Shapes(s + rest, before) == Add([Tok(kind, value)], Shapes(rest, AllowsNegative(kind)))
    {
      assert (s + rest)[|s|..] == rest;
    }
  }

  lemma ShapesBlank(rest: string, negative: bool)
    ensures Shapes(" " + rest, negative) == Shapes(rest, negative)
  {
    assert (" " + rest)[1..] == rest;
  }

  lemma ShapesSymbol(c: char, rest: string, negative: bool)
    requires c == '[' || c == ']' || c == '(' || c == ')' || c == '\n'
    ensures Shapes([c] + rest, negative) == Cons(Tok(SymbolKind(c), [c]), Shapes(rest, c == '[' || c == '(' || c == '\n'))
  {
    assert ([c] + rest)[1..] == rest;
  }

  function SymbolKind(c: char): TokenType {
    if c == '[' then TokenType.OpenBracket else if c == ']' then TokenType.CloseBracket
    else if c == '(' then TokenType.OpenParen else if c == ')' then TokenType.CloseParen else TokenType.Newline
  }

  lemma EmitsSpaced(a: string, ka: seq<Tok>, b: string, kb: seq<Tok>, n0: bool, n1: bool, n2: bool)
    requires Emits(a, ka, n0, n1) && Emits(b, kb, n1, n2)
    ensures Emits(Spaced(a, b), ka + kb, n0, n2)
  {
    hide Shapes;
    forall rest | Boundary(rest)
      ensures Shapes(Spaced(a, b) + rest, n0) == Add(ka + kb, Shapes(rest, n2))
    {
      var tail := " " + (b + rest);
      assert Spaced(a, b) + rest == a + tail;
      assert Boundary(tail);
      ShapesBlank(b + rest, n1);
      AddAdd(ka, kb, Shapes(rest, n2));
    }
  }

  lemma EmitsAfterBlank(b: string, kb: seq<Tok>, n0: bool, n1: bool)
    requires Emits(b, kb, n0, n1)
    ensures Emits(" " + b, kb, n0, n1)
  {
    hide Shapes;
    forall rest | Boundary(rest)
      ensures Shapes(" " + b + rest, n0) == Add(kb, Shapes(rest, n1))
    {
      assert " " + b + rest == " " + (b + rest);
      ShapesBlank(b + rest, n0);
    }
  }

  lemma EmitsIndented(b: string, kb: seq<Tok>, n0: bool, n1: bool)
    requires Emits(b, kb, n0, n1)
    ensures Emits("  " + b, kb, n0, n1)
  {
    hide Emits;
    EmitsAfterBlank(b, kb, n0, n1);
    EmitsAfterBlank(" " + b, kb, n0, n1);
    assert " " + (" " + b) == "  " + b;
  }

  lemma EmitsLined(a: string, ka: seq<Tok>, b: string, kb: seq<Tok>, n0: bool, n1: bool, n2: bool)
    requires Emits(a, ka, n0, n1) && Emits(b, kb, true, n2)
    ensures Emits(Lined(a, b), ka + [LINE] + kb, n0, n2)
  {
    hide Shapes;
    forall rest | Boundary(rest)
      ensures Shapes(Lined(a, b) + rest, n0) == Add(ka + [LINE] + kb, Shapes(rest, n2))
    {
      var tail := "\n" + (b + rest);
      assert Lined(a, b) + rest == a + tail;
      assert Boundary(tail);
      ShapesSymbol('\n', b + rest, n1);
      AddAdd([LINE], kb, Shapes(rest, n2));
      AddAdd(ka, [LINE] + kb, Shapes(rest, n2));
      assert ka + ([LINE] + kb) == ka + [LINE] + kb;
    }
  }

  lemma EmitsEnclosed(open: char, b: string, kb: seq<Tok>, close: char, n0: bool, n1: bool)
    requires (open == '[' && close == ']') || (open == '(' && close == ')')
    requires Emits(b, kb, true, n1)
    ensures Emits([open] + b + [close],
                  [Tok(SymbolKind(open), [open])] + kb + [Tok(SymbolKind(close), [close])], n0, false)
  {
    hide Shapes;
    var ko, kc := Tok(SymbolKind(open), [open]), Tok(SymbolKind(close), [close]);
    forall rest | Boundary(rest)
      ensures Shapes([open] + b + [close] + rest, n0) == Add([ko] + kb + [kc], Shapes(rest, false))
    {
      var tail := [close] + rest;
      assert [open] + b + [close] + rest == [open] + (b + tail);
      assert Boundary(tail);
      ShapesSymbol(open, b + tail, n0);
      ShapesSymbol(close, rest, n1);
      AddAdd(kb, [kc], Shapes(rest, false));
      AddAdd([ko], kb + [kc], Shapes(rest, false));
      assert [ko] + (kb + [kc]) == [ko] + kb + [kc];
    }
  }

  lemma EmitsBlock(b: string, kb: seq<Tok>, n0: bool, n1: bool)
    requires Emits(b, kb, true, n1)
    ensures Emits(Block(b), [OPEN] + kb + [CLOSE], n0, false)
  {
    hide Emits;
    EmitsEnclosed('[', b, kb, ']', n0, n1);
  }

  // ---- Single tokens ----

  /** A run over `s` does not cross a boundary. */
  lemma RunStops(cl: Class, s: string, rest: string)
    requires Boundary(rest) && !cl.CommentText? && !cl.BarText?
    requires forall i :: 0 <= i < |s| ==> cl.Has(s[i])
    ensures Run(cl, s + rest) == |s|
  {
    hide Run;
    RunIs(cl, s + rest, |s|);
  }

  lemma EmitsWord(w: string, before: bool)
    requires CleanName(w)
    ensures Emits(w, [WordTok(w)], before, false)
  {
    hide Emits, Run, ToLower;
    forall rest | Boundary(rest) ensures Scan(w + rest, before) == Emit(TokenType.Word, w, |w|) {
      RunStops(WordText, w, rest);
      assert (w + rest)[..|w|] == w;
      assert IsWordChar(w[0]);
    }
    EmitsOne(w, TokenType.Word, w, before);
  }

  lemma EmitsVariable(v: string, before: bool)
    requires CleanVariable(v)
    ensures Emits(":" + v, [Tok(TokenType.Variable, v)], before, false)
  {
    hide Emits, Run, ToLower;
    var s := ":" + v;
    forall rest | Boundary(rest) ensures Scan(s + rest, before) == Emit(TokenType.Variable, v, |s|) {
      RunStops(VariableText, v, rest);
      assert (s + rest)[1..] == v + rest;
      assert (s + rest)[1..1 + |v|] == v;
    }
    EmitsOne(s, TokenType.Variable, v, before);
  }

  lemma EmitsQuoted(t: string, before: bool)
    requires CleanQuoted(t)
    ensures Emits("\"" + t, [Tok(TokenType.QuotedWord, t)], before, false)
  {
    hide Emits, Run;
    var s := "\"" + t;
    forall rest | Boundary(rest) ensures Scan(s + rest, before) == Emit(TokenType.QuotedWord, t, |s|) {
      RunStops(QuotedText, t, rest);
      assert (s + rest)[1..] == t + rest;
      assert (s + rest)[1..1 + |t|] == t;
      assert (s + rest)[0] == '"';
      assert !(|s + rest| > 1 && (s + rest)[1] == '|');
      PlainQuotedScan(s + rest, |t|);
    }
    EmitsOne(s, TokenType.QuotedWord, t, before);
  }

  lemma EmitsNumber(x: string, before: bool)
    requires CleanNumber(x) && (IsNegative(x) ==> before)
    ensures Emits(x, [Tok(TokenType.Number, x)], before, false)
  {
    hide Emits, Run, CountDots;
    forall rest | Boundary(rest) ensures Scan(x + rest, before) == Emit(TokenType.Number, x, |x|) {
      assert (x + rest)[..|x|] == x;
      if IsNegative(x) {
        RunStops(NumberText, x[1..], rest);
        assert (x + rest)[1..] == x[1..] + rest;
        assert (x + rest)[1] == x[1];
      } else {
        RunStops(NumberText, x, rest);
        assert StartsNumber(x + rest);
      }
    }
    EmitsOne(x, TokenType.Number, x, before);
  }

  /** Where a negative number may not stand, its sign is read as an operator. */
  lemma EmitsSigned(x: string, before: bool)
    requires CleanNumber(x)
    ensures Emits(x, NumberToks(x, before), before, false)
  {
    hide Shapes, Run, CountDots;
    if IsNegative(x) && !before {
      var y := x[1..];
      assert CleanNumber(y) && !IsNegative(y);
      EmitsNumber(y, true);
      var minus := Tok(TokenType.Infix, "-");
      forall rest | Boundary(rest) ensures Shapes(x + rest, false) == Add([minus, Tok(TokenType.Number, y)], Shapes(rest, false)) {
        assert x + rest == "-" + (y + rest);
        ShapesMinus(y + rest);
        AddAdd([minus], [Tok(TokenType.Number, y)], Shapes(rest, false));
        assert [minus] + [Tok(TokenType.Number, y)] == [minus, Tok(TokenType.Number, y)];
      }
    } else {
      EmitsNumber(x, before);
    }
  }

  lemma ShapesMinus(rest: string)
    requires rest != ""
    ensures Shapes("-" + rest, false) == Add([Tok(TokenType.Infix, "-")], Shapes(rest, true))
  {
    hide Run;
    assert ("-" + rest)[..1] == "-" && ("-" + rest)[1..] == rest;
    assert Scan("-" + rest, false) == Emit(TokenType.Infix, "-", 1);
  }

  lemma EmitsOperator(op: string, before: bool)
    requires IsOperator(op)
    ensures Emits(op, [Tok(TokenType.Infix, op)], before, true)
  {
    hide Emits, Run;
    forall rest | Boundary(rest) ensures Scan(op + rest, before) == Emit(TokenType.Infix, op, |op|) {
      assert (op + rest)[..|op|] == op;
      assert |op + rest| > |op| ==> (op + rest)[|op|] == rest[0];
    }
    EmitsOne(op, TokenType.Infix, op, before);
  }

  // ---- Whole trees ----

  lemma {:induction false} EmitsParams(params: seq<string>)
    requires forall p <- params :: CleanVariable(p)
    ensures Emits(ParamsToSource(params), ParamToks(params), false, false)
    decreases params
  {
    hide Emits, CleanVariable;
    if params == [] {
      EmitsNothing(false);
    } else {
      EmitsVariable(params[0], false);
      EmitsParams(params[1..]);
      if |params| == 1 {
        assert ParamToks(params) == [Tok(TokenType.Variable, params[0])];
      } else {
        EmitsSpaced(":" + params[0], [Tok(TokenType.Variable, params[0])],
                    ParamsToSource(params[1..]), ParamToks(params[1..]), false, false, false);
      }
    }
  }

  lemma LowerWord(w: string)
    requires w != "" && forall i :: 0 <= i < |w| ==> 'a' <= w[i] <= 'z'
    ensures CleanName(w)
  {
    assert ToLower(w) == w;
  }

  lemma EmitsHeader(name: string, params: seq<string>, before: bool)
    requires CleanName(name) && forall p <- params :: CleanVariable(p)
    ensures Emits(HeaderToSource(name, params), [WordTok("to"), WordTok(name)] + ParamToks(params), before, false)
  {
    hide Emits, CleanName, CleanVariable;
    LowerWord("to");
    EmitsWord("to", before);
    EmitsWord(name, false);
    EmitsSpaced("to", [WordTok("to")], name, [WordTok(name)], before, false, false);
    assert [WordTok("to")] + [WordTok(name)] == [WordTok("to"), WordTok(name)];
    if params == [] {
      assert [WordTok("to"), WordTok(name)] + [] == [WordTok("to"), WordTok(name)];
    } else {
      EmitsParams(params);
      EmitsSpaced(Spaced("to", name), [WordTok("to"), WordTok(name)],
                  ParamsToSource(params), ParamToks(params), before, false, false);
    }
  }

  /** A keyword followed by something. */
  lemma EmitsForm(keyword: string, b: string, kb: seq<Tok>, before: bool)
    requires CleanName(keyword) && Emits(b, kb, false, false)
    ensures Emits(Spaced(keyword, b), [WordTok(keyword)] + kb, before, false)
  {
    hide Emits, CleanName;
    EmitsWord(keyword, before);
    EmitsSpaced(keyword, [WordTok(keyword)], b, kb, before, false, false);
  }

  lemma EmitsPair(a: string, ka: seq<Tok>, b: string, kb: seq<Tok>)
    requires Emits(a, ka, false, false) && Emits(b, kb, false, false)
    ensures Emits(Spaced(a, b), ka + kb, false, false)
  {
    hide Emits;
    EmitsSpaced(a, ka, b, kb, false, false, false);
  }

  lemma {:induction false} EmitsNode(n: AstNode, before: bool)
    requires Fit(n)
    ensures Emits(NodeToSource(n), ToksAt(n, before), before, false)
    decreases n, 3
  {
    hide Emits, CleanNumber, CleanQuoted, CleanVariable, CleanName, IsOperator, FitSeq,
         BodyToSource, LinesToSource, ProcedureToSource, SeqToksAt, LineToksAt, ParamToks, Spaced, Lined, Block, BlockToksAt, NumberToks;
    match n
    case Number(lexeme) => EmitsSigned(lexeme, before);
    case Word(text) => EmitsQuoted(text, before);
    case Variable(name) => EmitsVariable(name, before);
    case List(elements) => EmitsBody(elements, before);
    case Infix(operator, left, right) => EmitsInfix(operator, left, right, before);
    case Paren(name, args) => EmitsParen(name, args, before);
    case Call(name, args) => EmitsCall(name, args, before);
    case ProcDef(name, params, body) => EmitsProcedure(name, params, body, before);
    case _ => EmitsSpecial(n, before);
  }

  lemma {:induction false} EmitsInfix(op: string, left: AstNode, right: AstNode, before: bool)
    requires IsOperator(op) && Fit(left) && Fit(right)
    ensures Emits(Spaced(NodeToSource(left), Spaced(op, NodeToSource(right))),
                  ToksAt(left, before) + [Tok(TokenType.Infix, op)] + ToksAt(right, true), before, false)
    decreases AstNode.Infix(op, left, right), 1
  {
    hide Emits, Fit, NodeToSource, ToksAt, IsOperator;
    EmitsNode(left, before);
    EmitsOperator(op, false);
    EmitsNode(right, true);
    EmitsSpaced(op, [Tok(TokenType.Infix, op)], NodeToSource(right), ToksAt(right, true), false, true, false);
    EmitsSpaced(NodeToSource(left), ToksAt(left, before), Spaced(op, NodeToSource(right)),
                [Tok(TokenType.Infix, op)] + ToksAt(right, true), before, false, false);
    assert ToksAt(left, before) + ([Tok(TokenType.Infix, op)] + ToksAt(right, true)) == ToksAt(left, before) + [Tok(TokenType.Infix, op)] + ToksAt(right, true);
  }

  lemma {:induction false} EmitsParen(name: string, args: seq<AstNode>, before: bool)
    requires CleanName(name) && FitSeq(args)
    ensures Emits("(" + Spaced(name, BodyToSource(args)) + ")",
                  [Tok(TokenType.OpenParen, "("), WordTok(name)] + SeqToksAt(args, false) + [Tok(TokenType.CloseParen, ")")], before, false)
    decreases Paren(name, args), 1
  {
    hide Emits, CleanName, FitSeq, BodyToSource, SeqToksAt;
    EmitsSeq(args, false);
    EmitsForm(name, BodyToSource(args), SeqToksAt(args, false), true);
    EmitsEnclosed('(', Spaced(name, BodyToSource(args)), [WordTok(name)] + SeqToksAt(args, false), ')', before, false);
    var ko, kc := Tok(TokenType.OpenParen, "("), Tok(TokenType.CloseParen, ")");
    assert [ko] + ([WordTok(name)] + SeqToksAt(args, false)) + [kc] == [ko, WordTok(name)] + SeqToksAt(args, false) + [kc];
  }

  lemma {:induction false} EmitsCall(name: string, args: seq<AstNode>, before: bool)
    requires CleanName(name) && FitSeq(args)
    ensures Emits(if args == [] then name else Spaced(name, BodyToSource(args)), [WordTok(name)] + SeqToksAt(args, false), before, false)
    decreases Call(name, args), 1
  {
    hide Emits, CleanName, FitSeq, BodyToSource;
    if args == [] {
      EmitsWord(name, before);
      assert [WordTok(name)] + [] == [WordTok(name)];
    } else {
      EmitsSeq(args, false);
      EmitsForm(name, BodyToSource(args), SeqToksAt(args, false), before);
    }
  }

  lemma {:induction false} EmitsBody(body: seq<AstNode>, before: bool)
    requires FitSeq(body)
    ensures Emits(Block(BodyToSource(body)), BlockToksAt(body), before, false)
    decreases body, 1
  {
    hide Emits, FitSeq, BodyToSource, SeqToksAt, Block;
    EmitsSeq(body, true);
    EmitsBlock(BodyToSource(body), SeqToksAt(body, true), before, body == []);
  }

  /** Nodes separated by spaces. After an empty line of them the context is the one before it. */
  lemma {:induction false} EmitsSeq(nodes: seq<AstNode>, before: bool)
    requires FitSeq(nodes)
    ensures Emits(BodyToSource(nodes), SeqToksAt(nodes, before), before, before && nodes == [])
    decreases nodes, 0
  {
    hide Emits, Fit, NodeToSource, ToksAt, Spaced;
    if nodes == [] {
      EmitsNothing(before);
    } else {
      EmitsNode(nodes[0], before);
      EmitsSeq(nodes[1..], false);
      if |nodes| == 1 {
        assert ToksAt(nodes[0], before) + [] == ToksAt(nodes[0], before);
      } else {
        EmitsSpaced(NodeToSource(nodes[0]), ToksAt(nodes[0], before), BodyToSource(nodes[1..]), SeqToksAt(nodes[1..], false), before, false, false);
      }
    }
  }

  lemma {:induction false} EmitsLines(nodes: seq<AstNode>)
    requires FitSeq(nodes)
    ensures Emits(LinesToSource(nodes), LineToksAt(nodes), true, nodes == [])
    decreases nodes, 0
  {
    hide Emits, Fit, NodeToSource, ToksAt, Lined;
    if nodes == [] {
      EmitsNothing(true);
    } else {
      EmitsNode(nodes[0], true);
      EmitsIndented(NodeToSource(nodes[0]), ToksAt(nodes[0], true), true, false);
      EmitsLines(nodes[1..]);
      if |nodes| > 1 {
        EmitsLined("  " + NodeToSource(nodes[0]), ToksAt(nodes[0], true), LinesToSource(nodes[1..]), LineToksAt(nodes[1..]), true, false, false);
      }
    }
  }

  lemma {:induction false} EmitsProcedure(name: string, params: seq<string>, body: seq<AstNode>, before: bool)
    requires Fit(ProcDef(name, params, body))
    ensures Emits(ProcedureToSource(name, params, body), ToksAt(ProcDef(name, params, body), before), before, false)
    decreases ProcDef(name, params, body), 1
  {
    hide Emits, CleanName, CleanVariable, FitSeq, LinesToSource, HeaderToSource, LineToksAt, ParamToks, Lined, StartsWith;
    var head := [WordTok("to"), WordTok(name)] + ParamToks(params);
    EmitsHeader(name, params, before);
    EmitsLines(body);
    LowerWord("end");
    EmitsWord("end", true);
    EmitsLined(LinesToSource(body), LineToksAt(body), "end", [WordTok("end")], true, body == [], false);
    EmitsLined(HeaderToSource(name, params), head, Lined(LinesToSource(body), "end"),
               LineToksAt(body) + [LINE] + [WordTok("end")], before, false, false);
    assert head + [LINE] + (LineToksAt(body) + [LINE] + [WordTok("end")])
        == [WordTok("to"), WordTok(name)] + ParamToks(params) + [LINE] + LineToksAt(body) + [LINE, WordTok("end")];
  }

  /** The special forms. */
  lemma {:induction false} EmitsSpecial(n: AstNode, before: bool)
    requires Fit(n)
    requires !n.Number? && !n.Word? && !n.Variable? && !n.List? && !n.Infix? && !n.Paren? && !n.Call? && !n.ProcDef?
    ensures Emits(NodeToSource(n), ToksAt(n, before), before, false)
    decreases n, 2
  {
    hide Emits, CleanQuoted, CleanName, FitSeq, BodyToSource, Spaced, Block, BlockToksAt;
    match n
    case Repeat(count, body) => LowerWord("repeat"); EmitsHeaded(n, "repeat", count, body, before);
    case If(condition, body) => LowerWord("if"); EmitsHeaded(n, "if", condition, body, before);
    case IfElse(condition, thenBody, elseBody) =>
      LowerWord("ifelse");
      EmitsNode(condition, false);
      EmitsBlocks(n, thenBody, elseBody);
      EmitsPair(NodeToSource(condition), ToksAt(condition, false), Spaced(Block(BodyToSource(thenBody)), Block(BodyToSource(elseBody))),
                BlockToksAt(thenBody) + BlockToksAt(elseBody));
      EmitsForm("ifelse", Spaced(NodeToSource(condition), Spaced(Block(BodyToSource(thenBody)), Block(BodyToSource(elseBody)))),
                ToksAt(condition, false) + (BlockToksAt(thenBody) + BlockToksAt(elseBody)), before);
    case ForEach(variable, list, body) => EmitsForEach(variable, list, body, before);
    case Output(value) =>
      LowerWord("output");
      EmitsNode(value, false);
      EmitsForm("output", NodeToSource(value), ToksAt(value, false), before);
    case Stop => LowerWord("stop"); EmitsWord("stop", before);
    case Forever(body) => LowerWord("forever"); EmitsOneBlock(n, "forever", body, before);
    case Launch(body) => LowerWord("launch"); EmitsOneBlock(n, "launch", body, before);
    case WaitUntil(test) => LowerWord("waituntil"); EmitsOneBlock(n, "waituntil", test, before);
    case Carefully(body, handler) => LowerWord("carefully"); EmitsTwoBlocks(n, "carefully", body, handler, before);
    case While(test, body) => LowerWord("while"); EmitsTwoBlocks(n, "while", test, body, before);
    case Until(test, body) => LowerWord("until"); EmitsTwoBlocks(n, "until", test, body, before);
  }

  /** `n` holds the two blocks `a` and `b`. */
  predicate HasBlocks(n: AstNode, a: seq<AstNode>, b: seq<AstNode>) {
    (n.IfElse? && n.thenBody == a && n.elseBody == b) || n == Carefully(a, b) || n == While(a, b) || n == Until(a, b)
  }

  lemma {:induction false} EmitsHeaded(n: AstNode, keyword: string, head: AstNode, body: seq<AstNode>, before: bool)
    requires n == Repeat(head, body) || n == If(head, body)
    requires CleanName(keyword) && Fit(head) && FitSeq(body)
    ensures Emits(Spaced(keyword, Spaced(NodeToSource(head), Block(BodyToSource(body)))),
                  [WordTok(keyword)] + (ToksAt(head, false) + BlockToksAt(body)), before, false)
    decreases n, 0
  {
    hide Emits, Fit, CleanName, FitSeq, NodeToSource, BodyToSource, ToksAt, BlockToksAt, Spaced, Block;
    EmitsNode(head, false);
    EmitsBody(body, false);
    EmitsPair(NodeToSource(head), ToksAt(head, false), Block(BodyToSource(body)), BlockToksAt(body));
    EmitsForm(keyword, Spaced(NodeToSource(head), Block(BodyToSource(body))), ToksAt(head, false) + BlockToksAt(body), before);
  }

  lemma {:induction false} EmitsForEach(variable: string, list: AstNode, body: seq<AstNode>, before: bool)
    requires CleanQuoted(variable) && Fit(list) && FitSeq(body)
    ensures Emits(Spaced("foreach", Spaced("\"" + variable, Spaced("", Spaced(NodeToSource(list), Block(BodyToSource(body)))))),
                  [WordTok("foreach")] + ([Tok(TokenType.QuotedWord, variable)] + (ToksAt(list, false) + BlockToksAt(body))), before, false)
    decreases ForEach(variable, list, body), 0
  {
    hide Emits, Fit, CleanQuoted, FitSeq, CleanName, NodeToSource, BodyToSource, ToksAt, BlockToksAt, Spaced, Block;
    LowerWord("foreach");
    EmitsNode(list, false);
    EmitsBody(body, false);
    var s1, k1 := Spaced(NodeToSource(list), Block(BodyToSource(body))), ToksAt(list, false) + BlockToksAt(body);
    EmitsPair(NodeToSource(list), ToksAt(list, false), Block(BodyToSource(body)), BlockToksAt(body));
    EmitsNothing(false);
    EmitsPair("", [], s1, k1);
    assert [] + k1 == k1;
    EmitsQuoted(variable, false);
    EmitsPair("\"" + variable, [Tok(TokenType.QuotedWord, variable)], Spaced("", s1), k1);
    EmitsForm("foreach", Spaced("\"" + variable, Spaced("", s1)), [Tok(TokenType.QuotedWord, variable)] + k1, before);
  }

  lemma {:induction false} EmitsBlocks(n: AstNode, a: seq<AstNode>, b: seq<AstNode>)
    requires HasBlocks(n, a, b) && FitSeq(a) && FitSeq(b)
    ensures Emits(Spaced(Block(BodyToSource(a)), Block(BodyToSource(b))), BlockToksAt(a) + BlockToksAt(b), false, false)
    decreases n, 0
  {
    hide Emits, FitSeq, BodyToSource, BlockToksAt, Spaced, Block;
    EmitsBody(a, false);
    EmitsBody(b, false);
    EmitsPair(Block(BodyToSource(a)), BlockToksAt(a), Block(BodyToSource(b)), BlockToksAt(b));
  }

  lemma {:induction false} EmitsOneBlock(n: AstNode, keyword: string, body: seq<AstNode>, before: bool)
    requires n == Forever(body) || n == Launch(body) || n == WaitUntil(body)
    requires CleanName(keyword) && FitSeq(body)
    ensures Emits(Spaced(keyword, Block(BodyToSource(body))), [WordTok(keyword)] + BlockToksAt(body), before, false)
    decreases n, 0
  {
    hide Emits, CleanName, FitSeq, BodyToSource, BlockToksAt, Spaced, Block;
    EmitsBody(body, false);
    EmitsForm(keyword, Block(BodyToSource(body)), BlockToksAt(body), before);
  }

  lemma {:induction false} EmitsTwoBlocks(n: AstNode, keyword: string, a: seq<AstNode>, b: seq<AstNode>, before: bool)
    requires HasBlocks(n, a, b) && !n.IfElse?
    requires CleanName(keyword) && FitSeq(a) && FitSeq(b)
    ensures Emits(Spaced(keyword, Spaced(Block(BodyToSource(a)), Block(BodyToSource(b)))),
                  [WordTok(keyword)] + (BlockToksAt(a) + BlockToksAt(b)), before, false)
    decreases n, 1
  {
    hide Emits, CleanName, FitSeq, BodyToSource, BlockToksAt, Spaced, Block;
    EmitsBlocks(n, a, b);
    EmitsForm(keyword, Spaced(Block(BodyToSource(a)), Block(BodyToSource(b))), BlockToksAt(a) + BlockToksAt(b), before);
  }
}
