/** Readings that the printer never asks for: bare words as values, short spellings, bodies and line ends in brackets; and what errors say. */
module Readings {
  import opened Tokens
  import opened Ast
  import opened Grammar
  import opened Printable
  import opened PrintParse

  /** The same tokens, but for one that is a quoted word instead. */
  function Quoted(ts: seq<Token>, pos: nat): seq<Token>
    requires pos < |ts|
  {
    ts[pos := Token(TokenType.QuotedWord, ts[pos].value, ts[pos].line, ts[pos].col)]
  }

  /** The bare words `true` and `false` are read like the same words in quotes. */
  lemma TruthWords(ts: seq<Token>, st: State)
    requires Within(ts, st) && ts[st.pos].kind == TokenType.Word && (ts[st.pos].value == "true" || ts[st.pos].value == "false")
    requires st.pos + 1 < |ts|
    ensures Within(Quoted(ts, st.pos), st) && Atom(ts, st) == Atom(Quoted(ts, st.pos), st)
    ensures Atom(ts, st) == Done(AstNode.Word(ts[st.pos].value), State(st.pos + 1, st.arities))
  {
    hide Quoted, Atom, SpecialForm;
    QuotedIs(ts, st.pos);
    TruthForm(ts, Next(st), ts[st.pos].value);
    QuotedReads(Quoted(ts, st.pos), st);
    FormReads(ts, st);
  }

  lemma QuotedIs(ts: seq<Token>, pos: nat)
    requires Ended(ts) && pos + 1 < |ts|
    ensures var us := Quoted(ts, pos); Ended(us) && |us| == |ts| && us[pos].kind == TokenType.QuotedWord && us[pos].value == ts[pos].value
  {
  }

  lemma FormReads(ts: seq<Token>, st: State)
    requires Within(ts, st) && ts[st.pos].kind == TokenType.Word && (ts[st.pos].value == "true" || ts[st.pos].value == "false")
    ensures Atom(ts, st) == SpecialForm(ts, Next(st), ts[st.pos].value)
  {
    hide SpecialForm;
    assert WordExpr(ts, st) == SpecialForm(ts, Next(st), ts[st.pos].value);
  }

  lemma TruthForm(ts: seq<Token>, st: State, name: string)
    requires Within(ts, st) && (name == "true" || name == "false")
    ensures SpecialForm(ts, st, name) == Done(AstNode.Word(name), st)
  {
    hide Expression, ListBody, ForEachForm;
    assert BlockForm(ts, st, name) == Done(AstNode.Word(name), st);
  }

  lemma QuotedReads(ts: seq<Token>, st: State)
    requires Within(ts, st) && ts[st.pos].kind == TokenType.QuotedWord
    ensures Atom(ts, st) == RawAtom(ts, st) == Done(AstNode.Word(ts[st.pos].value), Next(st))
  {
    hide ListLiteral, ParenExpr, WordExpr, NumberAt;
  }

  /** In a data list every bare word, keywords included, is read like the same word in quotes. */
  lemma ListWords(ts: seq<Token>, st: State)
    requires Within(ts, st) && st.pos + 1 < |ts| && ts[st.pos].kind == TokenType.Word
    ensures Within(Quoted(ts, st.pos), st) && RawAtom(ts, st) == RawAtom(Quoted(ts, st.pos), st)
    ensures RawAtom(ts, st) == Done(AstNode.Word(ts[st.pos].value), State(st.pos + 1, st.arities))
  {
    hide Quoted, Atom, RawAtom;
    QuotedIs(ts, st.pos);
    QuotedReads(Quoted(ts, st.pos), st);
    BareReads(ts, st);
  }

  lemma BareReads(ts: seq<Token>, st: State)
    requires Within(ts, st) && ts[st.pos].kind == TokenType.Word
    ensures RawAtom(ts, st) == Done(AstNode.Word(ts[st.pos].value), Next(st))
  {
    hide ListLiteral, NumberAt;
  }

  /** `op` and `output` are the same: both answer the expression behind them. */
  lemma OutputWords(ts: seq<Token>, st: State)
    requires Within(ts, st) && st.pos + 1 < |ts| && ts[st.pos].kind == TokenType.Word
    requires ts[st.pos].value == "op" || ts[st.pos].value == "output"
    ensures var r := Expression(ts, State(st.pos + 1, st.arities));
      Atom(ts, st) == if r.Done? then Done(Output(r.value), r.state) else Fail(r.error, r.state)
  {
    hide Expression;
    var name, r := ts[st.pos].value, Expression(ts, Next(st));
    assert SpecialForm(ts, Next(st), name) == if r.Done? then Done(Output(r.value), r.state) else Fail(r.error, r.state);
    assert WordExpr(ts, st) == SpecialForm(ts, Next(st), name);
  }

  /** A procedure whose body is a block in brackets behind its header. */
  lemma {:induction false} InlineDefinition(name: string, params: seq<string>, body: seq<AstNode>, ts: seq<Token>, st: State)
    requires Ended(ts) && At(ts, st.pos, [WordTok("to"), WordTok(name)] + (ParamToks(params) + BlockToks(body)))
    requires CleanSeq(body, st.arities[name := |params|], true) && CanonicalSeq(body)
    ensures var n := 2 + |ParamToks(params)| + |BlockToks(body)|;
      Atom(ts, st) == Done(ProcDef(name, params, body), State(st.pos + n, AfterSeq(body, st.arities[name := |params|])))
  {
    hide Params, ListBody, ParamToks, CleanSeq, CanonicalSeq, AfterSeq, SeqToks;
    InlineHeader(name, params, body, ts, st.pos);
    var st1 := Next(Next(st));
    var st2 := Moved(st1, ParamToks(params), st.arities[name := |params|]);
    ParsesParams(params, ts, st1, []);
    assert [] + params == params;
    SkipsNothing(ts, st2);
    ParsesBody(body, ts, st2);
    ToStarts(ts, st);
  }

  lemma InlineHeader(name: string, params: seq<string>, body: seq<AstNode>, ts: seq<Token>, pos: nat)
    requires At(ts, pos, [WordTok("to"), WordTok(name)] + (ParamToks(params) + BlockToks(body)))
    ensures var p := pos + 2 + |ParamToks(params)|;
      && p < |ts| && ts[pos].Shape() == WordTok("to") && ts[pos + 1].Shape() == WordTok(name)
      && At(ts, pos + 2, ParamToks(params)) && At(ts, p, BlockToks(body)) && ts[p].Shape() == OPEN
  {
    hide SeqToks, ParamToks, At;
    var to, nm := [WordTok("to")], [WordTok(name)];
    assert [WordTok("to"), WordTok(name)] == to + nm;
    AtSplit(ts, pos, to + nm, ParamToks(params) + BlockToks(body));
    AtSplit(ts, pos, to, nm);
    AtSplit(ts, pos + 2, ParamToks(params), BlockToks(body));
    AtFirst(ts, pos, WordTok("to"));
    AtFirst(ts, pos + 1, WordTok(name));
    assert BlockToks(body) == [OPEN] + (SeqToks(body) + [CLOSE]);
    AtSplit(ts, pos + 2 + |ParamToks(params)|, [OPEN], SeqToks(body) + [CLOSE]);
    AtFirst(ts, pos + 2 + |ParamToks(params)|, OPEN);
  }

  // ---- Line ends in brackets ----

  /** So many line ends. */
  function LineToksOf(n: nat): seq<Tok> {
    if n == 0 then [] else [LINE] + LineToksOf(n - 1)
  }

  /** The nodes of a block with line ends between and around them: `gaps` says how many stand behind the bracket and each node. */
  function SpreadToks(nodes: seq<AstNode>, gaps: seq<nat>): seq<Tok>
    requires |gaps| == |nodes|
    decreases nodes
  {
    if nodes == [] then [] else Toks(nodes[0]) + LineToksOf(gaps[0]) + SpreadToks(nodes[1..], gaps[1..])
  }

  lemma {:induction false} SkipsLines(ts: seq<Token>, st: State, n: nat)
    requires Ended(ts) && At(ts, st.pos, LineToksOf(n)) && ts[st.pos + |LineToksOf(n)|].kind != TokenType.Newline
    ensures SkipNewlines(ts, st) == State(st.pos + |LineToksOf(n)|, st.arities)
    decreases n
  {
    if n > 0 {
      AtSplit(ts, st.pos, [LINE], LineToksOf(n - 1));
      AtFirst(ts, st.pos, LINE);
      SkipsLines(ts, Next(st), n - 1);
    }
  }

  lemma LineOrEnd(ts: seq<Token>, pos: nat, n: nat)
    requires At(ts, pos, LineToksOf(n)) && ts[pos + |LineToksOf(n)|].kind != TokenType.Infix
    ensures ts[pos].kind != TokenType.Infix
  {
    hide LineToksOf;
    if n > 0 {
      FirstLine(ts, pos, n);
    }
    assert n == 0 ==> LineToksOf(n) == [] by { NoLines(); }
  }

  lemma NoLines()
    ensures LineToksOf(0) == []
  {
  }

  lemma FirstLine(ts: seq<Token>, pos: nat, n: nat)
    requires n > 0 && At(ts, pos, LineToksOf(n))
    ensures ts[pos].Shape() == LINE
  {
    AtSplit(ts, pos, [LINE], LineToksOf(n - 1));
    AtFirst(ts, pos, LINE);
  }

  lemma SpreadIs(nodes: seq<AstNode>, gaps: seq<nat>)
    requires |gaps| == |nodes| && nodes != []
    ensures SpreadToks(nodes, gaps) == Toks(nodes[0]) + LineToksOf(gaps[0]) + SpreadToks(nodes[1..], gaps[1..])
  {
    hide Toks, LineToksOf;
  }

  /** The parts of a spread block. */
  lemma SpreadSplits(ts: seq<Token>, pos: nat, nodes: seq<AstNode>, gaps: seq<nat>)
    requires |gaps| == |nodes| && nodes != [] && At(ts, pos, SpreadToks(nodes, gaps))
    ensures At(ts, pos, Toks(nodes[0]))
    ensures var p := pos + |Toks(nodes[0])|; At(ts, p, LineToksOf(gaps[0])) && At(ts, p + |LineToksOf(gaps[0])|, SpreadToks(nodes[1..], gaps[1..]))
    ensures |SpreadToks(nodes, gaps)| == |Toks(nodes[0])| + |LineToksOf(gaps[0])| + |SpreadToks(nodes[1..], gaps[1..])|
  {
    hide Toks, LineToksOf, At, SpreadToks;
    SpreadIs(nodes, gaps);
    AtSplit(ts, pos, Toks(nodes[0]) + LineToksOf(gaps[0]), SpreadToks(nodes[1..], gaps[1..]));
    AtSplit(ts, pos, Toks(nodes[0]), LineToksOf(gaps[0]));
  }

  /** What follows the line ends is the next node or what stands behind, and neither is a line end or an operator. */
  lemma SpreadFirst(ts: seq<Token>, pos: nat, nodes: seq<AstNode>, gaps: seq<nat>)
    requires |gaps| == |nodes| && At(ts, pos, SpreadToks(nodes, gaps))
    requires ts[pos + |SpreadToks(nodes, gaps)|].kind != TokenType.Newline && ts[pos + |SpreadToks(nodes, gaps)|].kind != TokenType.Infix
    ensures pos < |ts| && ts[pos].kind != TokenType.Newline && ts[pos].kind != TokenType.Infix
    ensures nodes != [] ==> ts[pos].kind != TokenType.CloseBracket && ts[pos].kind != TokenType.Eof
    ensures nodes != [] && !StartsWith(nodes[0], WordTok("end")) ==> ts[pos].Shape() != WordTok("end")
  {
    hide Toks, LineToksOf;
    if nodes == [] {
      assert SpreadToks(nodes, gaps) == [];
    } else {
      SpreadSplits(ts, pos, nodes, gaps);
      StartsNode(ts, pos, nodes[0]);
    }
  }

  /** The first statement is read, and the line ends behind it are passed over. */
  lemma SpreadStep(nodes: seq<AstNode>, gaps: seq<nat>, ts: seq<Token>, st: State) returns (st1: State, st2: State)
    requires |gaps| == |nodes| && nodes != [] && Ended(ts) && At(ts, st.pos, SpreadToks(nodes, gaps))
    requires CleanLines(nodes, st.arities) && CanonicalSeq(nodes)
    requires ts[st.pos + |SpreadToks(nodes, gaps)|].kind != TokenType.Newline && ts[st.pos + |SpreadToks(nodes, gaps)|].kind != TokenType.Infix
    ensures Expression(ts, st) == Done(nodes[0], st1) && SkipNewlines(ts, st1) == st2 && At(ts, st2.pos, SpreadToks(nodes[1..], gaps[1..]))
    ensures st2.pos + |SpreadToks(nodes[1..], gaps[1..])| == st.pos + |SpreadToks(nodes, gaps)|
    ensures st2.arities == After(nodes[0], st.arities)
  {
    hide Expression, Toks, Clean, Canonical, After, At, LineToksOf;
    SpreadSplits(ts, st.pos, nodes, gaps);
    st1 := Moved(st, Toks(nodes[0]), After(nodes[0], st.arities));
    st2 := State(st1.pos + |LineToksOf(gaps[0])|, st1.arities);
    SpreadFirst(ts, st2.pos, nodes[1..], gaps[1..]);
    LineOrEnd(ts, st1.pos, gaps[0]);
    ParsesWhole(nodes[0], ts, st, true);
    SkipsLines(ts, st1, gaps[0]);
  }

  lemma {:induction false} SpreadNodes(nodes: seq<AstNode>, gaps: seq<nat>, ts: seq<Token>, st: State, done: seq<AstNode>)
    requires |gaps| == |nodes| && Ended(ts) && At(ts, st.pos, SpreadToks(nodes, gaps))
    requires CleanLines(nodes, st.arities) && CanonicalSeq(nodes)
    requires ts[st.pos + |SpreadToks(nodes, gaps)|].kind == TokenType.CloseBracket
    ensures BodyNodes(ts, st, done) == Done(done + nodes, State(st.pos + |SpreadToks(nodes, gaps)| + 1, AfterSeq(nodes, st.arities)))
    decreases nodes
  {
    hide Expression, Toks, Clean, Canonical, After, At, SpreadToks;
    SpreadFirst(ts, st.pos, nodes, gaps);
    if nodes == [] {
      SpreadNothing();
      assert done + [] == done;
    } else {
      var st1, st2 := SpreadStep(nodes, gaps, ts, st);
      SpreadNodes(nodes[1..], gaps[1..], ts, st2, done + [nodes[0]]);
      assert done + [nodes[0]] + nodes[1..] == done + nodes;
    }
  }

  lemma SpreadNothing()
    ensures SpreadToks([], []) == []
  {
  }

  /** The statements of an input may stand on one line or on any number of lines. */
  lemma {:induction false} SpreadProgram(nodes: seq<AstNode>, gaps: seq<nat>, ts: seq<Token>, st: State, done: seq<AstNode>)
    requires |gaps| == |nodes| && Ended(ts) && At(ts, st.pos, SpreadToks(nodes, gaps))
    requires CleanLines(nodes, st.arities) && CanonicalSeq(nodes)
    requires ts[st.pos + |SpreadToks(nodes, gaps)|].kind == TokenType.Eof
    ensures Program(ts, st, done) == Done(done + nodes, State(st.pos + |SpreadToks(nodes, gaps)|, AfterSeq(nodes, st.arities)))
    decreases nodes
  {
    hide Expression, Toks, Clean, Canonical, After, At, SpreadToks;
    SpreadFirst(ts, st.pos, nodes, gaps);
    if nodes == [] {
      SpreadNothing();
      assert done + [] == done;
    } else {
      var st1, st2 := SpreadStep(nodes, gaps, ts, st);
      SpreadProgram(nodes[1..], gaps[1..], ts, st2, done + [nodes[0]]);
      assert done + [nodes[0]] + nodes[1..] == done + nodes;
    }
  }

  /** So may the statements of a definition, up to its `end`. */
  lemma {:induction false} SpreadDefinition(nodes: seq<AstNode>, gaps: seq<nat>, ts: seq<Token>, st: State,
                                              token: Token, name: string, done: seq<AstNode>)
    requires |gaps| == |nodes| && Ended(ts) && At(ts, st.pos, SpreadToks(nodes, gaps))
    requires CleanLines(nodes, st.arities) && CanonicalSeq(nodes)
    requires ts[st.pos + |SpreadToks(nodes, gaps)|].Shape() == WordTok("end") && st.pos + |SpreadToks(nodes, gaps)| + 1 < |ts|
    ensures ProcedureBody(ts, st, token, name, done)
         == Done(done + nodes, State(st.pos + |SpreadToks(nodes, gaps)| + 1, AfterSeq(nodes, st.arities)))
    decreases nodes
  {
    hide Expression, Toks, Clean, Canonical, After, At, SpreadToks;
    SpreadFirst(ts, st.pos, nodes, gaps);
    if nodes == [] {
      SpreadNothing();
      assert done + [] == done;
    } else {
      var st1, st2 := SpreadStep(nodes, gaps, ts, st);
      SpreadDefinition(nodes[1..], gaps[1..], ts, st2, token, name, done + [nodes[0]]);
      assert done + [nodes[0]] + nodes[1..] == done + nodes;
    }
  }

  lemma {:induction false} SpreadElements(nodes: seq<AstNode>, gaps: seq<nat>, ts: seq<Token>, st: State, done: seq<AstNode>)
    requires |gaps| == |nodes| && Ended(ts) && At(ts, st.pos, SpreadToks(nodes, gaps))
    requires forall i :: 0 <= i < |nodes| ==> IsRaw(nodes[i]) && Clean(nodes[i], st.arities, true)
    requires ts[st.pos + |SpreadToks(nodes, gaps)|].kind == TokenType.CloseBracket
    ensures ListElements(ts, st, done) == Done(done + nodes, State(st.pos + |SpreadToks(nodes, gaps)| + 1, st.arities))
    decreases nodes
  {
    hide RawAtom, IsRaw, Toks, Clean, At, SpreadToks, LineToksOf;
    SpreadFirst(ts, st.pos, nodes, gaps);
    if nodes == [] {
      SpreadNothing();
      assert done + [] == done;
    } else {
      SpreadSplits(ts, st.pos, nodes, gaps);
      var st1 := Moved(st, Toks(nodes[0]), st.arities);
      var st2 := State(st1.pos + |LineToksOf(gaps[0])|, st1.arities);
      SpreadFirst(ts, st2.pos, nodes[1..], gaps[1..]);
      ParsesElement(nodes[0], ts, st, true);
      SkipsLines(ts, st1, gaps[0]);
      SpreadElements(nodes[1..], gaps[1..], ts, st2, done + [nodes[0]]);
      assert done + [nodes[0]] + nodes[1..] == done + nodes;
    }
  }

  /** A data list may be spread over any number of lines too. */
  lemma {:induction false} SpreadList(nodes: seq<AstNode>, first: nat, gaps: seq<nat>, ts: seq<Token>, st: State)
    requires |gaps| == |nodes| && Ended(ts) && At(ts, st.pos, [OPEN] + (LineToksOf(first) + SpreadToks(nodes, gaps)) + [CLOSE])
    requires forall i :: 0 <= i < |nodes| ==> IsRaw(nodes[i]) && Clean(nodes[i], st.arities, true)
    ensures ListLiteral(ts, st) == Done(AstNode.List(nodes), State(st.pos + 2 + |LineToksOf(first)| + |SpreadToks(nodes, gaps)|, st.arities))
  {
    hide ListElements, LineToksOf, SpreadToks, IsRaw, Clean, At;
    SpreadStands(nodes, first, gaps, ts, st.pos);
    SkipsLines(ts, Next(st), first);
    SpreadElements(nodes, gaps, ts, State(st.pos + 1 + |LineToksOf(first)|, st.arities), []);
    assert [] + nodes == nodes;
  }

  /** Where the parts of a spread bracket stand. */
  lemma SpreadStands(nodes: seq<AstNode>, first: nat, gaps: seq<nat>, ts: seq<Token>, pos: nat)
    requires |gaps| == |nodes| && At(ts, pos, [OPEN] + (LineToksOf(first) + SpreadToks(nodes, gaps)) + [CLOSE])
    ensures var p := pos + 1 + |LineToksOf(first)|; var q := p + |SpreadToks(nodes, gaps)|;
      && q < |ts| && ts[pos].Shape() == OPEN && At(ts, pos + 1, LineToksOf(first)) && At(ts, p, SpreadToks(nodes, gaps))
      && ts[q].Shape() == CLOSE && ts[p].kind != TokenType.Newline
  {
    hide LineToksOf, SpreadToks, At;
    var lines, spread := LineToksOf(first), SpreadToks(nodes, gaps);
    AtSplit(ts, pos, [OPEN] + (lines + spread), [CLOSE]);
    AtSplit(ts, pos, [OPEN], lines + spread);
    AtSplit(ts, pos + 1, lines, spread);
    AtFirst(ts, pos, OPEN);
    AtFirst(ts, pos + 1 + |lines| + |spread|, CLOSE);
    SpreadFirst(ts, pos + 1 + |lines|, nodes, gaps);
  }

  /** A block may be spread over any number of lines: it is read as on one line, and each line may start with a negative number. */
  lemma {:induction false} SpreadBlock(nodes: seq<AstNode>, first: nat, gaps: seq<nat>, ts: seq<Token>, st: State)
    requires |gaps| == |nodes| && Ended(ts) && At(ts, st.pos, [OPEN] + (LineToksOf(first) + SpreadToks(nodes, gaps)) + [CLOSE])
    requires CleanLines(nodes, st.arities) && CanonicalSeq(nodes)
    ensures ListBody(ts, st)
         == Done(nodes, State(st.pos + 2 + |LineToksOf(first)| + |SpreadToks(nodes, gaps)|, AfterSeq(nodes, st.arities)))
  {
    hide BodyNodes, LineToksOf, SpreadToks, CleanLines, CanonicalSeq, AfterSeq, At;
    SpreadStands(nodes, first, gaps, ts, st.pos);
    SkipsLines(ts, Next(st), first);
    SpreadNodes(nodes, gaps, ts, State(st.pos + 1 + |LineToksOf(first)|, st.arities), []);
    assert [] + nodes == nodes;
  }

  // ---- What errors say, and where ----

  /** So many number tokens in a row. */
  predicate Numbers(ts: seq<Token>, pos: nat, n: nat) {
    pos + n < |ts| && forall i :: pos <= i < pos + n ==> ts[i].kind == TokenType.Number && IsNumber(ts[i].value)
  }

  lemma NumbersNext(ts: seq<Token>, pos: nat, n: nat)
    requires Numbers(ts, pos, n)
    ensures pos + n < |ts|
    ensures n > 0 ==> ts[pos].kind == TokenType.Number && IsNumber(ts[pos].value) && Numbers(ts, pos + 1, n - 1)
    ensures n > 1 ==> ts[pos + 1].kind == TokenType.Number
  {
  }

  lemma {:induction false} TooFewInputs(ts: seq<Token>, st: State, token: Token, arity: nat, args: seq<AstNode>, n: nat)
    requires Ended(ts) && Numbers(ts, st.pos, n) && |args| + n < arity
    requires ts[st.pos + n].kind == TokenType.Eof || ts[st.pos + n].kind == TokenType.Newline
    ensures CallArgs(ts, st, token, arity, args) ==
      var message := NeedsInputs(token.value, arity, |args| + n);
      Fail(if ts[st.pos + n].kind == TokenType.Eof then Incomplete(message, token.line, token.col) else Syntax(message, token.line, token.col),
           State(st.pos + n, st.arities))
    decreases n
  {
    hide CallArgs, Expression, Numbers, IsNumber;
    NumbersNext(ts, st.pos, n);
    if n == 0 {
      InputMissing(ts, st, token, arity, args);
    } else {
      OneInput(ts, st, token, arity, args);
      TooFewInputs(ts, Next(st), token, arity, args + [AstNode.Number(ts[st.pos].value)], n - 1);
    }
  }

  lemma InputMissing(ts: seq<Token>, st: State, token: Token, arity: nat, args: seq<AstNode>)
    requires Within(ts, st) && |args| < arity && (ts[st.pos].kind == TokenType.Eof || ts[st.pos].kind == TokenType.Newline)
    ensures CallArgs(ts, st, token, arity, args) ==
      var message := NeedsInputs(token.value, arity, |args|);
      Fail(if ts[st.pos].kind == TokenType.Eof then Incomplete(message, token.line, token.col) else Syntax(message, token.line, token.col), st)
  {
  }

  lemma OneInput(ts: seq<Token>, st: State, token: Token, arity: nat, args: seq<AstNode>)
    requires Within(ts, st) && |args| < arity && ts[st.pos].kind == TokenType.Number && IsNumber(ts[st.pos].value)
    requires st.pos + 1 < |ts| && ts[st.pos + 1].kind != TokenType.Infix
    ensures CallArgs(ts, st, token, arity, args) == CallArgs(ts, Next(st), token, arity, args + [AstNode.Number(ts[st.pos].value)])
  {
    hide Expression;
    NumberReads(ts, st);
  }

  lemma NumberReads(ts: seq<Token>, st: State)
    requires Within(ts, st) && st.pos + 1 < |ts| && ts[st.pos].kind == TokenType.Number && IsNumber(ts[st.pos].value)
    requires ts[st.pos + 1].kind != TokenType.Infix
    ensures Expression(ts, st) == Done(AstNode.Number(ts[st.pos].value), Next(st))
  {
  }

  /** A call of a procedure with too few inputs names the procedure, how many it needs and how many it got, at the name. */
  lemma CallSays(ts: seq<Token>, st: State, n: nat)
    requires Within(ts, st) && ts[st.pos].kind == TokenType.Word && !IsKeyword(ts[st.pos].value)
    requires Numbers(ts, st.pos + 1, n) && n < ArityOf(st.arities, ts[st.pos].value)
    requires ts[st.pos + 1 + n].kind == TokenType.Eof || ts[st.pos + 1 + n].kind == TokenType.Newline
    ensures var t := ts[st.pos]; var message := NeedsInputs(t.value, ArityOf(st.arities, t.value), n);
      Expression(ts, st) == Fail(if ts[st.pos + 1 + n].kind == TokenType.Eof then Incomplete(message, t.line, t.col) else Syntax(message, t.line, t.col),
                                 State(st.pos + 1 + n, st.arities))
  {
    hide CallArgs, ArityOf, IsFormKeyword;
    TooFewInputs(ts, Next(st), ts[st.pos], ArityOf(st.arities, ts[st.pos].value), [], n);
    assert WordExpr(ts, st).Fail?;
  }

  /** A definition that is not ended is reported under its name, at its `to`. */
  lemma DefinitionSays(ts: seq<Token>, st: State)
    requires Within(ts, st) && st.pos + 2 < |ts| && ts[st.pos].Shape() == WordTok("to")
    requires ts[st.pos + 1].kind == TokenType.Word && ts[st.pos + 2].kind == TokenType.Eof
    ensures Expression(ts, st) ==
      Fail(Incomplete(MissingEnd(ts[st.pos + 1].value), ts[st.pos].line, ts[st.pos].col), State(st.pos + 2, st.arities[ts[st.pos + 1].value := 0]))
  {
    var ar, to := st.arities[ts[st.pos + 1].value := 0], ts[st.pos];
    var st2 := State(st.pos + 2, ar);
    assert Params(ts, Next(Next(st)), []) == ([], Next(Next(st)));
    assert SkipNewlines(ts, st2) == st2;
    assert ProcedureBody(ts, st2, to, ts[st.pos + 1].value, []).Fail?;
    assert ProcedureDef(ts, Next(st), to).Fail?;
    ToStarts(ts, st);
  }

  /** `to` without a name is reported at `to`. */
  lemma NameMissing(ts: seq<Token>, st: State)
    requires Within(ts, st) && st.pos + 1 < |ts| && ts[st.pos].Shape() == WordTok("to") && ts[st.pos + 1].kind != TokenType.Word
    ensures Expression(ts, st) == Fail(Syntax(ExpectedProcedureName, ts[st.pos].line, ts[st.pos].col), State(st.pos + 1, st.arities))
  {
    ToStarts(ts, st);
  }

  /** An open list or block is reported where the input ends. */
  lemma BracketSays(ts: seq<Token>, st: State)
    requires Within(ts, st) && st.pos + 1 < |ts| && ts[st.pos].kind == TokenType.OpenBracket && ts[st.pos + 1].kind == TokenType.Eof
    ensures var e := Incomplete(MissingBracket, ts[st.pos + 1].line, ts[st.pos + 1].col);
      Expression(ts, st) == Fail(e, State(st.pos + 1, st.arities)) && ListBody(ts, st) == Fail(e, State(st.pos + 1, st.arities))
  {
    hide ListLiteral, BodyNodes, SkipNewlines;
    var e := Incomplete(MissingBracket, ts[st.pos + 1].line, ts[st.pos + 1].col);
    SkipsNothing(ts, Next(st));
    ListSays(ts, st);
    NodesSay(ts, Next(st));
    assert Atom(ts, st) == Fail(e, Next(st));
  }

  lemma ListSays(ts: seq<Token>, st: State)
    requires Within(ts, st) && st.pos + 1 < |ts| && ts[st.pos].kind == TokenType.OpenBracket && ts[st.pos + 1].kind == TokenType.Eof
    ensures ListLiteral(ts, st) == Fail(Incomplete(MissingBracket, ts[st.pos + 1].line, ts[st.pos + 1].col), Next(st))
  {
    SkipsNothing(ts, Next(st));
    assert ListElements(ts, Next(st), []).Fail?;
  }

  lemma NodesSay(ts: seq<Token>, st: State)
    requires Within(ts, st) && ts[st.pos].kind == TokenType.Eof
    ensures BodyNodes(ts, st, []) == Fail(Incomplete(MissingBracket, ts[st.pos].line, ts[st.pos].col), st)
  {
  }

  /** An open parenthesis is reported at the name behind it. */
  lemma ParenthesisSays(ts: seq<Token>, st: State, n: nat)
    requires Within(ts, st) && st.pos + 2 < |ts| && ts[st.pos].kind == TokenType.OpenParen && ts[st.pos + 1].kind == TokenType.Word
    requires Numbers(ts, st.pos + 2, n) && ts[st.pos + 2 + n].kind == TokenType.Eof
    ensures Expression(ts, st) == Fail(Incomplete(MissingParen, ts[st.pos + 1].line, ts[st.pos + 1].col), State(st.pos + 2 + n, st.arities))
  {
    ParenNumbers(ts, Next(Next(st)), ts[st.pos + 1], [], n);
    assert ParenExpr(ts, st).Fail?;
  }

  lemma {:induction false} ParenNumbers(ts: seq<Token>, st: State, name: Token, args: seq<AstNode>, n: nat)
    requires Ended(ts) && Numbers(ts, st.pos, n) && ts[st.pos + n].kind == TokenType.Eof
    ensures ParenArgs(ts, st, name, args) == Fail(Incomplete(MissingParen, name.line, name.col), State(st.pos + n, st.arities))
    decreases n
  {
    hide Expression, Numbers, IsNumber;
    NumbersNext(ts, st.pos, n);
    if n > 0 {
      NumberReads(ts, st);
      ParenNumbers(ts, Next(st), name, args + [AstNode.Number(ts[st.pos].value)], n - 1);
    }
  }

  /** Where a block or a closing parenthesis is wanted, the token that stands there is reported, at its place. */
  lemma WantedSays(ts: seq<Token>, st: State, kind: TokenType)
    requires Within(ts, st) && ts[st.pos].kind != kind && kind != TokenType.Eof
    ensures Expect(ts, st, kind) == Fail(Syntax(Expected(kind, ts[st.pos].value), ts[st.pos].line, ts[st.pos].col), st)
    ensures kind.OpenBracket? ==> ListBody(ts, st) == Fail(Syntax(Expected(kind, ts[st.pos].value), ts[st.pos].line, ts[st.pos].col), st)
  {
  }

  /** No expression starts with a closing bracket, an operator, a line end or the end; in a list nothing but data may stand. */
  lemma UnexpectedSays(ts: seq<Token>, st: State)
    requires Within(ts, st)
    ensures var t := ts[st.pos]; var k := t.kind;
      k.CloseBracket? || k.CloseParen? || k.Infix? || k.Newline? || k.Eof? ==>
        Expression(ts, st) == Fail(Syntax(UnexpectedToken(t.value), t.line, t.col), st)
    ensures var t := ts[st.pos]; var k := t.kind;
      k.OpenParen? || k.CloseParen? || k.Infix? ==> RawAtom(ts, st) == Fail(Syntax(UnexpectedInList(t.value), t.line, t.col), st)
  {
  }

  /** A number that is none aborts, and the lexeme is named; a name of `foreach` that is no word is refused. */
  lemma MalformedSays(ts: seq<Token>, st: State)
    requires Within(ts, st) && st.pos + 1 < |ts| && ts[st.pos].kind == TokenType.Number && !IsNumber(ts[st.pos].value)
    ensures Expression(ts, st) == Fail(Panicked(ts[st.pos].value), State(st.pos + 1, st.arities))
  {
  }
}
