/** Parsing the tokens of a canonical tree gives that tree. */
module PrintParse {
  import opened Tokens
  import opened Ast
  import opened Grammar
  import opened Printable

  /** The tokens `ks` stand at `pos`, and something follows them. */
  ghost predicate At(ts: seq<Token>, pos: nat, ks: seq<Tok>) {
    pos + |ks| < |ts| && forall i :: 0 <= i < |ks| ==> ts[pos + i].Shape() == ks[i]
  }

  lemma AtSplit(ts: seq<Token>, pos: nat, a: seq<Tok>, b: seq<Tok>)
    requires At(ts, pos, a + b)
    ensures At(ts, pos, a) && At(ts, pos + |a|, b)
  {
    forall i | 0 <= i < |a| ensures ts[pos + i].Shape() == a[i] {
      assert (a + b)[i] == a[i];
    }
    forall i | 0 <= i < |b| ensures ts[pos + |a| + i].Shape() == b[i] {
      assert (a + b)[|a| + i] == b[i];
    }
  }

  lemma AtFirst(ts: seq<Token>, pos: nat, k: Tok)
    requires At(ts, pos, [k])
    ensures pos + 1 < |ts| && ts[pos].Shape() == k
  {
    assert ts[pos + 0].Shape() == [k][0];
  }

  /** Where the parser stands after `ks` has been read and the arities have become `ar`. */
  function Moved(st: State, ks: seq<Tok>, ar: Arities): State {
    State(st.pos + |ks|, ar)
  }

  /** What follows an open node may not be an infix operator. */
  ghost predicate Closed(ts: seq<Token>, pos: nat, n: AstNode)
    requires pos < |ts|
  {
    Open(n) ==> ts[pos].kind != TokenType.Infix
  }

  // ---- Special forms, one by one ----

  lemma FormSteps(ts: seq<Token>, st: State, name: string)
    requires Within(ts, st) && ts[st.pos].Shape() == WordTok(name) && IsFormKeyword(name)
    ensures Atom(ts, st) == SpecialForm(ts, Next(st), name)
  {
    hide SpecialForm;
  }

  lemma SkipsNothing(ts: seq<Token>, st: State)
    requires Within(ts, st) && ts[st.pos].kind != TokenType.Newline
    ensures SkipNewlines(ts, st) == st
  {
  }

  lemma SkipsOne(ts: seq<Token>, st: State)
    requires Within(ts, st) && st.pos + 1 < |ts|
    requires ts[st.pos].kind == TokenType.Newline && ts[st.pos + 1].kind != TokenType.Newline
    ensures SkipNewlines(ts, st) == Next(st)
  {
    SkipsNothing(ts, Next(st));
  }

  /** What stands where a node starts. */
  lemma StartsNode(ts: seq<Token>, pos: nat, n: AstNode)
    requires At(ts, pos, Toks(n))
    ensures Toks(n) != [] && ts[pos].Shape() == Toks(n)[0]
    ensures var k := ts[pos].kind;
      k.Number? || k.QuotedWord? || k.Variable? || k.OpenBracket? || k.OpenParen? || k.Word?
    ensures ts[pos].kind == TokenType.OpenBracket ==> Toks(n)[0] == OPEN
    ensures pos < |ts|
  {
    hide Toks;
    Leads(n);
    assert ts[pos + 0].Shape() == Toks(n)[0];
  }

  // ---- Nodes ----

  lemma {:induction false} ParsesExpression(n: AstNode, ts: seq<Token>, st: State, negative: bool)
    requires Ended(ts) && At(ts, st.pos, Toks(n))
    requires Clean(n, st.arities, negative) && Canonical(n)
    requires Closed(ts, st.pos + |Toks(n)|, n)
    ensures Expression(ts, st) == InfixTail(ts, Moved(st, Toks(n), After(n, st.arities)), n)
    decreases n, 5
  {
    if n.Infix? {
      ParsesInfix(n, ts, st, negative);
    } else {
      ParsesAtom(n, ts, st, negative);
    }
  }

  /** In front of anything but an infix operator. */
  lemma {:induction false} ParsesWhole(n: AstNode, ts: seq<Token>, st: State, negative: bool)
    requires Ended(ts) && At(ts, st.pos, Toks(n))
    requires Clean(n, st.arities, negative) && Canonical(n)
    requires ts[st.pos + |Toks(n)|].kind != TokenType.Infix
    ensures Expression(ts, st) == Done(n, Moved(st, Toks(n), After(n, st.arities)))
    decreases n, 6
  {
    hide Expression, Clean, Canonical, Toks, After;
    ParsesExpression(n, ts, st, negative);
  }

  lemma {:induction false} ParsesInfix(n: AstNode, ts: seq<Token>, st: State, negative: bool)
    requires n.Infix? && Ended(ts) && At(ts, st.pos, Toks(n))
    requires Clean(n, st.arities, negative) && Canonical(n)
    requires Closed(ts, st.pos + |Toks(n)|, n)
    ensures Expression(ts, st) == InfixTail(ts, Moved(st, Toks(n), After(n, st.arities)), n)
    decreases n, 4
  {
    hide Atom, Expression, IsOperator, After, At;
    var Infix(operator, left, right) := n;
    var op := [Tok(TokenType.Infix, operator)];
    assert Toks(n) == Toks(left) + op + Toks(right);
    AtSplit(ts, st.pos, Toks(left) + op, Toks(right));
    AtSplit(ts, st.pos, Toks(left), op);
    var st1 := Moved(st, Toks(left), After(left, st.arities));
    OperatorStands(ts, st1.pos, operator);
    ParsesExpression(left, ts, st, negative);
    ParsesAtom(right, ts, Next(st1), true);
    assert After(n, st.arities) == After(right, After(left, st.arities)) by {
      InfixAfter(operator, left, right, st.arities);
    }
  }

  lemma InfixAfter(op: string, left: AstNode, right: AstNode, ar: Arities)
    ensures After(AstNode.Infix(op, left, right), ar) == After(right, After(left, ar))
  {
  }

  lemma OperatorStands(ts: seq<Token>, pos: nat, op: string)
    requires At(ts, pos, [Tok(TokenType.Infix, op)])
    ensures pos + 1 < |ts| && ts[pos].kind == TokenType.Infix && ts[pos].value == op
  {
    AtFirst(ts, pos, Tok(TokenType.Infix, op));
  }

  lemma {:induction false} ParsesAtom(n: AstNode, ts: seq<Token>, st: State, negative: bool)
    requires !n.Infix? && Ended(ts) && At(ts, st.pos, Toks(n))
    requires Clean(n, st.arities, negative) && Canonical(n)
    requires Closed(ts, st.pos + |Toks(n)|, n)
    ensures Atom(ts, st) == Done(n, Moved(st, Toks(n), After(n, st.arities)))
    decreases n, 3
  {
    if n.Number? || n.Word? || n.Variable? {
      ParsesLiteral(n, ts, st, negative);
    } else if n.List? {
      ParsesList(n, ts, st, negative);
    } else if n.Paren? {
      ParsesParen(n, ts, st, negative);
    } else if n.Call? {
      ParsesCall(n, ts, st, negative);
    } else if n.ProcDef? {
      ParsesProcDef(n, ts, st, negative);
    } else if n.Repeat? || n.If? || n.ForEach? || n.Stop? {
      ParsesHeaded(n, ts, st, negative);
    } else if n.IfElse? {
      ParsesIfElse(n, ts, st, negative);
    } else if n.Output? {
      ParsesOutput(n, ts, st, negative);
    } else if n.Carefully? || n.While? || n.Until? {
      ParsesPairs(n, ts, st, negative);
    } else {
      ParsesBlocks(n, ts, st, negative);
    }
  }

  lemma ParsesLiteral(n: AstNode, ts: seq<Token>, st: State, negative: bool)
    requires (n.Number? || n.Word? || n.Variable?) && Ended(ts) && At(ts, st.pos, Toks(n))
    requires Clean(n, st.arities, negative)
    ensures Atom(ts, st) == RawAtom(ts, st) == Done(n, Moved(st, Toks(n), After(n, st.arities)))
  {
    hide CleanQuoted, CleanVariable, IsUnsignedNumber;
    StartsNode(ts, st.pos, n);
  }

  lemma {:induction false} ParsesParen(n: AstNode, ts: seq<Token>, st: State, negative: bool)
    requires n.Paren? && Ended(ts) && At(ts, st.pos, Toks(n))
    requires Clean(n, st.arities, negative) && Canonical(n)
    ensures Atom(ts, st) == Done(n, Moved(st, Toks(n), After(n, st.arities)))
    decreases n, 2
  {
    hide ParenArgs, SeqToks, CleanSeq, CanonicalSeq, AfterSeq, CleanName;
    var head := [Tok(TokenType.OpenParen, "("), WordTok(n.name)];
    var close := [Tok(TokenType.CloseParen, ")")];
    AtSplit(ts, st.pos, head + SeqToks(n.args), close);
    AtSplit(ts, st.pos, head, SeqToks(n.args));
    assert ts[st.pos + 0].Shape() == head[0] && ts[st.pos + 1].Shape() == head[1];
    assert ts[st.pos + 2 + |SeqToks(n.args)| + 0].Shape() == close[0];
    ParsesParenArgs(n.args, ts, Next(Next(st)), ts[st.pos + 1], []);
    assert [] + n.args == n.args;
  }

  lemma {:induction false} ParsesParenArgs(nodes: seq<AstNode>, ts: seq<Token>, st: State, name: Token, done: seq<AstNode>)
    requires Ended(ts) && At(ts, st.pos, SeqToks(nodes))
    requires CleanSeq(nodes, st.arities, false) && CanonicalSeq(nodes)
    requires ts[st.pos + |SeqToks(nodes)|].kind == TokenType.CloseParen
    ensures ParenArgs(ts, st, name, done) == Done(done + nodes, Next(Moved(st, SeqToks(nodes), AfterSeq(nodes, st.arities))))
    decreases nodes, 0
  {
    hide Expression, Toks, Clean, Canonical, After;
    if nodes == [] {
      assert done + [] == done;
    } else {
      var st1 := Moved(st, Toks(nodes[0]), After(nodes[0], st.arities));
      AtSplit(ts, st.pos, Toks(nodes[0]), SeqToks(nodes[1..]));
      StartsNode(ts, st.pos, nodes[0]);
      FollowsSeq(ts, st1.pos, nodes[1..]);
      ParsesWhole(nodes[0], ts, st, false);
      ParsesParenArgs(nodes[1..], ts, st1, name, done + [nodes[0]]);
      assert done + [nodes[0]] + nodes[1..] == done + nodes;
    }
  }

  lemma NoToks()
    ensures SeqToks([]) == []
  {
  }

  /** Neither the next node nor a closing bracket is an infix operator or a line end. */
  lemma FollowsSeq(ts: seq<Token>, pos: nat, nodes: seq<AstNode>)
    requires At(ts, pos, SeqToks(nodes))
    requires nodes == [] ==> ts[pos].kind != TokenType.Infix
    ensures ts[pos].kind != TokenType.Infix
    ensures nodes != [] ==> ts[pos].kind != TokenType.Newline
  {
    hide Toks;
    if nodes != [] {
      AtSplit(ts, pos, Toks(nodes[0]), SeqToks(nodes[1..]));
      StartsNode(ts, pos, nodes[0]);
    }
  }

  lemma {:induction false} ParsesCall(n: AstNode, ts: seq<Token>, st: State, negative: bool)
    requires n.Call? && Ended(ts) && At(ts, st.pos, Toks(n))
    requires Clean(n, st.arities, negative) && Canonical(n)
    requires Closed(ts, st.pos + |Toks(n)|, n)
    ensures Atom(ts, st) == Done(n, Moved(st, Toks(n), After(n, st.arities)))
    decreases n, 2
  {
    hide CallArgs, SpecialForm, ProcedureDef, SeqToks, CleanSeq, CanonicalSeq, AfterSeq, CleanName;
    AtSplit(ts, st.pos, [WordTok(n.name)], SeqToks(n.args));
    AtFirst(ts, st.pos, WordTok(n.name));
    ParsesCallArgs(n.args, ts, Next(st), ts[st.pos], |n.args|, []);
    assert [] + n.args == n.args;
  }

  lemma {:induction false} ParsesCallArgs(nodes: seq<AstNode>, ts: seq<Token>, st: State, token: Token, arity: nat, done: seq<AstNode>)
    requires Ended(ts) && At(ts, st.pos, SeqToks(nodes)) && |done| + |nodes| == arity
    requires CleanSeq(nodes, st.arities, false) && CanonicalSeq(nodes)
    requires nodes != [] ==> ts[st.pos + |SeqToks(nodes)|].kind != TokenType.Infix
    ensures CallArgs(ts, st, token, arity, done) == Done(done + nodes, Moved(st, SeqToks(nodes), AfterSeq(nodes, st.arities)))
    decreases nodes, 0
  {
    hide Expression, Toks, Clean, Canonical, After;
    if nodes == [] {
      assert done + [] == done;
    } else {
      var st1 := Moved(st, Toks(nodes[0]), After(nodes[0], st.arities));
      AtSplit(ts, st.pos, Toks(nodes[0]), SeqToks(nodes[1..]));
      StartsNode(ts, st.pos, nodes[0]);
      FollowsSeq(ts, st1.pos, nodes[1..]);
      ParsesWhole(nodes[0], ts, st, false);
      ParsesCallArgs(nodes[1..], ts, st1, token, arity, done + [nodes[0]]);
      assert done + [nodes[0]] + nodes[1..] == done + nodes;
    }
  }

  // ---- Brackets ----

  lemma {:induction false} ParsesBody(body: seq<AstNode>, ts: seq<Token>, st: State)
    requires Ended(ts) && At(ts, st.pos, BlockToks(body))
    requires CleanSeq(body, st.arities, true) && CanonicalSeq(body)
    ensures ListBody(ts, st) == Done(body, Moved(st, BlockToks(body), AfterSeq(body, st.arities)))
    decreases body, 1
  {
    hide BodyNodes, SeqToks, CleanSeq, CanonicalSeq, AfterSeq;
    AtSplit(ts, st.pos, [OPEN] + SeqToks(body), [CLOSE]);
    AtSplit(ts, st.pos, [OPEN], SeqToks(body));
    AtFirst(ts, st.pos, OPEN);
    AtFirst(ts, st.pos + 1 + |SeqToks(body)|, CLOSE);
    NoToks();
    FollowsSeq(ts, st.pos + 1, body);
    SkipsNothing(ts, Next(st));
    ParsesBodyNodes(body, ts, Next(st), true, []);
    assert [] + body == body;
  }

  lemma {:induction false} ParsesBodyNodes(nodes: seq<AstNode>, ts: seq<Token>, st: State, negative: bool, done: seq<AstNode>)
    requires Ended(ts) && At(ts, st.pos, SeqToks(nodes))
    requires CleanSeq(nodes, st.arities, negative) && CanonicalSeq(nodes)
    requires ts[st.pos + |SeqToks(nodes)|].kind == TokenType.CloseBracket
    ensures BodyNodes(ts, st, done) == Done(done + nodes, Next(Moved(st, SeqToks(nodes), AfterSeq(nodes, st.arities))))
    decreases nodes, 0
  {
    hide Expression, Toks, Clean, Canonical, After;
    if nodes == [] {
      assert done + [] == done;
    } else {
      var st1 := Moved(st, Toks(nodes[0]), After(nodes[0], st.arities));
      AtSplit(ts, st.pos, Toks(nodes[0]), SeqToks(nodes[1..]));
      StartsNode(ts, st.pos, nodes[0]);
      FollowsSeq(ts, st1.pos, nodes[1..]);
      SkipsNothing(ts, st1);
      ParsesWhole(nodes[0], ts, st, negative);
      ParsesBodyNodes(nodes[1..], ts, st1, false, done + [nodes[0]]);
      assert done + [nodes[0]] + nodes[1..] == done + nodes;
    }
  }

  lemma {:induction false} ParsesList(n: AstNode, ts: seq<Token>, st: State, negative: bool)
    requires n.List? && Ended(ts) && At(ts, st.pos, Toks(n))
    requires Clean(n, st.arities, negative)
    ensures Atom(ts, st) == RawAtom(ts, st) == Done(n, Moved(st, Toks(n), After(n, st.arities)))
    decreases n, 2
  {
    hide ListElements, SeqToks, CleanSeq, IsRaw;
    var elements := n.elements;
    AtSplit(ts, st.pos, [OPEN] + SeqToks(elements), [CLOSE]);
    AtSplit(ts, st.pos, [OPEN], SeqToks(elements));
    AtFirst(ts, st.pos, OPEN);
    AtFirst(ts, st.pos + 1 + |SeqToks(elements)|, CLOSE);
    NoToks();
    FollowsSeq(ts, st.pos + 1, elements);
    SkipsNothing(ts, Next(st));
    ParsesElements(elements, ts, Next(st), true, []);
    assert [] + elements == elements;
  }

  /** The tokens of a sequence are those of its first node and those of the rest. */
  lemma SplitsSeq(ts: seq<Token>, pos: nat, nodes: seq<AstNode>)
    requires nodes != [] && At(ts, pos, SeqToks(nodes))
    ensures |SeqToks(nodes)| == |Toks(nodes[0])| + |SeqToks(nodes[1..])|
    ensures At(ts, pos, Toks(nodes[0])) && At(ts, pos + |Toks(nodes[0])|, SeqToks(nodes[1..]))
  {
    hide Toks, At;
    AtSplit(ts, pos, Toks(nodes[0]), SeqToks(nodes[1..]));
  }

  lemma {:induction false} ParsesElement(e: AstNode, ts: seq<Token>, st: State, negative: bool)
    requires Ended(ts) && At(ts, st.pos, Toks(e))
    requires Clean(e, st.arities, negative) && IsRaw(e)
    ensures RawAtom(ts, st) == Done(e, Moved(st, Toks(e), st.arities))
    decreases e, 3
  {
    hide RawAtom, Atom, Toks, Clean, At;
    assert After(e, st.arities) == st.arities;
    if e.List? {
      ParsesList(e, ts, st, negative);
    } else {
      ParsesLiteral(e, ts, st, negative);
    }
  }

  lemma {:induction false} ParsesElements(nodes: seq<AstNode>, ts: seq<Token>, st: State, negative: bool, done: seq<AstNode>)
    requires Ended(ts) && At(ts, st.pos, SeqToks(nodes))
    requires CleanSeq(nodes, st.arities, negative) && forall e <- nodes :: IsRaw(e)
    requires ts[st.pos + |SeqToks(nodes)|].kind == TokenType.CloseBracket
    ensures ListElements(ts, st, done) == Done(done + nodes, Next(Moved(st, SeqToks(nodes), st.arities)))
    decreases nodes, 0
  {
    hide RawAtom, Toks, Clean;
    if nodes == [] {
      assert done + [] == done;
    } else {
      var e := nodes[0];
      var st1 := Moved(st, Toks(e), st.arities);
      SplitsSeq(ts, st.pos, nodes);
      StartsNode(ts, st.pos, e);
      FollowsSeq(ts, st1.pos, nodes[1..]);
      SkipsNothing(ts, st1);
      assert e in nodes && nodes[0] == e;
      ParsesElement(e, ts, st, negative);
      RawKeeps(e, st.arities);
      ParsesElements(nodes[1..], ts, st1, false, done + [e]);
      assert done + [e] + nodes[1..] == done + nodes;
    }
  }

  /** An element of a data list defines nothing. */
  lemma RawKeeps(e: AstNode, ar: Arities)
    requires IsRaw(e)
    ensures After(e, ar) == ar
  {
  }

  // ---- Procedures ----

  lemma {:induction false} ParsesParams(params: seq<string>, ts: seq<Token>, st: State, done: seq<string>)
    requires Ended(ts) && At(ts, st.pos, ParamToks(params))
    requires ts[st.pos + |ParamToks(params)|].kind != TokenType.Variable
    ensures Params(ts, st, done) == (done + params, Moved(st, ParamToks(params), st.arities))
    decreases params
  {
    if params == [] {
      assert done + [] == done;
    } else {
      AtSplit(ts, st.pos, [Tok(TokenType.Variable, params[0])], ParamToks(params[1..]));
      AtFirst(ts, st.pos, Tok(TokenType.Variable, params[0]));
      ParsesParams(params[1..], ts, Next(st), done + [params[0]]);
      assert done + [params[0]] + params[1..] == done + params;
    }
  }

  lemma ToStarts(ts: seq<Token>, st: State)
    requires Within(ts, st) && ts[st.pos].Shape() == WordTok("to")
    ensures Atom(ts, st) == ProcedureDef(ts, Next(st), ts[st.pos])
  {
    hide ProcedureDef;
  }

  lemma {:induction false} ParsesProcDef(n: AstNode, ts: seq<Token>, st: State, negative: bool)
    requires n.ProcDef? && Ended(ts) && At(ts, st.pos, Toks(n))
    requires Clean(n, st.arities, negative) && Canonical(n)
    ensures Atom(ts, st) == Done(n, Moved(st, Toks(n), After(n, st.arities)))
    decreases n, 2
  {
    hide Atom, Params, ProcedureBody, Expression, ListBody, ParamToks, LineToks, SkipNewlines, CleanLines, CanonicalSeq,
         AfterSeq, CleanName, CleanVariable, StartsWith, At, Toks;
    var ProcDef(name, params, body) := n;
    SplitsProcDef(ts, st.pos, n);
    var st1 := Next(Next(st));
    var st2 := Moved(st1, ParamToks(params), st.arities[name := |params|]);
    ToStarts(ts, st);
    ParsesParams(params, ts, st1, []);
    assert [] + params == params;
    ParsesProcedureBody(body, ts, st2, ts[st.pos], name);
  }

  /** The parts of a printed procedure and where they stand. */
  lemma SplitsProcDef(ts: seq<Token>, pos: nat, n: AstNode)
    requires n.ProcDef? && At(ts, pos, Toks(n))
    ensures var header, lines := pos + 2 + |ParamToks(n.params)|, |LineToks(n.body)|;
      && |Toks(n)| == 5 + |ParamToks(n.params)| + lines && header + lines + 3 < |ts|
      && ts[pos].Shape() == WordTok("to") && ts[pos + 1].Shape() == WordTok(n.name) && At(ts, pos + 2, ParamToks(n.params))
      && ts[header].Shape() == LINE && At(ts, header + 1, LineToks(n.body))
      && ts[header + 1 + lines].Shape() == LINE && ts[header + 2 + lines].Shape() == WordTok("end")
  {
    hide ParamToks, LineToks, At;
    var to, nm, end := [WordTok("to")], [WordTok(n.name)], [WordTok("end")];
    var params, lines := ParamToks(n.params), LineToks(n.body);
    assert Toks(n) == to + (nm + (params + ([LINE] + (lines + ([LINE] + end)))));
    var header := pos + 2 + |params|;
    AtSplit(ts, pos, to, nm + (params + ([LINE] + (lines + ([LINE] + end)))));
    AtSplit(ts, pos + 1, nm, params + ([LINE] + (lines + ([LINE] + end))));
    AtSplit(ts, pos + 2, params, [LINE] + (lines + ([LINE] + end)));
    AtSplit(ts, header, [LINE], lines + ([LINE] + end));
    AtSplit(ts, header + 1, lines, [LINE] + end);
    AtSplit(ts, header + 1 + |lines|, [LINE], end);
    AtFirst(ts, pos, WordTok("to"));
    AtFirst(ts, pos + 1, WordTok(n.name));
    AtFirst(ts, header, LINE);
    AtFirst(ts, header + 1 + |lines|, LINE);
    AtFirst(ts, header + 2 + |lines|, WordTok("end"));
  }

  /** The body of a procedure, from the line end behind its header. */
  lemma {:induction false} ParsesProcedureBody(body: seq<AstNode>, ts: seq<Token>, st: State, token: Token, name: string)
    requires Ended(ts) && ts[|ts| - 1].kind == TokenType.Eof && At(ts, st.pos + 1, LineToks(body))
    requires st.pos + |LineToks(body)| + 3 < |ts|
    requires ts[st.pos].kind == TokenType.Newline
    requires ts[st.pos + 1 + |LineToks(body)|].Shape() == LINE
    requires ts[st.pos + 2 + |LineToks(body)|].Shape() == WordTok("end")
    requires CleanLines(body, st.arities) && CanonicalSeq(body)
    requires body != [] ==> !StartsWith(body[0], OPEN)
    ensures var st1 := SkipNewlines(ts, st);
      ts[st1.pos].kind != TokenType.OpenBracket &&
      ProcedureBody(ts, st1, token, name, []) == Done(body, State(st.pos + |LineToks(body)| + 3, AfterSeq(body, st.arities)))
    decreases body, 1
  {
    hide ProcedureBody, Toks, Clean, CanonicalSeq, After, AfterSeq;
    if body == [] {
      SkipsOne(ts, Next(st));
      EndsProcedure(ts, State(st.pos + 2, st.arities), token, name, []);
      assert AfterSeq([], st.arities) == st.arities by { NothingAfter(st.arities); }
    } else {
      StartsLines(ts, st.pos + 1, body);
      StartsNode(ts, st.pos + 1, body[0]);
      SkipsOne(ts, st);
      ParsesLines(body, ts, Next(st), token, name, []);
      assert [] + body == body;
    }
  }

  lemma NothingAfter(ar: Arities)
    ensures AfterSeq([], ar) == ar
  {
  }

  lemma EndsProcedure(ts: seq<Token>, st: State, token: Token, name: string, done: seq<AstNode>)
    requires Within(ts, st) && ts[st.pos].Shape() == WordTok("end")
    ensures ProcedureBody(ts, st, token, name, done) == Done(done, Next(st))
  {
  }

  lemma SplitsLines(ts: seq<Token>, pos: nat, nodes: seq<AstNode>)
    requires nodes != [] && At(ts, pos, LineToks(nodes))
    ensures At(ts, pos, Toks(nodes[0]))
    ensures |nodes| > 1 ==> At(ts, pos + |Toks(nodes[0])|, [LINE]) && At(ts, pos + |Toks(nodes[0])| + 1, LineToks(nodes[1..]))
  {
    hide Toks, At;
    if |nodes| > 1 {
      AtSplit(ts, pos, Toks(nodes[0]) + [LINE], LineToks(nodes[1..]));
      AtSplit(ts, pos, Toks(nodes[0]), [LINE]);
    }
  }

  lemma StartsLines(ts: seq<Token>, pos: nat, nodes: seq<AstNode>)
    requires nodes != [] && At(ts, pos, LineToks(nodes))
    ensures At(ts, pos, Toks(nodes[0])) && Toks(nodes[0]) != [] && ts[pos].Shape() == Toks(nodes[0])[0]
    ensures ts[pos].kind != TokenType.Newline && ts[pos].kind != TokenType.Eof
    ensures |nodes| > 1 ==>
      pos + |Toks(nodes[0])| < |ts| && ts[pos + |Toks(nodes[0])|].Shape() == LINE &&
      At(ts, pos + |Toks(nodes[0])| + 1, LineToks(nodes[1..]))
  {
    hide Toks, At, LineToks;
    SplitsLines(ts, pos, nodes);
    StartsNode(ts, pos, nodes[0]);
    if |nodes| > 1 {
      AtFirst(ts, pos + |Toks(nodes[0])|, LINE);
    }
  }

  lemma {:induction false} ParsesLines(nodes: seq<AstNode>, ts: seq<Token>, st: State, token: Token, name: string, done: seq<AstNode>)
    requires nodes != [] && Ended(ts) && At(ts, st.pos, LineToks(nodes))
    requires st.pos + |LineToks(nodes)| + 2 < |ts|
    requires ts[st.pos + |LineToks(nodes)|].Shape() == LINE
    requires ts[st.pos + |LineToks(nodes)| + 1].Shape() == WordTok("end")
    requires CleanLines(nodes, st.arities) && CanonicalSeq(nodes)
    ensures ProcedureBody(ts, st, token, name, done)
         == Done(done + nodes, State(st.pos + |LineToks(nodes)| + 2, AfterSeq(nodes, st.arities)))
    decreases nodes, 0
  {
    hide Expression, Toks, Clean, Canonical, After, At;
    var st1 := Moved(st, Toks(nodes[0]), After(nodes[0], st.arities));
    StartsLines(ts, st.pos, nodes);
    ParsesWhole(nodes[0], ts, st, true);
    if |nodes| == 1 {
      assert nodes[1..] == [];
      SkipsOne(ts, st1);
      EndsProcedure(ts, Next(st1), token, name, done + [nodes[0]]);
      assert done + nodes == done + [nodes[0]];
    } else {
      StartsLines(ts, st1.pos + 1, nodes[1..]);
      SkipsOne(ts, st1);
      ParsesLines(nodes[1..], ts, Next(st1), token, name, done + [nodes[0]]);
      assert done + [nodes[0]] + nodes[1..] == done + nodes;
    }
  }

  // ---- Special forms ----

  lemma {:induction false} ParsesHeaded(n: AstNode, ts: seq<Token>, st: State, negative: bool)
    requires n.Repeat? || n.If? || n.ForEach? || n.Stop?
    requires Ended(ts) && At(ts, st.pos, Toks(n))
    requires Clean(n, st.arities, negative) && Canonical(n)
    ensures Atom(ts, st) == Done(n, Moved(st, Toks(n), After(n, st.arities)))
    decreases n, 2
  {
    hide Expression, ListBody, Atom, ForEachForm, BlockToks, CleanSeq, CanonicalSeq, AfterSeq, CleanQuoted, At;
    StartsNode(ts, st.pos, n);
    FormSteps(ts, st, ts[st.pos].value);
    match n
    case Repeat(count, body) => HeadAndBody(n, count, body, ts, st);
    case If(condition, body) => HeadAndBody(n, condition, body, ts, st);
    case ForEach(variable, list, body) => ParsesForEach(n, ts, st);
    case Stop =>
  }

  lemma {:induction false} ParsesIfElse(n: AstNode, ts: seq<Token>, st: State, negative: bool)
    requires n.IfElse? && Ended(ts) && At(ts, st.pos, Toks(n))
    requires Clean(n, st.arities, negative) && Canonical(n)
    ensures Atom(ts, st) == Done(n, Moved(st, Toks(n), After(n, st.arities)))
    decreases n, 2
  {
    hide Expression, ListBody, Atom, BlockToks, CleanSeq, CanonicalSeq, AfterSeq, At;
    StartsNode(ts, st.pos, n);
    FormSteps(ts, st, ts[st.pos].value);
    var IfElse(condition, thenBody, elseBody) := n;
    AtSplit(ts, st.pos, [WordTok("ifelse")], Toks(condition) + (BlockToks(thenBody) + BlockToks(elseBody)));
    HeadOf(n, condition, BlockToks(thenBody) + BlockToks(elseBody), thenBody, ts, Next(st));
    TwoBlocks(n, thenBody, elseBody, ts, Moved(Next(st), Toks(condition), After(condition, st.arities)));
  }

  lemma {:induction false} ParsesOutput(n: AstNode, ts: seq<Token>, st: State, negative: bool)
    requires n.Output? && Ended(ts) && At(ts, st.pos, Toks(n))
    requires Clean(n, st.arities, negative) && Canonical(n)
    requires Closed(ts, st.pos + |Toks(n)|, n)
    ensures Atom(ts, st) == Done(n, Moved(st, Toks(n), After(n, st.arities)))
    decreases n, 2
  {
    hide Expression, Atom, At;
    StartsNode(ts, st.pos, n);
    FormSteps(ts, st, ts[st.pos].value);
    AtSplit(ts, st.pos, [WordTok("output")], Toks(n.value));
    OutputCloses(ts, st.pos, n);
    ParsesWhole(n.value, ts, Next(st), false);
  }

  lemma OutputCloses(ts: seq<Token>, pos: nat, n: AstNode)
    requires n.Output? && pos + |Toks(n)| < |ts| && Closed(ts, pos + |Toks(n)|, n)
    ensures |Toks(n)| == 1 + |Toks(n.value)| && ts[pos + |Toks(n)|].kind != TokenType.Infix
  {
  }

  /** A head in front of a block: the opening bracket is no infix operator. */
  lemma {:induction false} HeadOf(n: AstNode, head: AstNode, rest: seq<Tok>, body: seq<AstNode>, ts: seq<Token>, st: State)
    requires (n.Repeat? && n.count == head) || (n.If? && n.condition == head) || (n.IfElse? && n.condition == head) || (n.ForEach? && n.list == head)
    requires Ended(ts) && At(ts, st.pos, Toks(head) + rest)
    requires BlockToks(body) <= rest
    requires Clean(head, st.arities, false) && Canonical(head)
    ensures Expression(ts, st) == Done(head, Moved(st, Toks(head), After(head, st.arities)))
    ensures At(ts, st.pos + |Toks(head)|, rest)
    decreases n, 0
  {
    hide Expression, Toks, Clean, Canonical, After;
    AtSplit(ts, st.pos, Toks(head), rest);
    assert BlockToks(body)[0] == OPEN;
    assert ts[st.pos + |Toks(head)| + 0].Shape() == rest[0] == OPEN;
    ParsesWhole(head, ts, st, false);
  }

  lemma {:induction false} HeadAndBody(n: AstNode, head: AstNode, body: seq<AstNode>, ts: seq<Token>, st: State)
    requires n == Repeat(head, body) || n == If(head, body)
    requires Ended(ts) && At(ts, st.pos, Toks(n))
    requires Clean(head, st.arities, false) && Canonical(head)
    requires CleanSeq(body, After(head, st.arities), true) && CanonicalSeq(body)
    ensures At(ts, st.pos, Toks(n))
    ensures var st1 := Moved(Next(st), Toks(head), After(head, st.arities));
      Expression(ts, Next(st)) == Done(head, st1) &&
      ListBody(ts, st1) == Done(body, Moved(st, Toks(n), AfterSeq(body, st1.arities)))
    decreases n, 1
  {
    hide Expression, ListBody, BlockToks, Clean, Canonical, CleanSeq, CanonicalSeq, After, AfterSeq, At;
    var kw := [Toks(n)[0]];
    assert Toks(n) == kw + (Toks(head) + BlockToks(body));
    AtSplit(ts, st.pos, kw, Toks(head) + BlockToks(body));
    HeadOf(n, head, BlockToks(body), body, ts, Next(st));
    ParsesBody(body, ts, Moved(Next(st), Toks(head), After(head, st.arities)));
  }

  lemma {:induction false} TwoBlocks(n: AstNode, a: seq<AstNode>, b: seq<AstNode>, ts: seq<Token>, st: State)
    requires (n.IfElse? && n.thenBody == a && n.elseBody == b) || n == Carefully(a, b) || n == While(a, b) || n == Until(a, b)
    requires Ended(ts) && At(ts, st.pos, BlockToks(a) + BlockToks(b))
    requires CleanSeq(a, st.arities, true) && CleanSeq(b, AfterSeq(a, st.arities), true) && CanonicalSeq(a) && CanonicalSeq(b)
    ensures var st1 := Moved(st, BlockToks(a), AfterSeq(a, st.arities));
      ListBody(ts, st) == Done(a, st1) &&
      ListBody(ts, st1) == Done(b, Moved(st1, BlockToks(b), AfterSeq(b, st1.arities)))
    decreases n, 1
  {
    hide ListBody, BlockToks, CleanSeq, CanonicalSeq, AfterSeq, At;
    AtSplit(ts, st.pos, BlockToks(a), BlockToks(b));
    ParsesBody(a, ts, st);
    ParsesBody(b, ts, Moved(st, BlockToks(a), AfterSeq(a, st.arities)));
  }

  lemma {:induction false} ParsesForEach(n: AstNode, ts: seq<Token>, st: State)
    requires n.ForEach? && Ended(ts) && At(ts, st.pos, Toks(n))
    requires Clean(n.list, st.arities, false) && Canonical(n.list)
    requires CleanSeq(n.body, After(n.list, st.arities), true) && CanonicalSeq(n.body)
    ensures ForEachForm(ts, Next(st)) == Done(n, Moved(st, Toks(n), AfterSeq(n.body, After(n.list, st.arities))))
    decreases n, 1
  {
    hide Expression, ListBody, BlockToks, Clean, Canonical, CleanSeq, CanonicalSeq, After, AfterSeq, At;
    var ForEach(variable, list, body) := n;
    var quoted := [Tok(TokenType.QuotedWord, variable)];
    AtSplit(ts, st.pos, [WordTok("foreach")], quoted + (Toks(list) + BlockToks(body)));
    AtSplit(ts, st.pos + 1, quoted, Toks(list) + BlockToks(body));
    AtSplit(ts, st.pos + 2, Toks(list), BlockToks(body));
    StartsNode(ts, st.pos + 2, list);
    ParsesQuoted(variable, ts, Next(st));
    HeadOf(n, list, BlockToks(body), body, ts, Next(Next(st)));
    ParsesBody(body, ts, Moved(Next(Next(st)), Toks(list), After(list, st.arities)));
  }

  lemma ParsesQuoted(text: string, ts: seq<Token>, st: State)
    requires Ended(ts) && At(ts, st.pos, [Tok(TokenType.QuotedWord, text)])
    requires ts[st.pos + 1].kind != TokenType.Infix
    ensures Expression(ts, st) == Done(AstNode.Word(text), Next(st))
  {
    AtFirst(ts, st.pos, Tok(TokenType.QuotedWord, text));
  }

  lemma {:induction false} ParsesBlocks(n: AstNode, ts: seq<Token>, st: State, negative: bool)
    requires n.Forever? || n.Launch? || n.WaitUntil?
    requires Ended(ts) && At(ts, st.pos, Toks(n))
    requires Clean(n, st.arities, negative) && Canonical(n)
    ensures Atom(ts, st) == Done(n, Moved(st, Toks(n), After(n, st.arities)))
    decreases n, 2
  {
    hide Expression, ListBody, Atom, BlockToks, CleanSeq, CanonicalSeq, AfterSeq, At;
    StartsNode(ts, st.pos, n);
    FormSteps(ts, st, ts[st.pos].value);
    match n
    case Forever(body) => AtSplit(ts, st.pos, [WordTok("forever")], BlockToks(body)); ParsesBody(body, ts, Next(st));
    case Launch(body) => AtSplit(ts, st.pos, [WordTok("launch")], BlockToks(body)); ParsesBody(body, ts, Next(st));
    case WaitUntil(test) => AtSplit(ts, st.pos, [WordTok("waituntil")], BlockToks(test)); ParsesBody(test, ts, Next(st));
  }

  lemma {:induction false} ParsesPairs(n: AstNode, ts: seq<Token>, st: State, negative: bool)
    requires n.Carefully? || n.While? || n.Until?
    requires Ended(ts) && At(ts, st.pos, Toks(n))
    requires Clean(n, st.arities, negative) && Canonical(n)
    ensures Atom(ts, st) == Done(n, Moved(st, Toks(n), After(n, st.arities)))
    decreases n, 2
  {
    hide Expression, ListBody, Atom, BlockToks, CleanSeq, CanonicalSeq, AfterSeq, At;
    StartsNode(ts, st.pos, n);
    FormSteps(ts, st, ts[st.pos].value);
    match n
    case Carefully(body, handler) =>
      AtSplit(ts, st.pos, [WordTok("carefully")], BlockToks(body) + BlockToks(handler));
      TwoBlocks(n, body, handler, ts, Next(st));
    case While(test, body) =>
      AtSplit(ts, st.pos, [WordTok("while")], BlockToks(test) + BlockToks(body));
      TwoBlocks(n, test, body, ts, Next(st));
    case Until(test, body) =>
      AtSplit(ts, st.pos, [WordTok("until")], BlockToks(test) + BlockToks(body));
      TwoBlocks(n, test, body, ts, Next(st));
  }
}
