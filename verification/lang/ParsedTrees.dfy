/** What holds of every tree that the parser returns, whatever the tokens. */
module ParsedTrees {
  import opened Tokens
  import opened Ast
  import opened Grammar
  import opened Printable
  import opened Printed
  import opened PrintLex
  import opened BarWeight
  import opened Spelling

  // ---- Trees as the parser builds them ----

  /**
   * Calls have as many inputs as the arity known at that point, no keyword is called, lists hold raw elements, and no
   * statement of a procedure starts with the word that ends it or with a block in place of the body.
   */
  predicate Built(n: AstNode, ar: Arities)
    decreases n, 0
  {
    match n
    case List(elements) => (forall e <- elements :: IsRaw(e)) && BuiltSeq(elements, ar)
    case Infix(_, left, right) => Built(left, ar) && Built(right, After(left, ar))
    case Paren(_, args) => BuiltSeq(args, ar)
    case Call(name, args) => !IsKeyword(name) && |args| == ArityOf(ar, name) && BuiltSeq(args, ar)
    case ProcDef(name, params, body) => BuiltLines(body, ar[name := |params|]) && (body != [] ==> !StartsWith(body[0], OPEN))
    case Repeat(count, body) => Built(count, ar) && BuiltSeq(body, After(count, ar))
    case Forever(body) => BuiltSeq(body, ar)
    case Launch(body) => BuiltSeq(body, ar)
    case If(condition, body) => Built(condition, ar) && BuiltSeq(body, After(condition, ar))
    case IfElse(condition, thenBody, elseBody) =>
      Built(condition, ar) && BuiltSeq(thenBody, After(condition, ar)) &&
      BuiltSeq(elseBody, AfterSeq(thenBody, After(condition, ar)))
    case WaitUntil(test) => BuiltSeq(test, ar)
    case Carefully(body, handler) => BuiltSeq(body, ar) && BuiltSeq(handler, AfterSeq(body, ar))
    case ForEach(_, list, body) => Built(list, ar) && BuiltSeq(body, After(list, ar))
    case While(test, body) => BuiltSeq(test, ar) && BuiltSeq(body, AfterSeq(test, ar))
    case Until(test, body) => BuiltSeq(test, ar) && BuiltSeq(body, AfterSeq(test, ar))
    case Output(value) => Built(value, ar)
    case _ => true
  }

  predicate BuiltSeq(nodes: seq<AstNode>, ar: Arities)
    decreases nodes, 0
  {
    nodes == [] || (Built(nodes[0], ar) && BuiltSeq(nodes[1..], After(nodes[0], ar)))
  }

  predicate BuiltLines(nodes: seq<AstNode>, ar: Arities)
    decreases nodes, 0
  {
    nodes == [] ||
    (Built(nodes[0], ar) && !StartsWith(nodes[0], WordTok("end")) && BuiltLines(nodes[1..], After(nodes[0], ar)))
  }

  // ---- Clean trees are the fit ones that the parser can build where they stand ----

  lemma {:induction false} CleanIs(n: AstNode, ar: Arities, before: bool)
    ensures Clean(n, ar, before) <==> Fit(n) && Signs(n, before) && Built(n, ar)
    decreases n, 3
  {
    if n.Repeat? || n.If? || n.IfElse? || n.ForEach? {
      CleanHeadedIs(n, ar, before);
    } else if n.Forever? || n.Launch? || n.WaitUntil? || n.Carefully? || n.While? || n.Until? {
      CleanBlocksIs(n, ar, before);
    } else {
      CleanPlainIs(n, ar, before);
    }
  }

  lemma {:induction false} CleanPlainIs(n: AstNode, ar: Arities, before: bool)
    requires !(n.Repeat? || n.If? || n.IfElse? || n.ForEach?)
    requires !(n.Forever? || n.Launch? || n.WaitUntil? || n.Carefully? || n.While? || n.Until?)
    ensures Clean(n, ar, before) <==> Fit(n) && Signs(n, before) && Built(n, ar)
    decreases n, 2
  {
    hide CleanNumber, CleanQuoted, CleanVariable, CleanName, IsOperator, IsKeyword, StartsWith, CleanSeq, CleanLines, FitSeq, SignsSeq,
         SignsLines, BuiltSeq, BuiltLines, AfterSeq, ArityOf;
    match n
    case List(elements) => CleanSeqIs(elements, ar, true);
    case Infix(_, left, right) => CleanIs(left, ar, before); CleanIs(right, After(left, ar), true);
    case Paren(_, args) => CleanSeqIs(args, ar, false);
    case Call(_, args) => CleanSeqIs(args, ar, false);
    case ProcDef(name, params, body) => CleanLinesIs(body, ar[name := |params|]);
    case Output(value) => CleanIs(value, ar, false);
    case _ =>
  }

  lemma {:induction false} CleanBlocksIs(n: AstNode, ar: Arities, before: bool)
    requires n.Forever? || n.Launch? || n.WaitUntil? || n.Carefully? || n.While? || n.Until?
    ensures Clean(n, ar, before) <==> Fit(n) && Signs(n, before) && Built(n, ar)
    decreases n, 2
  {
    hide CleanNumber, CleanQuoted, CleanVariable, CleanName, IsOperator, IsKeyword, StartsWith, CleanSeq, CleanLines, FitSeq, SignsSeq,
         SignsLines, BuiltSeq, BuiltLines, AfterSeq, ArityOf;
    match n
    case Forever(body) => CleanSeqIs(body, ar, true);
    case Launch(body) => CleanSeqIs(body, ar, true);
    case WaitUntil(test) => CleanSeqIs(test, ar, true);
    case Carefully(body, handler) => CleanSeqIs(body, ar, true); CleanSeqIs(handler, AfterSeq(body, ar), true);
    case While(test, body) => CleanSeqIs(test, ar, true); CleanSeqIs(body, AfterSeq(test, ar), true);
    case Until(test, body) => CleanSeqIs(test, ar, true); CleanSeqIs(body, AfterSeq(test, ar), true);
  }

  lemma {:induction false} CleanHeadedIs(n: AstNode, ar: Arities, before: bool)
    requires n.Repeat? || n.If? || n.IfElse? || n.ForEach?
    ensures Clean(n, ar, before) <==> Fit(n) && Signs(n, before) && Built(n, ar)
    decreases n, 2
  {
    hide CleanNumber, CleanQuoted, CleanVariable, CleanName, IsOperator, IsKeyword, StartsWith, CleanSeq, CleanLines, FitSeq, SignsSeq,
         SignsLines, BuiltSeq, BuiltLines, AfterSeq, ArityOf;
    match n
    case Repeat(count, body) => CleanIs(count, ar, false); CleanSeqIs(body, After(count, ar), true);
    case If(condition, body) => CleanIs(condition, ar, false); CleanSeqIs(body, After(condition, ar), true);
    case IfElse(condition, thenBody, elseBody) =>
      CleanIs(condition, ar, false);
      CleanSeqIs(thenBody, After(condition, ar), true);
      CleanSeqIs(elseBody, AfterSeq(thenBody, After(condition, ar)), true);
    case ForEach(_, list, body) => CleanIs(list, ar, false); CleanSeqIs(body, After(list, ar), true);
  }

  lemma {:induction false} CleanSeqIs(nodes: seq<AstNode>, ar: Arities, before: bool)
    ensures CleanSeq(nodes, ar, before) <==> FitSeq(nodes) && SignsSeq(nodes, before) && BuiltSeq(nodes, ar)
    decreases nodes, 0
  {
    hide Clean, Fit, Signs, Built, After;
    if nodes != [] {
      CleanIs(nodes[0], ar, before);
      CleanSeqIs(nodes[1..], After(nodes[0], ar), false);
    }
  }

  lemma {:induction false} CleanLinesIs(nodes: seq<AstNode>, ar: Arities)
    ensures CleanLines(nodes, ar) <==> FitSeq(nodes) && SignsLines(nodes) && BuiltLines(nodes, ar)
    decreases nodes, 0
  {
    hide Clean, Fit, Signs, Built, After, StartsWith;
    if nodes != [] {
      CleanIs(nodes[0], ar, true);
      CleanLinesIs(nodes[1..], After(nodes[0], ar));
    }
  }

  // ---- Counting the tokens that were read ----

  function CountIn(mark: Mark, ts: seq<Token>, i: nat): nat
    requires i <= |ts|
  {
    if i == 0 then 0 else CountIn(mark, ts, i - 1) + mark.Of(ts[i - 1].Shape())
  }

  ghost predicate AllLexed(ts: seq<Token>) {
    forall t <- ts :: LexFit(t.Shape())
  }

  /**
   * What was read from `i` to `j` and has become `ks`: the same negative numbers, no more brackets and no more bars, and if
   * the tokens are fit, so are those of the tree.
   */
  ghost predicate Counted(ts: seq<Token>, i: nat, j: nat, ks: seq<Tok>) {
    && i <= j <= |ts|
    && Count(Negative, ks) == CountIn(Negative, ts, j) - CountIn(Negative, ts, i)
    && Count(Opening, ks) <= CountIn(Opening, ts, j) - CountIn(Opening, ts, i)
    && Count(Bars, ks) <= CountIn(Bars, ts, j) - CountIn(Bars, ts, i)
    && (AllLexed(ts) ==> AllTreeFit(ks))
  }

  /** No bracket or parenthesis was read that the tokens of the tree do not have. */
  ghost predicate Exact(ts: seq<Token>, i: nat, j: nat, ks: seq<Tok>)
    requires i <= |ts| && j <= |ts|
  {
    Count(Opening, ks) == CountIn(Opening, ts, j) - CountIn(Opening, ts, i)
  }

  lemma CountedJoin(ts: seq<Token>, i: nat, j: nat, k: nat, a: seq<Tok>, b: seq<Tok>)
    requires Counted(ts, i, j, a) && Counted(ts, j, k, b)
    ensures Counted(ts, i, k, a + b) && (Exact(ts, i, k, a + b) <==> Exact(ts, i, j, a) && Exact(ts, j, k, b))
  {
    CountAppend(Negative, a, b);
    CountAppend(Opening, a, b);
    CountAppend(Bars, a, b);
    AllTreeFitJoin(a, b);
  }

  /** A token that was read and the one that it has become. */
  ghost predicate Stands(t: Tok, k: Tok) {
    Negative.Of(k) == Negative.Of(t) && Opening.Of(k) == Opening.Of(t) && Bars.Of(k) <= Bars.Of(t) && (LexFit(t) ==> TreeFit(k))
  }

  lemma StandsForItself(t: Tok)
    requires !t.kind.Number?
    ensures Stands(t, t)
  {
  }

  /** A keyword of the printed text. */
  lemma KeywordStands(t: Tok, word: string)
    requires t.kind == TokenType.Word && (word == "output" || word == "end")
    ensures Stands(t, WordTok(word))
  {
    LowerWord("output");
    LowerWord("end");
    NoBars(word);
  }

  /** One token that stands in the tree as `k`. */
  lemma CountedOne(ts: seq<Token>, i: nat, k: Tok)
    requires i < |ts| && Stands(ts[i].Shape(), k)
    ensures Counted(ts, i, i + 1, [k]) && Exact(ts, i, i + 1, [k])
  {
    hide LexFit, TreeFit;
    CountOne(Negative, k);
    CountOne(Opening, k);
    CountOne(Bars, k);
    AllTreeFitOne(k);
    assert ts[i] in ts;
  }

  /** One token that leaves no trace. */
  lemma CountedNone(ts: seq<Token>, i: nat)
    requires i < |ts| && ts[i].kind != TokenType.Number
    ensures Counted(ts, i, i + 1, [])
    ensures Exact(ts, i, i + 1, []) <==> ts[i].kind != TokenType.OpenBracket && ts[i].kind != TokenType.OpenParen
  {
    hide LexFit, TreeFit, Weight;
  }

  lemma CountedNothing(ts: seq<Token>, i: nat)
    requires i <= |ts|
    ensures Counted(ts, i, i, []) && Exact(ts, i, i, [])
  {
  }

  lemma {:induction false} CountedNewlines(ts: seq<Token>, st: State)
    requires Within(ts, st)
    ensures Counted(ts, st.pos, SkipNewlines(ts, st).pos, []) && Exact(ts, st.pos, SkipNewlines(ts, st).pos, [])
    decreases |ts| - st.pos
  {
    if ts[st.pos].kind == TokenType.Newline {
      CountedNone(ts, st.pos);
      CountedNewlines(ts, Next(st));
    }
  }

  // ---- What a parse function returns for what it has read ----

  /** The first token of a tree that starts with a bracket or with `end` was such a token. */
  ghost predicate Begins(n: AstNode, token: Token) {
    && (StartsWith(n, OPEN) ==> token.kind == TokenType.OpenBracket)
    && (StartsWith(n, WordTok("end")) ==> token.Shape() == WordTok("end"))
  }

  ghost predicate Reads(ts: seq<Token>, st: State, n: AstNode, st1: State) {
    && st.pos < |ts| && Counted(ts, st.pos, st1.pos, Toks(n)) && st1.arities == After(n, st.arities)
    && (Exact(ts, st.pos, st1.pos, Toks(n)) ==> Built(n, st.arities) && Begins(n, ts[st.pos]))
  }

  ghost predicate ReadsSeq(ts: seq<Token>, st: State, nodes: seq<AstNode>, st1: State) {
    && Counted(ts, st.pos, st1.pos, SeqToks(nodes)) && st1.arities == AfterSeq(nodes, st.arities)
    && (Exact(ts, st.pos, st1.pos, SeqToks(nodes)) ==> BuiltSeq(nodes, st.arities))
  }

  lemma ReadsNone(ts: seq<Token>, st: State)
    requires st.pos <= |ts|
    ensures ReadsSeq(ts, st, [], st)
  {
    CountedNothing(ts, st.pos);
  }

  /** A node, and what is read after it and the line ends behind it. */
  lemma ReadsCons(ts: seq<Token>, st: State, n: AstNode, st1: State, st2: State, nodes: seq<AstNode>, st3: State)
    requires Reads(ts, st, n, st1) && st1.arities == st2.arities
    requires Counted(ts, st1.pos, st2.pos, []) && Exact(ts, st1.pos, st2.pos, []) && ReadsSeq(ts, st2, nodes, st3)
    ensures ReadsSeq(ts, st, [n] + nodes, st3)
  {
    hide Counted, Exact, Toks, Built, After, Begins;
    CountedJoin(ts, st1.pos, st2.pos, st3.pos, [], SeqToks(nodes));
    assert [] + SeqToks(nodes) == SeqToks(nodes);
    CountedJoin(ts, st.pos, st1.pos, st3.pos, Toks(n), SeqToks(nodes));
    assert ([n] + nodes)[1..] == nodes;
  }

  /** A block from its opening to its closing bracket. */
  ghost predicate ReadsBody(ts: seq<Token>, st: State, body: seq<AstNode>, st1: State) {
    && Counted(ts, st.pos, st1.pos, BlockToks(body)) && st1.arities == AfterSeq(body, st.arities)
    && (Exact(ts, st.pos, st1.pos, BlockToks(body)) ==> BuiltSeq(body, st.arities))
  }

  lemma ReadsBlock(ts: seq<Token>, st: State, st1: State, nodes: seq<AstNode>, st2: State)
    requires st.pos < |ts| && ts[st.pos].kind == TokenType.OpenBracket && st1.arities == st.arities
    requires Counted(ts, st.pos + 1, st1.pos, []) && Exact(ts, st.pos + 1, st1.pos, []) && ReadsSeq(ts, st1, nodes, st2)
    requires st2.pos < |ts| && ts[st2.pos].kind == TokenType.CloseBracket
    ensures ReadsBody(ts, st, nodes, Next(st2))
  {
    hide Counted, Exact, SeqToks, BuiltSeq, AfterSeq;
    CountedOne(ts, st.pos, OPEN);
    CountedOne(ts, st2.pos, CLOSE);
    CountedJoin(ts, st.pos + 1, st1.pos, st2.pos, [], SeqToks(nodes));
    assert [] + SeqToks(nodes) == SeqToks(nodes);
    CountedJoin(ts, st.pos, st.pos + 1, st2.pos, [OPEN], SeqToks(nodes));
    CountedJoin(ts, st.pos, st2.pos, st2.pos + 1, [OPEN] + SeqToks(nodes), [CLOSE]);
  }

  /** A head and the block behind it. */
  lemma PartReads(ts: seq<Token>, st: State, head: AstNode, st1: State, body: seq<AstNode>, st2: State)
    requires Reads(ts, st, head, st1) && ReadsBody(ts, st1, body, st2)
    ensures Counted(ts, st.pos, st2.pos, Toks(head) + BlockToks(body)) && st2.arities == AfterSeq(body, After(head, st.arities))
    ensures Exact(ts, st.pos, st2.pos, Toks(head) + BlockToks(body)) ==>
      Built(head, st.arities) && BuiltSeq(body, After(head, st.arities))
  {
    hide Counted, Exact, Toks, BlockToks, Built, BuiltSeq, After, AfterSeq, Begins;
    CountedJoin(ts, st.pos, st1.pos, st2.pos, Toks(head), BlockToks(body));
  }

  /** Two blocks in a row. */
  lemma BlocksRead(ts: seq<Token>, st: State, a: seq<AstNode>, st1: State, b: seq<AstNode>, st2: State)
    requires ReadsBody(ts, st, a, st1) && ReadsBody(ts, st1, b, st2)
    ensures Counted(ts, st.pos, st2.pos, BlockToks(a) + BlockToks(b)) && st2.arities == AfterSeq(b, AfterSeq(a, st.arities))
    ensures Exact(ts, st.pos, st2.pos, BlockToks(a) + BlockToks(b)) ==> BuiltSeq(a, st.arities) && BuiltSeq(b, AfterSeq(a, st.arities))
  {
    hide Counted, Exact, BlockToks, BuiltSeq, AfterSeq;
    CountedJoin(ts, st.pos, st1.pos, st2.pos, BlockToks(a), BlockToks(b));
  }

  /** A word and what belongs to it. */
  lemma FormReads(ts: seq<Token>, st: State, n: AstNode, word: string, rest: seq<Tok>, st1: State)
    requires st.pos < |ts| && Stands(ts[st.pos].Shape(), WordTok(word)) && Toks(n) == [WordTok(word)] + rest
    requires ts[st.pos].kind == TokenType.Word
    requires word == "end" ==> ts[st.pos].value == "end"
    requires Counted(ts, st.pos + 1, st1.pos, rest) && st1.arities == After(n, st.arities)
    requires Exact(ts, st.pos + 1, st1.pos, rest) ==> Built(n, st.arities)
    ensures Reads(ts, st, n, st1)
  {
    hide Counted, Exact, Toks, Built, After;
    CountedOne(ts, st.pos, WordTok(word));
    CountedJoin(ts, st.pos, st.pos + 1, st1.pos, [WordTok(word)], rest);
  }

  /** A token that is a node by itself. */
  lemma TokenReads(ts: seq<Token>, st: State, n: AstNode)
    requires st.pos < |ts| && (n.Number? || n.Word? || n.Variable? || n.Stop?) && |Toks(n)| == 1
    requires Stands(ts[st.pos].Shape(), Toks(n)[0])
    ensures Reads(ts, st, n, Next(st))
  {
    CountedOne(ts, st.pos, Toks(n)[0]);
    assert Toks(n) == [Toks(n)[0]];
  }

  // ---- The parse functions, one by one ----

  lemma {:induction false} ExpressionReads(ts: seq<Token>, st: State)
    requires Within(ts, st)
    ensures var r := Expression(ts, st); r.Done? ==> Reads(ts, st, r.value, r.state)
    decreases |ts| - st.pos, 3
  {
    hide Atom, InfixTail, Reads;
    var r := Atom(ts, st);
    AtomReads(ts, st);
    if r.Done? {
      InfixTailReads(ts, st, r.state, r.value);
    }
  }

  lemma {:induction false} InfixTailReads(ts: seq<Token>, st0: State, st: State, left: AstNode)
    requires Within(ts, st) && st0.pos < st.pos && Reads(ts, st0, left, st)
    ensures var r := InfixTail(ts, st, left); r.Done? ==> Reads(ts, st0, r.value, r.state)
    decreases |ts| - st.pos, 0
  {
    hide Atom, Reads;
    if ts[st.pos].kind == TokenType.Infix {
      var r := Atom(ts, Next(st));
      AtomReads(ts, Next(st));
      if r.Done? {
        InfixReads(ts, st0, left, st, r.value, r.state);
        InfixTailReads(ts, st0, r.state, AstNode.Infix(ts[st.pos].value, left, r.value));
      }
    }
  }

  lemma InfixReads(ts: seq<Token>, st0: State, left: AstNode, st: State, right: AstNode, st1: State)
    requires st.pos < |ts| && ts[st.pos].kind == TokenType.Infix
    requires Reads(ts, st0, left, st) && Reads(ts, Next(st), right, st1)
    ensures Reads(ts, st0, AstNode.Infix(ts[st.pos].value, left, right), st1)
  {
    hide Counted, Exact;
    var op := Tok(TokenType.Infix, ts[st.pos].value);
    CountedOne(ts, st.pos, op);
    Leads(left);
    CountedJoin(ts, st0.pos, st.pos, st.pos + 1, Toks(left), [op]);
    CountedJoin(ts, st0.pos, st.pos + 1, st1.pos, Toks(left) + [op], Toks(right));
  }

  lemma {:induction false} AtomReads(ts: seq<Token>, st: State)
    requires Within(ts, st)
    ensures var r := Atom(ts, st); r.Done? ==> Reads(ts, st, r.value, r.state)
    decreases |ts| - st.pos, 2
  {
    hide ListLiteral, ParenExpr, WordExpr, Reads, IsNumber;
    var token := ts[st.pos];
    match token.kind
    case Number => if IsNumber(token.value) { TokenReads(ts, st, AstNode.Number(token.value)); }
    case QuotedWord => TokenReads(ts, st, AstNode.Word(token.value));
    case Variable => TokenReads(ts, st, AstNode.Variable(token.value));
    case OpenBracket => ListReads(ts, st);
    case OpenParen => ParenReads(ts, st);
    case Word => WordReads(ts, st);
    case _ =>
  }

  lemma {:induction false} WordReads(ts: seq<Token>, st: State)
    requires Within(ts, st) && ts[st.pos].kind == TokenType.Word
    ensures var r := WordExpr(ts, st); r.Done? ==> Reads(ts, st, r.value, r.state)
    decreases |ts| - st.pos, 1
  {
    hide ProcedureDef, SpecialForm, CallArgs, Reads, ReadsSeq;
    var token := ts[st.pos];
    var name := token.value;
    if name == "to" {
      ProcedureReads(ts, st);
    } else if IsFormKeyword(name) {
      SpecialReads(ts, st, name);
    } else {
      var arity := if ToLower(name) in st.arities then st.arities[ToLower(name)] else 0;
      var r := CallArgs(ts, Next(st), token, arity, []);
      CallArgsRead(ts, Next(st), token, arity, []);
      if r.Done? {
        assert r.value[0..] == r.value;
        CallReads(ts, st, name, r.value, r.state);
      }
    }
  }

  lemma CallReads(ts: seq<Token>, st: State, name: string, args: seq<AstNode>, st1: State)
    requires st.pos < |ts| && ts[st.pos].Shape() == WordTok(name) && !IsKeyword(name) && |args| == ArityOf(st.arities, name)
    requires ReadsSeq(ts, Next(st), args, st1)
    ensures Reads(ts, st, Call(name, args), st1)
  {
    hide Counted, Exact, SeqToks, BuiltSeq, AfterSeq, Stands;
    StandsForItself(WordTok(name));
    FormReads(ts, st, Call(name, args), name, SeqToks(args), st1);
  }

  lemma {:induction false} CallArgsRead(ts: seq<Token>, st: State, token: Token, arity: nat, args: seq<AstNode>)
    requires Within(ts, st) && |args| <= arity
    ensures var r := CallArgs(ts, st, token, arity, args);
      r.Done? ==> args <= r.value && ReadsSeq(ts, st, r.value[|args|..], r.state)
    decreases |ts| - st.pos, 4
  {
    hide Expression, Reads, ReadsSeq;
    if |args| == arity {
      ReadsNone(ts, st);
      assert args[|args|..] == [];
    } else if !AtEnd(ts, st) && ts[st.pos].kind != TokenType.Newline {
      var e := Expression(ts, st);
      ExpressionReads(ts, st);
      if e.Done? {
        var r := CallArgs(ts, e.state, token, arity, args + [e.value]);
        CallArgsRead(ts, e.state, token, arity, args + [e.value]);
        if r.Done? {
          CountedNothing(ts, e.state.pos);
          ReadsCons(ts, st, e.value, e.state, e.state, r.value[|args| + 1..], r.state);
          assert r.value[|args|..] == [e.value] + r.value[|args| + 1..];
        }
      }
    }
  }

  // ---- Lists and blocks ----

  lemma {:induction false} ListReads(ts: seq<Token>, st: State)
    requires Within(ts, st) && ts[st.pos].kind == TokenType.OpenBracket
    ensures var r := ListLiteral(ts, st); r.Done? ==> Reads(ts, st, r.value, r.state) && IsRaw(r.value)
    decreases |ts| - st.pos, 0
  {
    hide ListElements, Reads, ReadsSeq, ReadsBody;
    var st1 := SkipNewlines(ts, Next(st));
    var r := ListElements(ts, st1, []);
    ElementsRead(ts, st1, []);
    if r.Done? {
      assert r.value[0..] == r.value;
      CountedNewlines(ts, Next(st));
      ReadsBlock(ts, st, st1, r.value, State(r.state.pos - 1, r.state.arities));
      ListIsRead(ts, st, r.value, r.state);
    }
  }

  lemma ListIsRead(ts: seq<Token>, st: State, elements: seq<AstNode>, st1: State)
    requires st.pos < |ts| && ts[st.pos].kind == TokenType.OpenBracket
    requires ReadsBody(ts, st, elements, st1) && forall e <- elements :: IsRaw(e)
    ensures Reads(ts, st, List(elements), st1)
  {
    hide Counted, Exact, SeqToks, BuiltSeq;
    RawAfter(elements, st.arities);
  }

  /** Raw elements define no procedures. */
  lemma {:induction false} RawAfter(elements: seq<AstNode>, ar: Arities)
    requires forall e <- elements :: IsRaw(e)
    ensures AfterSeq(elements, ar) == ar
    decreases elements
  {
    if elements != [] {
      assert IsRaw(elements[0]);
      RawAfter(elements[1..], ar);
    }
  }

  lemma {:induction false} ElementsRead(ts: seq<Token>, st: State, elements: seq<AstNode>)
    requires Within(ts, st) && forall e <- elements :: IsRaw(e)
    ensures var r := ListElements(ts, st, elements);
      r.Done? ==> && elements <= r.value && (forall e <- r.value :: IsRaw(e))
                  && ts[r.state.pos - 1].kind == TokenType.CloseBracket
                  && ReadsSeq(ts, st, r.value[|elements|..], State(r.state.pos - 1, r.state.arities))
    decreases |ts| - st.pos, 4
  {
    hide RawAtom, Reads, ReadsSeq, IsRaw, Counted, Exact;
    if ts[st.pos].kind == TokenType.CloseBracket {
      ReadsNone(ts, st);
      assert elements[|elements|..] == [];
    } else if !AtEnd(ts, st) {
      var e := RawAtom(ts, st);
      RawReads(ts, st);
      if e.Done? {
        var st1 := SkipNewlines(ts, e.state);
        var r := ListElements(ts, st1, elements + [e.value]);
        ElementsRead(ts, st1, elements + [e.value]);
        if r.Done? {
          CountedNewlines(ts, e.state);
          ReadsCons(ts, st, e.value, e.state, st1, r.value[|elements| + 1..], State(r.state.pos - 1, r.state.arities));
          assert r.value[|elements|..] == [e.value] + r.value[|elements| + 1..];
        }
      }
    }
  }

  lemma {:induction false} RawReads(ts: seq<Token>, st: State)
    requires Within(ts, st)
    ensures var r := RawAtom(ts, st); r.Done? ==> Reads(ts, st, r.value, r.state) && IsRaw(r.value)
    decreases |ts| - st.pos, 2
  {
    hide ListLiteral, Reads, IsNumber;
    var token := ts[st.pos];
    match token.kind
    case Number => if IsNumber(token.value) { TokenReads(ts, st, AstNode.Number(token.value)); }
    case QuotedWord => TokenReads(ts, st, AstNode.Word(token.value));
    case Variable => TokenReads(ts, st, AstNode.Variable(token.value));
    case Word => TokenReads(ts, st, AstNode.Word(token.value));
    case OpenBracket => ListReads(ts, st);
    case _ =>
  }

  lemma {:induction false} BodyReads(ts: seq<Token>, st: State)
    requires Within(ts, st)
    ensures var r := ListBody(ts, st); r.Done? ==> ReadsBody(ts, st, r.value, r.state)
    decreases |ts| - st.pos, 0
  {
    hide BodyNodes, ReadsSeq, ReadsBody;
    if ts[st.pos].kind == TokenType.OpenBracket {
      var st1 := SkipNewlines(ts, Next(st));
      var r := BodyNodes(ts, st1, []);
      BodyNodesRead(ts, st1, []);
      if r.Done? {
        assert r.value[0..] == r.value;
        CountedNewlines(ts, Next(st));
        ReadsBlock(ts, st, st1, r.value, State(r.state.pos - 1, r.state.arities));
      }
    }
  }

  lemma {:induction false} BodyNodesRead(ts: seq<Token>, st: State, body: seq<AstNode>)
    requires Within(ts, st)
    ensures var r := BodyNodes(ts, st, body);
      r.Done? ==> && body <= r.value && ts[r.state.pos - 1].kind == TokenType.CloseBracket
                  && ReadsSeq(ts, st, r.value[|body|..], State(r.state.pos - 1, r.state.arities))
    decreases |ts| - st.pos, 4
  {
    hide Expression, Reads, ReadsSeq, Counted, Exact;
    if ts[st.pos].kind == TokenType.CloseBracket {
      ReadsNone(ts, st);
      assert body[|body|..] == [];
    } else if !AtEnd(ts, st) {
      var e := Expression(ts, st);
      ExpressionReads(ts, st);
      if e.Done? {
        var st1 := SkipNewlines(ts, e.state);
        var r := BodyNodes(ts, st1, body + [e.value]);
        BodyNodesRead(ts, st1, body + [e.value]);
        if r.Done? {
          CountedNewlines(ts, e.state);
          ReadsCons(ts, st, e.value, e.state, st1, r.value[|body| + 1..], State(r.state.pos - 1, r.state.arities));
          assert r.value[|body|..] == [e.value] + r.value[|body| + 1..];
        }
      }
    }
  }

  // ---- Parentheses ----

  lemma {:induction false} ParenReads(ts: seq<Token>, st: State)
    requires Within(ts, st) && ts[st.pos].kind == TokenType.OpenParen
    ensures var r := ParenExpr(ts, st); r.Done? ==> Reads(ts, st, r.value, r.state)
    decreases |ts| - st.pos, 0
  {
    hide ParenArgs, Expression, Reads, ReadsSeq;
    var st1 := Next(st);
    if ts[st1.pos].kind == TokenType.Word {
      var r := ParenArgs(ts, Next(st1), ts[st1.pos], []);
      ParenArgsRead(ts, Next(st1), ts[st1.pos], []);
      if r.Done? {
        assert r.value[0..] == r.value;
        ParenIsRead(ts, st, r.value, State(r.state.pos - 1, r.state.arities));
      }
    } else {
      var e := Expression(ts, st1);
      ExpressionReads(ts, st1);
      if e.Done? && ts[e.state.pos].kind == TokenType.CloseParen {
        ParenVanishes(ts, st, e.value, e.state);
      }
    }
  }

  lemma ParenIsRead(ts: seq<Token>, st: State, args: seq<AstNode>, st1: State)
    requires st.pos + 1 < |ts| && ts[st.pos].kind == TokenType.OpenParen && ts[st.pos + 1].kind == TokenType.Word
    requires ReadsSeq(ts, Next(Next(st)), args, st1) && st1.pos < |ts| && ts[st1.pos].kind == TokenType.CloseParen
    ensures Reads(ts, st, Paren(ts[st.pos + 1].value, args), Next(st1))
  {
    hide Counted, Exact, SeqToks, BuiltSeq, AfterSeq;
    var open, word, close := Tok(TokenType.OpenParen, "("), WordTok(ts[st.pos + 1].value), Tok(TokenType.CloseParen, ")");
    CountedOne(ts, st.pos, open);
    CountedOne(ts, st.pos + 1, word);
    CountedOne(ts, st1.pos, close);
    CountedJoin(ts, st.pos, st.pos + 1, st.pos + 2, [open], [word]);
    assert [open] + [word] == [open, word];
    CountedJoin(ts, st.pos, st.pos + 2, st1.pos, [open, word], SeqToks(args));
    CountedJoin(ts, st.pos, st1.pos, st1.pos + 1, [open, word] + SeqToks(args), [close]);
  }

  /** A dropped pair of parentheses was counted and is not in the tree. */
  lemma ParenVanishes(ts: seq<Token>, st: State, n: AstNode, st1: State)
    requires st.pos < |ts| && ts[st.pos].kind == TokenType.OpenParen && Reads(ts, Next(st), n, st1)
    requires st1.pos < |ts| && ts[st1.pos].kind == TokenType.CloseParen
    ensures Reads(ts, st, n, Next(st1))
  {
    hide Counted, Exact, Toks, Built, After, Begins;
    CountedNone(ts, st.pos);
    CountedNone(ts, st1.pos);
    CountedJoin(ts, st.pos, st.pos + 1, st1.pos, [], Toks(n));
    assert [] + Toks(n) == Toks(n);
    CountedJoin(ts, st.pos, st1.pos, st1.pos + 1, Toks(n), []);
    assert Toks(n) + [] == Toks(n);
  }

  lemma {:induction false} ParenArgsRead(ts: seq<Token>, st: State, name: Token, args: seq<AstNode>)
    requires Within(ts, st)
    ensures var r := ParenArgs(ts, st, name, args);
      r.Done? ==> && args <= r.value && ts[r.state.pos - 1].kind == TokenType.CloseParen
                  && ReadsSeq(ts, st, r.value[|args|..], State(r.state.pos - 1, r.state.arities))
    decreases |ts| - st.pos, 4
  {
    hide Expression, Reads, ReadsSeq;
    if ts[st.pos].kind == TokenType.CloseParen {
      ReadsNone(ts, st);
      assert args[|args|..] == [];
    } else if !AtEnd(ts, st) {
      var e := Expression(ts, st);
      ExpressionReads(ts, st);
      if e.Done? {
        var r := ParenArgs(ts, e.state, name, args + [e.value]);
        ParenArgsRead(ts, e.state, name, args + [e.value]);
        if r.Done? {
          CountedNothing(ts, e.state.pos);
          ReadsCons(ts, st, e.value, e.state, e.state, r.value[|args| + 1..], State(r.state.pos - 1, r.state.arities));
          assert r.value[|args|..] == [e.value] + r.value[|args| + 1..];
        }
      }
    }
  }

  // ---- Special forms ----

  lemma {:induction false} SpecialReads(ts: seq<Token>, st: State, name: string)
    requires Within(ts, st) && ts[st.pos].Shape() == WordTok(name) && IsFormKeyword(name)
    ensures var r := SpecialForm(ts, Next(st), name); r.Done? ==> Reads(ts, st, r.value, r.state)
    decreases |ts| - st.pos, 0, 1
  {
    hide ListBody, Expression, ForEachForm, Reads, ReadsBody;
    var st1 := Next(st);
    if name == "repeat" || name == "if" || name == "ifelse" {
      ExpressionReads(ts, st1);
      var e := Expression(ts, st1);
      if e.Done? {
        HeadedReads(ts, st, name, e.value, e.state);
      }
    } else if name == "foreach" {
      ForEachReads(ts, st);
    } else if name == "output" || name == "op" {
      ExpressionReads(ts, st1);
      var e := Expression(ts, st1);
      if e.Done? {
        OutputReads(ts, st, e.value, e.state);
      }
    } else if name == "stop" {
      TokenReads(ts, st, Stop);
    } else if name == "true" || name == "false" {
      TokenReads(ts, st, AstNode.Word(name));
    } else {
      BodyReads(ts, st1);
      var a := ListBody(ts, st1);
      if a.Done? {
        if name == "forever" || name == "launch" || name == "waituntil" {
          OneBlockReads(ts, st, name, a.value, a.state);
        } else {
          BodyReads(ts, a.state);
          var b := ListBody(ts, a.state);
          if b.Done? {
            TwoBlocksRead(ts, st, name, a.value, a.state, b.value, b.state);
          }
        }
      }
    }
  }

  lemma OutputReads(ts: seq<Token>, st: State, value: AstNode, st1: State)
    requires st.pos < |ts| && ts[st.pos].kind == TokenType.Word && Reads(ts, Next(st), value, st1)
    ensures Reads(ts, st, Output(value), st1)
  {
    hide Counted, Exact, Begins, Stands;
    KeywordStands(ts[st.pos].Shape(), "output");
    FormReads(ts, st, Output(value), "output", Toks(value), st1);
  }

  lemma OneBlockReads(ts: seq<Token>, st: State, name: string, body: seq<AstNode>, st1: State)
    requires st.pos < |ts| && ts[st.pos].Shape() == WordTok(name) && ReadsBody(ts, Next(st), body, st1)
    requires name == "forever" || name == "launch" || name == "waituntil"
    ensures Reads(ts, st, if name == "forever" then Forever(body) else if name == "launch" then Launch(body) else WaitUntil(body), st1)
  {
    hide Counted, Stands, StartsWith, Exact, BlockToks, BuiltSeq, AfterSeq;
    StandsForItself(WordTok(name));
    var n := if name == "forever" then Forever(body) else if name == "launch" then Launch(body) else WaitUntil(body);
    FormReads(ts, st, n, name, BlockToks(body), st1);
  }

  lemma TwoBlocksRead(ts: seq<Token>, st: State, name: string, a: seq<AstNode>, st1: State, b: seq<AstNode>, st2: State)
    requires st.pos < |ts| && ts[st.pos].Shape() == WordTok(name)
    requires ReadsBody(ts, Next(st), a, st1) && ReadsBody(ts, st1, b, st2)
    requires name == "while" || name == "until" || name == "carefully"
    ensures Reads(ts, st, if name == "while" then While(a, b) else if name == "until" then Until(a, b) else Carefully(a, b), st2)
  {
    hide Counted, Stands, StartsWith, Exact, BlockToks, BuiltSeq, AfterSeq;
    StandsForItself(WordTok(name));
    var n := if name == "while" then While(a, b) else if name == "until" then Until(a, b) else Carefully(a, b);
    BlocksRead(ts, Next(st), a, st1, b, st2);
    FormReads(ts, st, n, name, BlockToks(a) + BlockToks(b), st2);
  }

  lemma {:induction false} HeadedReads(ts: seq<Token>, st: State, name: string, head: AstNode, st1: State)
    requires Within(ts, st) && ts[st.pos].Shape() == WordTok(name) && Within(ts, st1) && st.pos < st1.pos && Reads(ts, Next(st), head, st1)
    requires name == "repeat" || name == "if" || name == "ifelse"
    ensures var a := ListBody(ts, st1);
      a.Done? ==>
        && (name == "repeat" ==> Reads(ts, st, Repeat(head, a.value), a.state))
        && (name == "if" ==> Reads(ts, st, If(head, a.value), a.state))
        && (name == "ifelse" && ListBody(ts, a.state).Done? ==>
              Reads(ts, st, IfElse(head, a.value, ListBody(ts, a.state).value), ListBody(ts, a.state).state))
    decreases |ts| - st1.pos, 1
  {
    hide ListBody, Reads, ReadsBody;
    var a := ListBody(ts, st1);
    BodyReads(ts, st1);
    if a.Done? {
      if name == "ifelse" {
        var b := ListBody(ts, a.state);
        BodyReads(ts, a.state);
        if b.Done? {
          IfElseReads(ts, st, head, st1, a.value, a.state, b.value, b.state);
        }
      } else {
        HeadAndBlockRead(ts, st, name, head, st1, a.value, a.state);
      }
    }
  }

  lemma HeadAndBlockRead(ts: seq<Token>, st: State, name: string, head: AstNode, st1: State, body: seq<AstNode>, st2: State)
    requires st.pos < |ts| && ts[st.pos].Shape() == WordTok(name) && Reads(ts, Next(st), head, st1) && ReadsBody(ts, st1, body, st2)
    requires name == "repeat" || name == "if"
    ensures Reads(ts, st, if name == "repeat" then Repeat(head, body) else If(head, body), st2)
  {
    hide Counted, Stands, StartsWith, Exact, BlockToks, BuiltSeq, AfterSeq, Begins;
    StandsForItself(WordTok(name));
    PartReads(ts, Next(st), head, st1, body, st2);
    FormReads(ts, st, if name == "repeat" then Repeat(head, body) else If(head, body), name, Toks(head) + BlockToks(body), st2);
  }

  lemma IfElseReads(ts: seq<Token>, st: State, head: AstNode, st1: State, a: seq<AstNode>, st2: State, b: seq<AstNode>, st3: State)
    requires st.pos < |ts| && ts[st.pos].Shape() == WordTok("ifelse") && Reads(ts, Next(st), head, st1)
    requires ReadsBody(ts, st1, a, st2) && ReadsBody(ts, st2, b, st3)
    ensures Reads(ts, st, IfElse(head, a, b), st3)
  {
    hide Counted, Stands, StartsWith, Exact, BlockToks, BuiltSeq, AfterSeq, Begins;
    StandsForItself(WordTok("ifelse"));
    BlocksRead(ts, st1, a, st2, b, st3);
    CountedJoin(ts, st.pos + 1, st1.pos, st3.pos, Toks(head), BlockToks(a) + BlockToks(b));
    FormReads(ts, st, IfElse(head, a, b), "ifelse", Toks(head) + (BlockToks(a) + BlockToks(b)), st3);
  }

  lemma {:induction false} ForEachReads(ts: seq<Token>, st: State)
    requires Within(ts, st) && ts[st.pos].Shape() == WordTok("foreach")
    ensures var r := ForEachForm(ts, Next(st)); r.Done? ==> Reads(ts, st, r.value, r.state)
    decreases |ts| - st.pos, 0, 0
  {
    hide Expression, ListBody, Reads, ReadsBody;
    var st1 := Next(st);
    var name := Expression(ts, st1);
    ExpressionReads(ts, st1);
    if name.Done? && name.value.Word? {
      var list := Expression(ts, name.state);
      ExpressionReads(ts, name.state);
      if list.Done? {
        var body := ListBody(ts, list.state);
        BodyReads(ts, list.state);
        if body.Done? {
          ForEachIsRead(ts, st, name.value, name.state, list.value, list.state, body.value, body.state);
        }
      }
    }
  }

  lemma ForEachIsRead(ts: seq<Token>, st: State, name: AstNode, st1: State, list: AstNode, st2: State, body: seq<AstNode>, st3: State)
    requires st.pos < |ts| && ts[st.pos].Shape() == WordTok("foreach") && name.Word?
    requires Reads(ts, Next(st), name, st1) && Reads(ts, st1, list, st2) && ReadsBody(ts, st2, body, st3)
    ensures Reads(ts, st, ForEach(name.text, list, body), st3)
  {
    hide Counted, Stands, StartsWith, Exact, BlockToks, BuiltSeq, AfterSeq, Begins;
    StandsForItself(WordTok("foreach"));
    PartReads(ts, st1, list, st2, body, st3);
    var v := [Tok(TokenType.QuotedWord, name.text)];
    CountedJoin(ts, st.pos + 1, st1.pos, st3.pos, v, Toks(list) + BlockToks(body));
    FormReads(ts, st, ForEach(name.text, list, body), "foreach", v + (Toks(list) + BlockToks(body)), st3);
  }

  // ---- Procedures ----

  lemma {:induction false} CountedParams(ts: seq<Token>, st: State, params: seq<string>)
    requires Within(ts, st)
    ensures var (ps, r) := Params(ts, st, params);
      params <= ps && Counted(ts, st.pos, r.pos, ParamToks(ps[|params|..])) && Exact(ts, st.pos, r.pos, ParamToks(ps[|params|..]))
    decreases |ts| - st.pos
  {
    hide Counted, Exact, Stands;
    if ts[st.pos].kind == TokenType.Variable {
      var v := ts[st.pos].value;
      var ps := Params(ts, Next(st), params + [v]).0;
      StandsForItself(ts[st.pos].Shape());
      CountedOne(ts, st.pos, ts[st.pos].Shape());
      CountedParams(ts, Next(st), params + [v]);
      var rest := ps[|params| + 1..];
      CountedJoin(ts, st.pos, st.pos + 1, Params(ts, st, params).1.pos, [ts[st.pos].Shape()], ParamToks(rest));
      assert ps[|params|..] == [v] + rest && ([v] + rest)[1..] == rest;
    } else {
      assert params[|params|..] == [];
      CountedNothing(ts, st.pos);
    }
  }

  lemma {:induction false} CountLines(mark: Mark, nodes: seq<AstNode>)
    ensures Count(mark, LineToks(nodes)) == Count(mark, SeqToks(nodes))
    decreases nodes
  {
    hide Toks;
    if nodes != [] {
      CountLines(mark, nodes[1..]);
      CountAppend(mark, Toks(nodes[0]), SeqToks(nodes[1..]));
      CountAppend(mark, Toks(nodes[0]) + [LINE], LineToks(nodes[1..]));
      CountAppend(mark, Toks(nodes[0]), [LINE]);
      CountOne(mark, LINE);
      assert Toks(nodes[0]) + [] == Toks(nodes[0]);
    }
  }

  function HeaderToks(name: string, params: seq<string>): seq<Tok> {
    [WordTok("to"), WordTok(name)] + ParamToks(params)
  }

  /** The tokens of a definition count what those of its parts count. */
  lemma CountProcedure(mark: Mark, name: string, params: seq<string>, body: seq<AstNode>)
    ensures Count(mark, Toks(ProcDef(name, params, body)))
         == Count(mark, HeaderToks(name, params)) + Count(mark, SeqToks(body)) + Count(mark, [WordTok("end")])
  {
    hide LineToks, SeqToks, ParamToks;
    var head, end := HeaderToks(name, params), [LINE, WordTok("end")];
    CountLines(mark, body);
    CountTwo(mark, LINE, WordTok("end"));
    CountOne(mark, LINE);
    CountAppend(mark, head, [LINE]);
    CountAppend(mark, head + [LINE], LineToks(body));
    CountAppend(mark, head + [LINE] + LineToks(body), end);
  }

  lemma {:induction false} FitLines(nodes: seq<AstNode>)
    ensures AllTreeFit(LineToks(nodes)) <==> AllTreeFit(SeqToks(nodes))
    decreases nodes
  {
    hide Toks, AllTreeFit;
    if nodes != [] {
      FitLines(nodes[1..]);
      AllTreeFitJoin(Toks(nodes[0]), SeqToks(nodes[1..]));
      AllTreeFitJoin(Toks(nodes[0]) + [LINE], LineToks(nodes[1..]));
      AllTreeFitJoin(Toks(nodes[0]), [LINE]);
      AllTreeFitOne(LINE);
      assert Toks(nodes[0]) + [] == Toks(nodes[0]);
    }
  }

  lemma FitDefinition(name: string, params: seq<string>, body: seq<AstNode>)
    requires AllTreeFit(HeaderToks(name, params)) && AllTreeFit(SeqToks(body))
    ensures AllTreeFit(Toks(ProcDef(name, params, body)))
  {
    hide LineToks, SeqToks, ParamToks, AllTreeFit, TreeFit;
    var head, end := HeaderToks(name, params), [LINE, WordTok("end")];
    FitLines(body);
    assert end == [LINE] + [WordTok("end")];
    AllTreeFitJoin([LINE], [WordTok("end")]);
    AllTreeFitJoin(head, [LINE]);
    AllTreeFitJoin(head + [LINE], LineToks(body));
    AllTreeFitJoin(head + [LINE] + LineToks(body), end);
    AllTreeFitOne(LINE);
    AllTreeFitOne(WordTok("end"));
    EndIsTreeFit();
  }

  lemma EndIsTreeFit()
    ensures TreeFit(LINE) && TreeFit(WordTok("end"))
  {
    LowerWord("end");
  }

  /** The statements up to `end`. */
  ghost predicate ReadsLines(ts: seq<Token>, st: State, nodes: seq<AstNode>, st1: State) {
    && st.pos < |ts| && Counted(ts, st.pos, st1.pos, SeqToks(nodes)) && st1.arities == AfterSeq(nodes, st.arities)
    && (Exact(ts, st.pos, st1.pos, SeqToks(nodes)) ==>
          BuiltLines(nodes, st.arities) && (nodes != [] ==> Begins(nodes[0], ts[st.pos])))
  }

  lemma ReadsLine(ts: seq<Token>, st: State, n: AstNode, st1: State, st2: State, nodes: seq<AstNode>, st3: State)
    requires Reads(ts, st, n, st1) && st1.arities == st2.arities && ts[st.pos].Shape() != WordTok("end")
    requires Counted(ts, st1.pos, st2.pos, []) && Exact(ts, st1.pos, st2.pos, []) && ReadsLines(ts, st2, nodes, st3)
    ensures ReadsLines(ts, st, [n] + nodes, st3)
  {
    hide Counted, Exact, Toks, Built, After;
    CountedJoin(ts, st1.pos, st2.pos, st3.pos, [], SeqToks(nodes));
    assert [] + SeqToks(nodes) == SeqToks(nodes);
    CountedJoin(ts, st.pos, st1.pos, st3.pos, Toks(n), SeqToks(nodes));
    assert ([n] + nodes)[1..] == nodes;
  }

  lemma {:induction false} LinesRead(ts: seq<Token>, st: State, token: Token, name: string, body: seq<AstNode>)
    requires Within(ts, st)
    ensures var r := ProcedureBody(ts, st, token, name, body);
      r.Done? ==> && body <= r.value && ts[r.state.pos - 1].kind == TokenType.Word
                  && ReadsLines(ts, st, r.value[|body|..], State(r.state.pos - 1, r.state.arities))
    decreases |ts| - st.pos, 4
  {
    hide Expression, Reads, ReadsLines, Counted, Exact;
    if AtEnd(ts, st) {
    } else if ts[st.pos].kind == TokenType.Word && ts[st.pos].value == "end" {
      NoLines(ts, st);
      assert body[|body|..] == [];
    } else {
      var e := Expression(ts, st);
      ExpressionReads(ts, st);
      if e.Done? {
        var st1 := SkipNewlines(ts, e.state);
        var r := ProcedureBody(ts, st1, token, name, body + [e.value]);
        LinesRead(ts, st1, token, name, body + [e.value]);
        if r.Done? {
          CountedNewlines(ts, e.state);
          ReadsLine(ts, st, e.value, e.state, st1, r.value[|body| + 1..], State(r.state.pos - 1, r.state.arities));
          assert r.value[|body|..] == [e.value] + r.value[|body| + 1..];
        }
      }
    }
  }

  lemma NoLines(ts: seq<Token>, st: State)
    requires st.pos < |ts|
    ensures ReadsLines(ts, st, [], st)
  {
    CountedNothing(ts, st.pos);
  }

  lemma {:induction false} ProcedureReads(ts: seq<Token>, st: State)
    requires Within(ts, st) && ts[st.pos].Shape() == WordTok("to")
    ensures var r := ProcedureDef(ts, Next(st), ts[st.pos]); r.Done? ==> Reads(ts, st, r.value, r.state)
    decreases |ts| - st.pos, 0
  {
    hide Params, ListBody, ProcedureBody, SkipNewlines, Reads, ReadsBody, ReadsLines;
    var st1 := Next(st);
    if ts[st1.pos].kind == TokenType.Word {
      var name := ts[st1.pos].value;
      var (params, st2) := Params(ts, Next(st1), []);
      var st3 := st2.(arities := st2.arities[name := |params|]);
      var st4 := SkipNewlines(ts, st3);
      HeaderReads(ts, st);
      if ts[st4.pos].kind == TokenType.OpenBracket {
        var r := ListBody(ts, st4);
        BodyReads(ts, st4);
        if r.Done? {
          InlineReads(ts, st, name, params, st4, r.value, r.state);
        }
      } else {
        var r := ProcedureBody(ts, st4, ts[st.pos], name, []);
        LinesRead(ts, st4, ts[st.pos], name, []);
        if r.Done? {
          assert r.value[0..] == r.value;
          DefinitionReads(ts, st, name, params, st4, r.value, State(r.state.pos - 1, r.state.arities));
        }
      }
    }
  }

  /** The header and the line ends behind it. */
  lemma HeaderReads(ts: seq<Token>, st: State)
    requires Within(ts, st) && ts[st.pos].Shape() == WordTok("to") && Within(ts, Next(st)) && ts[st.pos + 1].kind == TokenType.Word
    ensures Within(ts, Next(Next(st)))
    ensures var (params, st2) := Params(ts, Next(Next(st)), []);
      var st4 := SkipNewlines(ts, st2.(arities := st2.arities[ts[st.pos + 1].value := |params|]));
      var head := HeaderToks(ts[st.pos + 1].value, params);
      Counted(ts, st.pos, st4.pos, head) && Exact(ts, st.pos, st4.pos, head)
  {
    hide Counted, Exact, Params, SkipNewlines, Stands, ParamToks;
    var st1 := Next(Next(st));
    var (params, st2) := Params(ts, st1, []);
    var st3 := st2.(arities := st2.arities[ts[st.pos + 1].value := |params|]);
    var to, name := WordTok("to"), ts[st.pos + 1].Shape();
    StandsForItself(to);
    StandsForItself(name);
    CountedOne(ts, st.pos, to);
    CountedOne(ts, st.pos + 1, name);
    CountedParams(ts, st1, []);
    assert params[0..] == params;
    CountedNewlines(ts, st3);
    CountedJoin(ts, st.pos, st.pos + 1, st.pos + 2, [to], [name]);
    assert [to] + [name] == [to, name];
    CountedJoin(ts, st.pos, st.pos + 2, st2.pos, [to, name], ParamToks(params));
    var head := [to, name] + ParamToks(params);
    CountedJoin(ts, st.pos, st2.pos, SkipNewlines(ts, st3).pos, head, []);
    assert head + [] == head;
  }

  lemma DefinitionReads(ts: seq<Token>, st: State, name: string, params: seq<string>, st1: State, body: seq<AstNode>, st2: State)
    requires st.pos < |ts| && Counted(ts, st.pos, st1.pos, HeaderToks(name, params)) && Exact(ts, st.pos, st1.pos, HeaderToks(name, params))
    requires st1.pos < |ts| && ts[st1.pos].kind != TokenType.OpenBracket && st1.arities == st.arities[name := |params|]
    requires ReadsLines(ts, st1, body, st2) && st2.pos < |ts| && ts[st2.pos].kind == TokenType.Word
    ensures Reads(ts, st, ProcDef(name, params, body), Next(st2))
  {
    hide SeqToks, LineToks, BuiltLines, AfterSeq, ParamToks, Counted, Exact, Stands;
    var end := [WordTok("end")];
    KeywordStands(ts[st2.pos].Shape(), "end");
    CountedOne(ts, st2.pos, WordTok("end"));
    CountedJoin(ts, st.pos, st1.pos, st2.pos, HeaderToks(name, params), SeqToks(body));
    CountedJoin(ts, st.pos, st2.pos, st2.pos + 1, HeaderToks(name, params) + SeqToks(body), end);
    CountedDefinition(ts, st.pos, st2.pos + 1, name, params, body);
    DefinitionBegins(name, params, body);
  }

  lemma CountedDefinition(ts: seq<Token>, i: nat, j: nat, name: string, params: seq<string>, body: seq<AstNode>)
    requires Counted(ts, i, j, HeaderToks(name, params) + SeqToks(body) + [WordTok("end")])
    ensures var n := ProcDef(name, params, body);
      Counted(ts, i, j, Toks(n)) && (Exact(ts, i, j, Toks(n)) <==> Exact(ts, i, j, HeaderToks(name, params) + SeqToks(body) + [WordTok("end")]))
  {
    hide SeqToks, HeaderToks, Toks, AllTreeFit;
    var a, b, c := HeaderToks(name, params), SeqToks(body), [WordTok("end")];
    forall mark: Mark ensures Count(mark, Toks(ProcDef(name, params, body))) == Count(mark, a + b + c) {
      CountProcedure(mark, name, params, body);
      CountAppend(mark, a, b);
      CountAppend(mark, a + b, c);
    }
    AllTreeFitJoin(a, b);
    AllTreeFitJoin(a + b, c);
    if AllLexed(ts) {
      FitDefinition(name, params, body);
    }
  }

  lemma DefinitionBegins(name: string, params: seq<string>, body: seq<AstNode>)
    ensures var n := ProcDef(name, params, body); !StartsWith(n, OPEN) && !StartsWith(n, WordTok("end"))
  {
  }

  /** A body in brackets was counted one bracket too many. */
  lemma InlineReads(ts: seq<Token>, st: State, name: string, params: seq<string>, st1: State, body: seq<AstNode>, st2: State)
    requires st.pos < |ts| && Counted(ts, st.pos, st1.pos, HeaderToks(name, params)) && Exact(ts, st.pos, st1.pos, HeaderToks(name, params))
    requires st1.arities == st.arities[name := |params|] && ReadsBody(ts, st1, body, st2)
    ensures Reads(ts, st, ProcDef(name, params, body), st2)
  {
    hide SeqToks, LineToks, BuiltLines, AfterSeq, HeaderToks, AllTreeFit, Toks, BlockToks, Built, Begins;
    forall mark: Mark ensures Count(mark, Toks(ProcDef(name, params, body))) + Opening.Of(OPEN) * (if mark.Opening? then 1 else 0)
                           == Count(mark, HeaderToks(name, params)) + Count(mark, BlockToks(body)) {
      CountProcedure(mark, name, params, body);
      CountBlock(mark, body);
      EndCounts(mark);
    }
    InlineFits(name, params, body);
  }

  lemma InlineFits(name: string, params: seq<string>, body: seq<AstNode>)
    ensures AllTreeFit(HeaderToks(name, params)) && AllTreeFit(BlockToks(body)) ==> AllTreeFit(Toks(ProcDef(name, params, body)))
    ensures After(ProcDef(name, params, body), map[]) == AfterSeq(body, map[name := |params|])
  {
    hide SeqToks, HeaderToks, AllTreeFit, Toks, AfterSeq;
    AllTreeFitJoin([OPEN] + SeqToks(body), [CLOSE]);
    AllTreeFitJoin([OPEN], SeqToks(body));
    if AllTreeFit(HeaderToks(name, params)) && AllTreeFit(BlockToks(body)) {
      FitDefinition(name, params, body);
    }
  }

  lemma EndCounts(mark: Mark)
    ensures Count(mark, [WordTok("end")]) == 0
  {
    CountOne(mark, WordTok("end"));
    NoBars("end");
  }

  lemma CountBlock(mark: Mark, body: seq<AstNode>)
    ensures Count(mark, BlockToks(body)) == Count(mark, SeqToks(body)) + if mark.Opening? then 1 else 0
  {
    hide SeqToks;
    CountAppend(mark, [OPEN] + SeqToks(body), [CLOSE]);
    CountAppend(mark, [OPEN], SeqToks(body));
    CountOne(mark, OPEN);
    CountOne(mark, CLOSE);
  }

  // ---- Whole inputs ----

  lemma {:induction false} ProgramReads(ts: seq<Token>, st: State, nodes: seq<AstNode>)
    requires Within(ts, st)
    ensures var r := Program(ts, st, nodes); r.Done? ==> nodes <= r.value && ReadsSeq(ts, st, r.value[|nodes|..], r.state)
    decreases |ts| - st.pos
  {
    hide Expression, Reads, ReadsSeq;
    if AtEnd(ts, st) {
      ReadsNone(ts, st);
      assert nodes[|nodes|..] == [];
    } else {
      var e := Expression(ts, st);
      ExpressionReads(ts, st);
      if e.Done? {
        var st1 := SkipNewlines(ts, e.state);
        var r := Program(ts, st1, nodes + [e.value]);
        ProgramReads(ts, st1, nodes + [e.value]);
        if r.Done? {
          CountedNewlines(ts, e.state);
          ReadsCons(ts, st, e.value, e.state, st1, r.value[|nodes| + 1..], r.state);
          assert r.value[|nodes|..] == [e.value] + r.value[|nodes| + 1..];
        }
      }
    }
  }

  /**
   * A whole input: as many negative numbers in the trees as were read, no more brackets than were read, and
   * if just as many, then every call has as many inputs as its arity where it stands.
   */
  lemma ParseReads(ts: seq<Token>, ar: Arities)
    requires Ended(ts)
    ensures var r := Parse(ts, ar); r.Done? ==> ReadsSeq(ts, State(0, ar), r.value, r.state)
  {
    hide Program, ReadsSeq;
    var st := SkipNewlines(ts, State(0, ar));
    var r := Program(ts, st, []);
    ProgramReads(ts, st, []);
    if r.Done? {
      assert r.value[0..] == r.value;
      CountedNewlines(ts, State(0, ar));
      AfterNewlines(ts, State(0, ar), st, r.value, r.state);
    }
  }

  lemma AfterNewlines(ts: seq<Token>, st: State, st1: State, nodes: seq<AstNode>, st2: State)
    requires Counted(ts, st.pos, st1.pos, []) && Exact(ts, st.pos, st1.pos, []) && st1.arities == st.arities && ReadsSeq(ts, st1, nodes, st2)
    ensures ReadsSeq(ts, st, nodes, st2)
  {
    hide Counted, Exact, SeqToks, BuiltSeq, AfterSeq;
    CountedJoin(ts, st.pos, st1.pos, st2.pos, [], SeqToks(nodes));
    assert [] + SeqToks(nodes) == SeqToks(nodes);
  }
}
