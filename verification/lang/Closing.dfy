/** What surrounds the place where the input stops, and the tokens that complete it. */
module Closing {
  import opened Tokens
  import opened Ast
  import opened Grammar
  import opened Printable
  import opened PrintParse
  import opened OpenInput

  /**
   * One construct around the end of the input: a list or block in need of its bracket, a definition in need of `end`, a
   * parenthesis, a call that wants more inputs, a form that wants more blocks, or `foreach` still reading its word.
   */
  datatype Frame =
    | Bracket
    | Body
    | Parens
    | Inputs(count: nat)
    | Blocks(count: nat)
    | Name

  // ---- The constructs around the end, innermost first ----

  function PendExpression(ts: seq<Token>, st: State): seq<Frame>
    requires Within(ts, st)
    decreases |ts| - st.pos, 3
  {
    var r := Atom(ts, st);
    if r.Fail? then PendAtom(ts, st) else PendTail(ts, r.state, r.value)
  }

  function PendTail(ts: seq<Token>, st: State, left: AstNode): seq<Frame>
    requires Within(ts, st)
    decreases |ts| - st.pos, 0
  {
    if ts[st.pos].kind != TokenType.Infix then []
    else
      var r := Atom(ts, Next(st));
      if r.Fail? then PendAtom(ts, Next(st)) else PendTail(ts, r.state, AstNode.Infix(ts[st.pos].value, left, r.value))
  }

  function PendAtom(ts: seq<Token>, st: State): seq<Frame>
    requires Within(ts, st)
    decreases |ts| - st.pos, 2
  {
    match ts[st.pos].kind
    case OpenBracket => PendElements(ts, SkipNewlines(ts, Next(st)), [])
    case OpenParen => PendParen(ts, st)
    case Word => PendWord(ts, st)
    case _ => []
  }

  function PendWord(ts: seq<Token>, st: State): seq<Frame>
    requires Within(ts, st) && ts[st.pos].kind == TokenType.Word
    decreases |ts| - st.pos, 1
  {
    var token := ts[st.pos];
    if token.value == "to" then PendDefinition(ts, Next(st))
    else if IsFormKeyword(token.value) then PendForm(ts, Next(st), token.value)
    else PendArgs(ts, Next(st), token, ArityOf(st.arities, token.value), [])
  }

  function PendForm(ts: seq<Token>, st: State, name: string): seq<Frame>
    requires Within(ts, st)
    decreases |ts| - st.pos, 5
  {
    if name == "repeat" || name == "if" || name == "ifelse" then
      var blocks := if name == "ifelse" then 2 else 1;
      var r := Expression(ts, st);
      if r.Fail? then PendExpression(ts, st) + [Blocks(blocks)] else PendBlocks(ts, r.state, blocks)
    else if name == "foreach" then PendForEach(ts, st)
    else if name == "output" || name == "op" then PendExpression(ts, st)
    else PendBlocks(ts, st, BlockCount(name))
  }

  function BlockCount(name: string): nat {
    if name == "forever" || name == "launch" || name == "waituntil" then 1
    else if name == "while" || name == "until" || name == "carefully" then 2
    else 0
  }

  /** Up to two blocks in a row. */
  function PendBlocks(ts: seq<Token>, st: State, blocks: nat): seq<Frame>
    requires Within(ts, st)
    decreases |ts| - st.pos, 4
  {
    if blocks == 0 then []
    else
      var r := ListBody(ts, st);
      if r.Fail? then PendBody(ts, st) + [Blocks(blocks - 1)] else PendBlocks(ts, r.state, blocks - 1)
  }

  function PendForEach(ts: seq<Token>, st: State): seq<Frame>
    requires Within(ts, st)
    decreases |ts| - st.pos, 4
  {
    var name := Expression(ts, st);
    if name.Fail? then PendExpression(ts, st) + [Name]
    else
      var list := Expression(ts, name.state);
      if list.Fail? then PendExpression(ts, name.state) + [Blocks(1)] else PendBody(ts, list.state)
  }

  function PendArgs(ts: seq<Token>, st: State, token: Token, arity: nat, args: seq<AstNode>): seq<Frame>
    requires Within(ts, st) && |args| <= arity
    decreases |ts| - st.pos, 4
  {
    if |args| == arity then []
    else
      var r := Expression(ts, st);
      if r.Fail? then PendExpression(ts, st) + [Inputs(arity - |args| - 1)]
      else PendArgs(ts, r.state, token, arity, args + [r.value])
  }

  function PendDefinition(ts: seq<Token>, st: State): seq<Frame>
    requires Within(ts, st)
    decreases |ts| - st.pos, 0
  {
    if ts[st.pos].kind != TokenType.Word then []
    else
      var (params, st1) := Params(ts, Next(st), []);
      var st2 := SkipNewlines(ts, st1.(arities := st1.arities[ts[st.pos].value := |params|]));
      if ts[st2.pos].kind == TokenType.OpenBracket then PendBody(ts, st2) else PendStatements(ts, st2)
  }

  function PendStatements(ts: seq<Token>, st: State): seq<Frame>
    requires Within(ts, st)
    decreases |ts| - st.pos, 4
  {
    if AtEnd(ts, st) then [Body]
    else
      var r := Expression(ts, st);
      if r.Fail? then PendExpression(ts, st) + [Body] else PendStatements(ts, SkipNewlines(ts, r.state))
  }

  function PendElements(ts: seq<Token>, st: State, elements: seq<AstNode>): seq<Frame>
    requires Within(ts, st)
    decreases |ts| - st.pos, 4
  {
    if AtEnd(ts, st) then [Bracket]
    else
      var r := RawAtom(ts, st);
      if r.Done? then PendElements(ts, SkipNewlines(ts, r.state), elements + [r.value])
      else if ts[st.pos].kind == TokenType.OpenBracket then PendElements(ts, SkipNewlines(ts, Next(st)), []) + [Bracket]
      else []
  }

  function PendBody(ts: seq<Token>, st: State): seq<Frame>
    requires Within(ts, st)
    decreases |ts| - st.pos, 0
  {
    if ts[st.pos].kind != TokenType.OpenBracket then [] else PendNodes(ts, SkipNewlines(ts, Next(st)))
  }

  function PendNodes(ts: seq<Token>, st: State): seq<Frame>
    requires Within(ts, st)
    decreases |ts| - st.pos, 4
  {
    if AtEnd(ts, st) then [Bracket]
    else
      var r := Expression(ts, st);
      if r.Fail? then PendExpression(ts, st) + [Bracket] else PendNodes(ts, SkipNewlines(ts, r.state))
  }

  function PendParen(ts: seq<Token>, st: State): seq<Frame>
    requires Within(ts, st) && ts[st.pos].kind == TokenType.OpenParen
    decreases |ts| - st.pos, 0
  {
    var st1 := Next(st);
    if ts[st1.pos].kind == TokenType.Word then PendParenArgs(ts, Next(st1)) else PendExpression(ts, st1) + [Parens]
  }

  function PendParenArgs(ts: seq<Token>, st: State): seq<Frame>
    requires Within(ts, st)
    decreases |ts| - st.pos, 4
  {
    var r := Expression(ts, st);
    if r.Fail? then PendExpression(ts, st) + [Parens] else PendParenArgs(ts, r.state)
  }

  function PendProgram(ts: seq<Token>, st: State): seq<Frame>
    requires Within(ts, st)
    decreases |ts| - st.pos
  {
    var r := Expression(ts, st);
    if r.Fail? then PendExpression(ts, st) else PendProgram(ts, SkipNewlines(ts, r.state))
  }

  /** The constructs around the end of a whole input. */
  function Pending(ts: seq<Token>, arities: Arities): seq<Frame>
    requires Ended(ts)
  {
    PendProgram(ts, SkipNewlines(ts, State(0, arities)))
  }

  // ---- What completes them ----

  const END := Tok(TokenType.Word, "end")
  const CLOSEPAREN := Tok(TokenType.CloseParen, ")")
  const ZERO := Tok(TokenType.Number, "0")

  function CloseToks(f: Frame): seq<Tok>
    decreases if f.Inputs? || f.Blocks? then f.count else 0
  {
    match f
    case Bracket => [CLOSE]
    case Body => [END]
    case Parens => [CLOSEPAREN]
    case Inputs(n) => if n == 0 then [] else [ZERO] + CloseToks(Inputs(n - 1))
    case Blocks(n) => if n == 0 then [] else [OPEN, CLOSE] + CloseToks(Blocks(n - 1))
    case Name => []
  }

  function ClosingToks(pend: seq<Frame>): seq<Tok> {
    if pend == [] then [] else ClosingToks(pend[..|pend| - 1]) + CloseToks(pend[|pend| - 1])
  }

  predicate IsCloser(t: Tok) {
    t == OPEN || t == CLOSE || t == END || t == CLOSEPAREN || t == ZERO
  }

  lemma {:induction false} ClosersOfFrame(f: Frame)
    ensures forall t <- CloseToks(f) :: IsCloser(t)
    decreases if f.Inputs? || f.Blocks? then f.count else 0
  {
    if f.Inputs? && f.count > 0 {
      ClosersOfFrame(Inputs(f.count - 1));
    } else if f.Blocks? && f.count > 0 {
      ClosersOfFrame(Blocks(f.count - 1));
    }
  }

  lemma {:induction false} Closers(pend: seq<Frame>)
    ensures forall t <- ClosingToks(pend) :: IsCloser(t)
  {
    hide CloseToks;
    if pend != [] {
      Closers(pend[..|pend| - 1]);
      ClosersOfFrame(pend[|pend| - 1]);
    }
  }

  /** The tokens that complete `pend` stand behind the line end at `k`, and no operator follows them. */
  ghost predicate ClosedAt(us: seq<Token>, k: nat, pend: seq<Frame>) {
    var n := |ClosingToks(pend)|;
    At(us, k + 1, ClosingToks(pend)) && us[k + 1 + n].kind != TokenType.Infix
  }

  /** What becomes of a construct: while `foreach` reads its word nothing helps, else the closing tokens complete it. */
  ghost predicate Settled<T(!new)>(us: seq<Token>, k: nat, pend: seq<Frame>, q: Parsed<T>) {
    && (Name in pend ==> q.Fail?)
    && (Name !in pend && ClosedAt(us, k, pend) ==> q.Done? && q.state.pos == k + 1 + |ClosingToks(pend)|)
  }

  lemma ClosingSnoc(pend: seq<Frame>, f: Frame)
    ensures ClosingToks(pend + [f]) == ClosingToks(pend) + CloseToks(f)
    ensures Name in pend + [f] <==> Name in pend || f == Name
  {
    hide CloseToks;
    assert (pend + [f])[..|pend|] == pend;
  }

  /** The inner constructs are completed first. */
  lemma InnerFirst(us: seq<Token>, k: nat, pend: seq<Frame>, f: Frame)
    requires ClosedAt(us, k, pend + [f])
    ensures var p := k + 1 + |ClosingToks(pend)|;
      ClosedAt(us, k, pend) && At(us, p, CloseToks(f)) && us[p + |CloseToks(f)|].kind != TokenType.Infix
    ensures |ClosingToks(pend + [f])| == |ClosingToks(pend)| + |CloseToks(f)|
  {
    hide CloseToks, ClosingToks;
    ClosingSnoc(pend, f);
    var p := k + 1 + |ClosingToks(pend)|;
    AtSplit(us, k + 1, ClosingToks(pend), CloseToks(f));
    if CloseToks(f) != [] {
      ClosersOfFrame(f);
      assert us[p + 0].Shape() == CloseToks(f)[0] && IsCloser(CloseToks(f)[0]);
    }
  }

  lemma {:induction false} PastTheEnd(ts: seq<Token>, us: seq<Token>, k: nat, st: State)
    requires Within(ts, st) && Continued(ts, us, k) && SkipNewlines(ts, st).pos == k
    requires k + 1 < |us| && us[k + 1].kind != TokenType.Newline
    ensures SkipNewlines(us, st) == State(k + 1, st.arities)
    decreases |ts| - st.pos
  {
    if ts[st.pos].kind == TokenType.Newline {
      PastTheEnd(ts, us, k, Next(st));
    } else {
      assert SkipNewlines(us, Next(st)) == Next(st);
    }
  }

  /** The innermost construct: what is behind the line end is its closing token. */
  lemma ClosedFirst(us: seq<Token>, k: nat, f: Frame, t: Tok)
    requires ClosedAt(us, k, [f]) && CloseToks(f) == [t]
    ensures k + 2 < |us| && us[k + 1].Shape() == t && |ClosingToks([f])| == 1
  {
    hide CloseToks;
    assert [f][..0] == [] && ClosingToks([]) == [];
    assert [] + [t] == [t];
    AtFirst(us, k + 1, t);
  }

  lemma OneToken()
    ensures CloseToks(Bracket) == [CLOSE] && CloseToks(Body) == [END] && CloseToks(Parens) == [CLOSEPAREN]
  {
  }

  // ---- Missing inputs and blocks ----

  lemma ZeroParses(us: seq<Token>, st: State)
    requires Within(us, st) && us[st.pos].Shape() == ZERO && st.pos + 1 < |us| && us[st.pos + 1].kind != TokenType.Infix
    ensures var r := Expression(us, st); r.Done? && r.state == Next(st)
  {
    assert IsNumber("0") by {
      assert IsDigit("0"[0]);
      assert CountDots("0"[1..]) == 0;
    }
  }

  lemma InputFirst(us: seq<Token>, pos: nat, n: nat)
    requires n > 0 && At(us, pos, CloseToks(Inputs(n))) && us[pos + |CloseToks(Inputs(n))|].kind != TokenType.Infix
    ensures pos + 1 < |us| && us[pos].Shape() == ZERO && us[pos + 1].kind != TokenType.Infix
    ensures At(us, pos + 1, CloseToks(Inputs(n - 1))) && |CloseToks(Inputs(n))| == 1 + |CloseToks(Inputs(n - 1))|
  {
    AtSplit(us, pos, [ZERO], CloseToks(Inputs(n - 1)));
    AtFirst(us, pos, ZERO);
    if n > 1 {
      assert us[pos + 1 + 0].Shape() == CloseToks(Inputs(n - 1))[0] == ZERO;
    }
  }

  lemma {:induction false} InputsComplete(us: seq<Token>, st: State, token: Token, arity: nat, args: seq<AstNode>, n: nat)
    requires Ended(us) && |args| + n == arity && At(us, st.pos, CloseToks(Inputs(n)))
    requires us[st.pos + |CloseToks(Inputs(n))|].kind != TokenType.Infix
    ensures var r := CallArgs(us, st, token, arity, args); r.Done? && r.state.pos == st.pos + |CloseToks(Inputs(n))|
    decreases n
  {
    hide Expression, At;
    if n == 0 {
      assert CloseToks(Inputs(0)) == [];
    } else {
      InputFirst(us, st.pos, n);
      hide CloseToks;
      ZeroParses(us, st);
      InputsComplete(us, Next(st), token, arity, args + [Expression(us, st).value], n - 1);
    }
  }

  lemma BlockCompletes(us: seq<Token>, st: State)
    requires Ended(us) && At(us, st.pos, [OPEN, CLOSE])
    ensures ListBody(us, st) == Done([], Next(Next(st)))
  {
    var block := [OPEN, CLOSE];
    assert us[st.pos + 0].Shape() == block[0] && us[st.pos + 1].Shape() == block[1];
    assert SkipNewlines(us, Next(st)) == Next(st);
    assert BodyNodes(us, Next(st), []) == Done([], Next(Next(st)));
  }

  lemma BlockFirst(us: seq<Token>, pos: nat, n: nat)
    requires n > 0 && At(us, pos, CloseToks(Blocks(n)))
    ensures At(us, pos, [OPEN, CLOSE]) && At(us, pos + 2, CloseToks(Blocks(n - 1)))
    ensures |CloseToks(Blocks(n))| == 2 + |CloseToks(Blocks(n - 1))|
  {
    hide At;
    AtSplit(us, pos, [OPEN, CLOSE], CloseToks(Blocks(n - 1)));
  }

  /** So many blocks in a row. */
  function BlocksFrom(ts: seq<Token>, st: State, n: nat): (r: Parsed<nat>)
    requires Within(ts, st)
    ensures r.state.pos < |ts|
    decreases n
  {
    if n == 0 then Done(0, st)
    else
      var (_, st1) :- ListBody(ts, st);
      BlocksFrom(ts, st1, n - 1)
  }

  lemma {:induction false} BlocksComplete(us: seq<Token>, st: State, n: nat)
    requires Ended(us) && At(us, st.pos, CloseToks(Blocks(n)))
    ensures var r := BlocksFrom(us, st, n); r.Done? && r.state.pos == st.pos + |CloseToks(Blocks(n))|
    decreases n
  {
    hide ListBody, At;
    if n == 0 {
      assert CloseToks(Blocks(0)) == [];
    } else {
      BlockFirst(us, st.pos, n);
      BlockCompletes(us, st);
      BlocksComplete(us, Next(Next(st)), n - 1);
    }
  }

  // ---- Each parse function, on input that stops inside it and on input that goes on ----

  /** `r` has stopped for want of a bracket or `end`. */
  ghost predicate Stopped<T(!new)>(r: Parsed<T>) {
    r.Fail? && IsOpen(r.error)
  }

  lemma {:induction false} SettlesExpression(ts: seq<Token>, us: seq<Token>, k: nat, st: State)
    requires Within(ts, st) && Continued(ts, us, k) && Stopped(Expression(ts, st))
    ensures Settled(us, k, PendExpression(ts, st), Expression(us, st))
    decreases |ts| - st.pos, 3
  {
    hide Atom, InfixTail, PendAtom, PendTail, ClosingToks;
    var r := Atom(ts, st);
    if r.Fail? {
      SettlesAtom(ts, us, k, st);
      var q := Atom(us, st);
      if q.Done? && us[q.state.pos].kind != TokenType.Infix {
        TailEnds(us, q.state, q.value);
      }
    } else {
      DecidesAtom(ts, us, k, st);
      SettlesTail(ts, us, k, r.state, r.value);
    }
  }

  lemma TailEnds(us: seq<Token>, st: State, left: AstNode)
    requires Within(us, st) && us[st.pos].kind != TokenType.Infix
    ensures InfixTail(us, st, left) == Done(left, st)
  {
  }

  lemma {:induction false} SettlesTail(ts: seq<Token>, us: seq<Token>, k: nat, st: State, left: AstNode)
    requires Within(ts, st) && Continued(ts, us, k) && Stopped(InfixTail(ts, st, left))
    ensures Settled(us, k, PendTail(ts, st, left), InfixTail(us, st, left))
    decreases |ts| - st.pos, 0
  {
    hide Atom, PendAtom, ClosingToks;
    var r := Atom(ts, Next(st));
    if r.Fail? {
      SettlesAtom(ts, us, k, Next(st));
    } else {
      DecidesAtom(ts, us, k, Next(st));
      SettlesTail(ts, us, k, r.state, AstNode.Infix(ts[st.pos].value, left, r.value));
    }
  }

  lemma {:induction false} SettlesAtom(ts: seq<Token>, us: seq<Token>, k: nat, st: State)
    requires Within(ts, st) && Continued(ts, us, k) && Stopped(Atom(ts, st))
    ensures Settled(us, k, PendAtom(ts, st), Atom(us, st))
    decreases |ts| - st.pos, 2
  {
    hide ListLiteral, ParenExpr, WordExpr, PendElements, PendParen, PendWord, ClosingToks, SkipNewlines;
    if ts[st.pos].kind == TokenType.OpenBracket {
      SettlesList(ts, us, k, st);
    } else if ts[st.pos].kind == TokenType.OpenParen {
      SettlesParen(ts, us, k, st);
    } else if ts[st.pos].kind == TokenType.Word {
      SettlesWord(ts, us, k, st);
    }
  }

  lemma {:induction false} SettlesWord(ts: seq<Token>, us: seq<Token>, k: nat, st: State)
    requires Within(ts, st) && ts[st.pos].kind == TokenType.Word && Continued(ts, us, k) && Stopped(WordExpr(ts, st))
    ensures us[st.pos] == ts[st.pos] && Settled(us, k, PendWord(ts, st), WordExpr(us, st))
    decreases |ts| - st.pos, 1
  {
    hide ProcedureDef, SpecialForm, CallArgs, IsFormKeyword, ArityOf, PendDefinition, PendForm, PendArgs, ClosingToks;
    var token := ts[st.pos];
    if token.value == "to" {
      SettlesDefinition(ts, us, k, Next(st), token);
    } else if IsFormKeyword(token.value) {
      SettlesForm(ts, us, k, Next(st), token.value);
    } else {
      SettlesArgs(ts, us, k, Next(st), token, ArityOf(st.arities, token.value), []);
    }
  }

  lemma {:induction false} SettlesArgs(ts: seq<Token>, us: seq<Token>, k: nat, st: State, token: Token, arity: nat, args: seq<AstNode>)
    requires Within(ts, st) && |args| <= arity && Continued(ts, us, k) && Stopped(CallArgs(ts, st, token, arity, args))
    ensures Settled(us, k, PendArgs(ts, st, token, arity, args), CallArgs(us, st, token, arity, args))
    decreases |ts| - st.pos, 4
  {
    hide Expression, PendExpression, ClosingToks, CloseToks;
    var r := Expression(ts, st);
    if r.Done? {
      DecidesExpression(ts, us, k, st);
      SettlesArgs(ts, us, k, r.state, token, arity, args + [r.value]);
    } else {
      SettlesExpression(ts, us, k, st);
      var pend, n := PendExpression(ts, st), arity - |args| - 1;
      ClosingSnoc(pend, Inputs(n));
      var q := Expression(us, st);
      if Name !in pend && ClosedAt(us, k, pend + [Inputs(n)]) {
        InnerFirst(us, k, pend, Inputs(n));
        InputsComplete(us, q.state, token, arity, args + [q.value], n);
      }
    }
  }

  // ---- Definitions ----

  lemma {:induction false} SettlesDefinition(ts: seq<Token>, us: seq<Token>, k: nat, st: State, token: Token)
    requires Within(ts, st) && Continued(ts, us, k) && Stopped(ProcedureDef(ts, st, token))
    ensures Settled(us, k, PendDefinition(ts, st), ProcedureDef(us, st, token))
    decreases |ts| - st.pos, 0
  {
    hide Params, SkipNewlines, ListBody, ProcedureBody, PendBody, PendStatements, ClosingToks;
    var name := ts[st.pos].value;
    var (params, st1) := Params(ts, Next(st), []);
    var st1' := st1.(arities := st1.arities[name := |params|]);
    var st2 := SkipNewlines(ts, st1');
    DecidesParams(ts, us, k, Next(st), []);
    DecidesNewlines(ts, us, k, st1');
    if st2.pos == k {
      assert PendStatements(ts, st2) == [Body] by { StatementsAtEnd(ts, st2); }
      if ClosedAt(us, k, [Body]) {
        ClosedFirst(us, k, Body, END);
        PastTheEnd(ts, us, k, st1');
        EndsHere(us, State(k + 1, st2.arities), token, name, []);
      }
    } else if ts[st2.pos].kind == TokenType.OpenBracket {
      SettlesBody(ts, us, k, st2);
    } else {
      SettlesStatements(ts, us, k, st2, token, name, []);
    }
  }

  lemma StatementsAtEnd(ts: seq<Token>, st: State)
    requires Within(ts, st) && AtEnd(ts, st)
    ensures PendStatements(ts, st) == [Body]
  {
  }

  lemma EndsHere(us: seq<Token>, st: State, token: Token, name: string, body: seq<AstNode>)
    requires Within(us, st) && us[st.pos].Shape() == END
    ensures ProcedureBody(us, st, token, name, body) == Done(body, Next(st))
  {
  }

  lemma {:induction false} SettlesStatements(ts: seq<Token>, us: seq<Token>, k: nat, st: State, token: Token, name: string, body: seq<AstNode>)
    requires Within(ts, st) && Continued(ts, us, k) && st.pos < k && Stopped(ProcedureBody(ts, st, token, name, body))
    ensures Settled(us, k, PendStatements(ts, st), ProcedureBody(us, st, token, name, body))
    decreases |ts| - st.pos, 4
  {
    hide Expression, SkipNewlines, PendExpression, ClosingToks, CloseToks;
    var r := Expression(ts, st);
    if r.Done? {
      DecidesExpression(ts, us, k, st);
      DecidesNewlines(ts, us, k, r.state);
      var st1 := SkipNewlines(ts, r.state);
      if st1.pos < k {
        SettlesStatements(ts, us, k, st1, token, name, body + [r.value]);
      } else if ClosedAt(us, k, [Body]) {
        OneToken();
        ClosedFirst(us, k, Body, END);
        PastTheEnd(ts, us, k, r.state);
        EndsHere(us, State(k + 1, st1.arities), token, name, body + [r.value]);
      }
    } else {
      SettlesExpression(ts, us, k, st);
      var pend := PendExpression(ts, st);
      ClosingSnoc(pend, Body);
      if Name !in pend && ClosedAt(us, k, pend + [Body]) {
        var q := Expression(us, st);
        InnerFirst(us, k, pend, Body);
        OneToken();
        AtFirst(us, q.state.pos, END);
        SkipsNothing(us, q.state);
        EndsHere(us, q.state, token, name, body + [q.value]);
      }
    }
  }

  // ---- Lists and blocks ----

  lemma {:induction false} SettlesList(ts: seq<Token>, us: seq<Token>, k: nat, st: State)
    requires Within(ts, st) && ts[st.pos].kind == TokenType.OpenBracket && Continued(ts, us, k) && Stopped(ListLiteral(ts, st))
    ensures Settled(us, k, PendElements(ts, SkipNewlines(ts, Next(st)), []), ListLiteral(us, st))
    decreases |ts| - st.pos, 0
  {
    hide ListElements, SkipNewlines, PendElements, ClosingToks;
    DecidesNewlines(ts, us, k, Next(st));
    var st1 := SkipNewlines(ts, Next(st));
    if st1.pos < k {
      SettlesElements(ts, us, k, st1, []);
    } else {
      assert PendElements(ts, st1, []) == [Bracket] by { ElementsAtEnd(ts, st1, []); }
      if ClosedAt(us, k, [Bracket]) {
        ClosedFirst(us, k, Bracket, CLOSE);
        PastTheEnd(ts, us, k, Next(st));
        ElementsEndHere(us, State(k + 1, st1.arities), []);
      }
    }
  }

  lemma ElementsAtEnd(ts: seq<Token>, st: State, elements: seq<AstNode>)
    requires Within(ts, st) && AtEnd(ts, st)
    ensures PendElements(ts, st, elements) == [Bracket]
  {
  }

  lemma ElementsEndHere(us: seq<Token>, st: State, elements: seq<AstNode>)
    requires Within(us, st) && us[st.pos].Shape() == CLOSE
    ensures ListElements(us, st, elements) == Done(elements, Next(st))
  {
  }

  lemma {:induction false} SettlesElements(ts: seq<Token>, us: seq<Token>, k: nat, st: State, elements: seq<AstNode>)
    requires Within(ts, st) && Continued(ts, us, k) && st.pos < k && Stopped(ListElements(ts, st, elements))
    ensures Settled(us, k, PendElements(ts, st, elements), ListElements(us, st, elements))
    decreases |ts| - st.pos, 4
  {
    hide ListLiteral, SkipNewlines, ClosingToks, CloseToks;
    var r := RawAtom(ts, st);
    DecidesRawAtom(ts, us, k, st);
    if r.Done? {
      DecidesNewlines(ts, us, k, r.state);
      var st1 := SkipNewlines(ts, r.state);
      if st1.pos < k {
        SettlesElements(ts, us, k, st1, elements + [r.value]);
      } else if ClosedAt(us, k, [Bracket]) {
        OneToken();
        ClosedFirst(us, k, Bracket, CLOSE);
        PastTheEnd(ts, us, k, r.state);
        ElementsEndHere(us, State(k + 1, st1.arities), elements + [r.value]);
      }
    } else {
      SettlesList(ts, us, k, st);
      var pend := PendElements(ts, SkipNewlines(ts, Next(st)), []);
      ClosingSnoc(pend, Bracket);
      if Name !in pend && ClosedAt(us, k, pend + [Bracket]) {
        var q := ListLiteral(us, st);
        InnerFirst(us, k, pend, Bracket);
        OneToken();
        AtFirst(us, q.state.pos, CLOSE);
        SkipsNothing(us, q.state);
        ElementsEndHere(us, q.state, elements + [q.value]);
      }
    }
  }

  lemma {:induction false} SettlesBody(ts: seq<Token>, us: seq<Token>, k: nat, st: State)
    requires Within(ts, st) && Continued(ts, us, k) && Stopped(ListBody(ts, st))
    ensures Settled(us, k, PendBody(ts, st), ListBody(us, st))
    decreases |ts| - st.pos, 0
  {
    hide BodyNodes, SkipNewlines, PendNodes, ClosingToks;
    DecidesNewlines(ts, us, k, Next(st));
    var st1 := SkipNewlines(ts, Next(st));
    if st1.pos < k {
      SettlesNodes(ts, us, k, st1, []);
    } else {
      assert PendNodes(ts, st1) == [Bracket] by { NodesAtEnd(ts, st1); }
      if ClosedAt(us, k, [Bracket]) {
        ClosedFirst(us, k, Bracket, CLOSE);
        PastTheEnd(ts, us, k, Next(st));
        NodesEndHere(us, State(k + 1, st1.arities), []);
      }
    }
  }

  lemma NodesAtEnd(ts: seq<Token>, st: State)
    requires Within(ts, st) && AtEnd(ts, st)
    ensures PendNodes(ts, st) == [Bracket]
  {
  }

  lemma NodesEndHere(us: seq<Token>, st: State, body: seq<AstNode>)
    requires Within(us, st) && us[st.pos].Shape() == CLOSE
    ensures BodyNodes(us, st, body) == Done(body, Next(st))
  {
  }

  lemma {:induction false} SettlesNodes(ts: seq<Token>, us: seq<Token>, k: nat, st: State, body: seq<AstNode>)
    requires Within(ts, st) && Continued(ts, us, k) && st.pos < k && Stopped(BodyNodes(ts, st, body))
    ensures Settled(us, k, PendNodes(ts, st), BodyNodes(us, st, body))
    decreases |ts| - st.pos, 4
  {
    hide Expression, SkipNewlines, PendExpression, ClosingToks, CloseToks;
    var r := Expression(ts, st);
    if r.Done? {
      DecidesExpression(ts, us, k, st);
      DecidesNewlines(ts, us, k, r.state);
      var st1 := SkipNewlines(ts, r.state);
      if st1.pos < k {
        SettlesNodes(ts, us, k, st1, body + [r.value]);
      } else if ClosedAt(us, k, [Bracket]) {
        OneToken();
        ClosedFirst(us, k, Bracket, CLOSE);
        PastTheEnd(ts, us, k, r.state);
        NodesEndHere(us, State(k + 1, st1.arities), body + [r.value]);
      }
    } else {
      SettlesExpression(ts, us, k, st);
      var pend := PendExpression(ts, st);
      ClosingSnoc(pend, Bracket);
      if Name !in pend && ClosedAt(us, k, pend + [Bracket]) {
        var q := Expression(us, st);
        InnerFirst(us, k, pend, Bracket);
        OneToken();
        AtFirst(us, q.state.pos, CLOSE);
        SkipsNothing(us, q.state);
        NodesEndHere(us, q.state, body + [q.value]);
      }
    }
  }

  // ---- Parentheses ----

  lemma {:induction false} SettlesParen(ts: seq<Token>, us: seq<Token>, k: nat, st: State)
    requires Within(ts, st) && ts[st.pos].kind == TokenType.OpenParen && Continued(ts, us, k) && Stopped(ParenExpr(ts, st))
    ensures Settled(us, k, PendParen(ts, st), ParenExpr(us, st))
    decreases |ts| - st.pos, 0
  {
    hide Expression, ParenArgs, PendExpression, PendParenArgs, ClosingToks, CloseToks;
    var st1 := Next(st);
    if ts[st1.pos].kind == TokenType.Word {
      SettlesParenArgs(ts, us, k, Next(st1), ts[st1.pos], []);
    } else {
      SettlesExpression(ts, us, k, st1);
      var pend := PendExpression(ts, st1);
      ClosingSnoc(pend, Parens);
      if Name !in pend && ClosedAt(us, k, pend + [Parens]) {
        InnerFirst(us, k, pend, Parens);
        OneToken();
        AtFirst(us, Expression(us, st1).state.pos, CLOSEPAREN);
      }
    }
  }

  lemma {:induction false} SettlesParenArgs(ts: seq<Token>, us: seq<Token>, k: nat, st: State, name: Token, args: seq<AstNode>)
    requires Within(ts, st) && Continued(ts, us, k) && Stopped(ParenArgs(ts, st, name, args))
    ensures Settled(us, k, PendParenArgs(ts, st), ParenArgs(us, st, name, args))
    decreases |ts| - st.pos, 4
  {
    hide Expression, PendExpression, ClosingToks, CloseToks;
    var r := Expression(ts, st);
    if r.Done? {
      DecidesExpression(ts, us, k, st);
      SettlesParenArgs(ts, us, k, r.state, name, args + [r.value]);
    } else {
      SettlesExpression(ts, us, k, st);
      var pend := PendExpression(ts, st);
      ClosingSnoc(pend, Parens);
      if Name !in pend && ClosedAt(us, k, pend + [Parens]) {
        InnerFirst(us, k, pend, Parens);
        OneToken();
        AtFirst(us, Expression(us, st).state.pos, CLOSEPAREN);
      }
    }
  }

  // ---- Special forms ----

  /** Both fail, in the same way and place, or both succeed and stop at the same place. */
  ghost predicate Alike<T(!new), U(!new)>(r: Parsed<T>, q: Parsed<U>) {
    r.Fail? == q.Fail? && r.state == q.state && (r.Fail? && q.Fail? ==> r.error == q.error)
  }

  lemma HeadedIs(ts: seq<Token>, st: State, name: string)
    requires Within(ts, st) && (name == "repeat" || name == "if" || name == "ifelse")
    ensures var e, r := Expression(ts, st), SpecialForm(ts, st, name);
      if e.Fail? then Alike(r, e) else Alike(r, BlocksFrom(ts, e.state, if name == "ifelse" then 2 else 1))
  {
    hide Expression, ListBody;
    var e := Expression(ts, st);
    if e.Done? {
      BlocksUnfold(ts, e.state);
    }
  }

  lemma BlocksAre(ts: seq<Token>, st: State, name: string)
    requires Within(ts, st) && BlockCount(name) > 0
    ensures Alike(BlockForm(ts, st, name), BlocksFrom(ts, st, BlockCount(name)))
    ensures IsFormKeyword(name) ==> SpecialForm(ts, st, name) == BlockForm(ts, st, name)
  {
    hide ListBody;
    BlocksUnfold(ts, st);
  }

  lemma BlocksUnfold(ts: seq<Token>, st: State)
    requires Within(ts, st)
    ensures Alike(BlocksFrom(ts, st, 1), ListBody(ts, st))
    ensures var a := ListBody(ts, st);
      Alike(BlocksFrom(ts, st, 2), if a.Fail? then a else ListBody(ts, a.state))
  {
    hide ListBody;
    var a := ListBody(ts, st);
    assert Alike(BlocksFrom(ts, st, 1), a);
    if a.Done? {
      assert BlocksFrom(ts, st, 2) == BlocksFrom(ts, a.state, 1);
    }
  }

  lemma {:induction false} SettlesBlocks(ts: seq<Token>, us: seq<Token>, k: nat, st: State, n: nat)
    requires Within(ts, st) && Continued(ts, us, k) && Stopped(BlocksFrom(ts, st, n))
    ensures Settled(us, k, PendBlocks(ts, st, n), BlocksFrom(us, st, n))
    decreases |ts| - st.pos, 4
  {
    hide ListBody, PendBody, ClosingToks, CloseToks;
    var r := ListBody(ts, st);
    if r.Done? {
      DecidesBody(ts, us, k, st);
      SettlesBlocks(ts, us, k, r.state, n - 1);
    } else {
      SettlesBody(ts, us, k, st);
      var pend := PendBody(ts, st);
      ClosingSnoc(pend, Blocks(n - 1));
      if Name !in pend && ClosedAt(us, k, pend + [Blocks(n - 1)]) {
        InnerFirst(us, k, pend, Blocks(n - 1));
        BlocksComplete(us, ListBody(us, st).state, n - 1);
      }
    }
  }

  lemma {:induction false} SettlesForm(ts: seq<Token>, us: seq<Token>, k: nat, st: State, name: string)
    requires Within(ts, st) && IsFormKeyword(name) && Continued(ts, us, k) && Stopped(SpecialForm(ts, st, name))
    ensures Settled(us, k, PendForm(ts, st, name), SpecialForm(us, st, name))
    decreases |ts| - st.pos, 5
  {
    hide Expression, PendExpression, ForEachForm, PendForEach, BlockForm, BlocksFrom, PendBlocks, ClosingToks;
    if name == "repeat" || name == "if" || name == "ifelse" {
      SettlesHeaded(ts, us, k, st, name);
    } else if name == "foreach" {
      SettlesForEach(ts, us, k, st);
    } else if name == "output" || name == "op" {
      SettlesExpression(ts, us, k, st);
    } else {
      HasBlocks(ts, st, name);
      BlocksAre(ts, st, name);
      BlocksAre(us, st, name);
      SettlesBlocks(ts, us, k, st, BlockCount(name));
    }
  }

  lemma HasBlocks(ts: seq<Token>, st: State, name: string)
    requires Within(ts, st) && IsFormKeyword(name) && SpecialForm(ts, st, name).Fail?
    requires name != "repeat" && name != "if" && name != "ifelse" && name != "foreach" && name != "output" && name != "op"
    ensures BlockCount(name) > 0
  {
  }

  lemma {:induction false} SettlesHeaded(ts: seq<Token>, us: seq<Token>, k: nat, st: State, name: string)
    requires Within(ts, st) && (name == "repeat" || name == "if" || name == "ifelse") && Continued(ts, us, k) && Stopped(SpecialForm(ts, st, name))
    ensures Settled(us, k, PendForm(ts, st, name), SpecialForm(us, st, name))
    decreases |ts| - st.pos, 4
  {
    hide Expression, PendExpression, BlocksFrom, PendBlocks, SpecialForm, ClosingToks, CloseToks;
    HeadedIs(ts, st, name);
    HeadedIs(us, st, name);
    var n := if name == "ifelse" then 2 else 1;
    var r := Expression(ts, st);
    if r.Done? {
      DecidesExpression(ts, us, k, st);
      SettlesBlocks(ts, us, k, r.state, n);
    } else {
      SettlesExpression(ts, us, k, st);
      var pend := PendExpression(ts, st);
      ClosingSnoc(pend, Blocks(n));
      if Name !in pend && ClosedAt(us, k, pend + [Blocks(n)]) {
        InnerFirst(us, k, pend, Blocks(n));
        BlocksComplete(us, Expression(us, st).state, n);
      }
    }
  }

  lemma {:induction false} SettlesForEach(ts: seq<Token>, us: seq<Token>, k: nat, st: State)
    requires Within(ts, st) && Continued(ts, us, k) && Stopped(ForEachForm(ts, st))
    ensures Settled(us, k, PendForEach(ts, st), ForEachForm(us, st))
    decreases |ts| - st.pos, 4
  {
    hide Expression, ListBody, PendExpression, PendBody, ClosingToks, CloseToks;
    var name := Expression(ts, st);
    if name.Fail? {
      ClosingSnoc(PendExpression(ts, st), Name);
      StaysNoWord(ts, us, k, st);
    } else {
      DecidesExpression(ts, us, k, st);
      var list := Expression(ts, name.state);
      if list.Done? {
        DecidesExpression(ts, us, k, name.state);
        SettlesBody(ts, us, k, list.state);
      } else {
        SettlesExpression(ts, us, k, name.state);
        var pend := PendExpression(ts, name.state);
        ClosingSnoc(pend, Blocks(1));
        if Name !in pend && ClosedAt(us, k, pend + [Blocks(1)]) {
          var q := Expression(us, name.state);
          InnerFirst(us, k, pend, Blocks(1));
          BlocksComplete(us, q.state, 1);
          BlocksUnfold(us, q.state);
        }
      }
    }
  }

  // ---- What is still open where a word is wanted never becomes a word ----

  lemma {:induction false} StaysNoWord(ts: seq<Token>, us: seq<Token>, k: nat, st: State)
    requires Within(ts, st) && Continued(ts, us, k) && Stopped(Expression(ts, st))
    ensures var q := Expression(us, st); q.Done? ==> !q.value.Word?
    decreases |ts| - st.pos, 3
  {
    hide Atom;
    var r, q := Atom(ts, st), Atom(us, st);
    if r.Fail? {
      AtomStaysNoWord(ts, us, k, st);
      if q.Done? {
        TailIsNoWord(us, q.state, q.value);
      }
    } else {
      DecidesAtom(ts, us, k, st);
      assert ts[r.state.pos].kind == TokenType.Infix;
      var right := Atom(us, Next(q.state));
      if right.Done? {
        TailIsNoWord(us, right.state, AstNode.Infix(us[q.state.pos].value, q.value, right.value));
      }
    }
  }

  lemma {:induction false} AtomStaysNoWord(ts: seq<Token>, us: seq<Token>, k: nat, st: State)
    requires Within(ts, st) && Continued(ts, us, k) && Stopped(Atom(ts, st))
    ensures var q := Atom(us, st); q.Done? ==> !q.value.Word?
    decreases |ts| - st.pos, 2
  {
    hide ListElements, ParenArgs, Expression, WordExpr, SkipNewlines, SpecialForm, IsFormKeyword;
    var token := ts[st.pos];
    if token.kind == TokenType.OpenParen {
      if ts[st.pos + 1].kind != TokenType.Word {
        StaysNoWord(ts, us, k, Next(st));
      }
    } else if token.kind == TokenType.Word {
      assert us[st.pos] == token;
      WordStaysNoWord(ts, us, st);
    } else {
      assert token.kind == TokenType.OpenBracket && us[st.pos] == token;
    }
  }

  lemma WordStaysNoWord(ts: seq<Token>, us: seq<Token>, st: State)
    requires Within(ts, st) && Within(us, st) && ts[st.pos].kind == TokenType.Word && us[st.pos] == ts[st.pos] && WordExpr(ts, st).Fail?
    ensures var q := WordExpr(us, st); q.Done? ==> !q.value.Word?
  {
    hide CallArgs, ProcedureDef, SpecialForm, IsFormKeyword, ArityOf;
    var name := ts[st.pos].value;
    if name == "to" {
      DefinitionIsNoWord(us, Next(st), us[st.pos]);
    } else if IsFormKeyword(name) {
      FormIsNoWord(ts, us, Next(st), name);
    }
  }

  lemma DefinitionIsNoWord(us: seq<Token>, st: State, token: Token)
    requires Within(us, st)
    ensures var q := ProcedureDef(us, st, token); q.Done? ==> !q.value.Word?
  {
    hide Params, SkipNewlines, ListBody, ProcedureBody;
  }

  lemma FormIsNoWord(ts: seq<Token>, us: seq<Token>, st: State, name: string)
    requires Within(ts, st) && Within(us, st) && IsFormKeyword(name) && SpecialForm(ts, st, name).Fail?
    ensures var q := SpecialForm(us, st, name); q.Done? ==> !q.value.Word?
  {
    hide Expression, ListBody;
  }

  // ---- Whole inputs ----

  lemma {:induction false} SettlesProgram(ts: seq<Token>, us: seq<Token>, k: nat, st: State, nodes: seq<AstNode>)
    requires Within(ts, st) && Continued(ts, us, k) && Stopped(Program(ts, st, nodes))
    ensures var pend, q := PendProgram(ts, st), Program(us, st, nodes);
      && (Name in pend ==> q.Fail?)
      && (Name !in pend && ClosedAt(us, k, pend) && us[k + 1 + |ClosingToks(pend)|].kind == TokenType.Eof ==> q.Done?)
    decreases |ts| - st.pos
  {
    hide Expression, SkipNewlines, PendExpression, ClosingToks;
    var r := Expression(ts, st);
    if r.Done? {
      DecidesExpression(ts, us, k, st);
      DecidesNewlines(ts, us, k, r.state);
      SettlesProgram(ts, us, k, SkipNewlines(ts, r.state), nodes + [r.value]);
    } else {
      SettlesExpression(ts, us, k, st);
      var q := Expression(us, st);
      if Name !in PendExpression(ts, st) && ClosedAt(us, k, PendExpression(ts, st)) && us[q.state.pos].kind == TokenType.Eof {
        SkipsNothing(us, q.state);
      }
    }
  }

  /**
   * Open input, continued behind a line end. Where `foreach` is still reading its word, every continuation fails; else
   * the closing tokens, innermost construct first, complete it.
   */
  lemma OpenInputSettles(ts: seq<Token>, us: seq<Token>, k: nat, arities: Arities)
    requires Continued(ts, us, k) && Stopped(Parse(ts, arities))
    ensures Name in Pending(ts, arities) ==> Parse(us, arities).Fail?
    ensures var pend := Pending(ts, arities);
      Name !in pend && ClosedAt(us, k, pend) && us[k + 1 + |ClosingToks(pend)|].kind == TokenType.Eof ==> Parse(us, arities).Done?
  {
    hide SkipNewlines, Program, PendProgram, ClosingToks;
    var st := State(0, arities);
    DecidesNewlines(ts, us, k, st);
    if SkipNewlines(ts, st).pos == k {
      assert Program(ts, SkipNewlines(ts, st), []).Done? by { NothingTyped(ts, SkipNewlines(ts, st)); }
    } else {
      SettlesProgram(ts, us, k, SkipNewlines(ts, st), []);
    }
  }
}
