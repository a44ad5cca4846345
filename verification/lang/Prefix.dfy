/** What the parser decides is decided by the tokens it has looked at, and these end where it stops. */
module Prefix {
  import opened Tokens
  import opened Ast
  import opened Grammar

  /** Two inputs that cannot be told apart up to position `k`. */
  ghost predicate Agree(ts: seq<Token>, us: seq<Token>, k: nat) {
    Ended(ts) && Ended(us) && k < |ts| && k < |us| && forall i :: 0 <= i <= k ==> ts[i] == us[i]
  }

  lemma {:induction false} SameNewlines(ts: seq<Token>, us: seq<Token>, k: nat, st: State)
    requires Within(ts, st) && Agree(ts, us, k) && SkipNewlines(ts, st).pos <= k
    ensures SkipNewlines(us, st) == SkipNewlines(ts, st)
    decreases |ts| - st.pos
  {
    if ts[st.pos].kind == TokenType.Newline {
      SameNewlines(ts, us, k, Next(st));
    }
  }

  lemma {:induction false} SameParams(ts: seq<Token>, us: seq<Token>, k: nat, st: State, params: seq<string>)
    requires Within(ts, st) && Agree(ts, us, k) && Params(ts, st, params).1.pos <= k
    ensures Params(us, st, params) == Params(ts, st, params)
    decreases |ts| - st.pos
  {
    if ts[st.pos].kind == TokenType.Variable {
      SameParams(ts, us, k, Next(st), params + [ts[st.pos].value]);
    }
  }

  /** The outcome is known by position `k`: it has been reached there, or the token there is the malformed number that aborts. */
  ghost predicate Stops<T(!new)>(r: Parsed<T>, k: nat) {
    r.state.pos <= k || (r.Fail? && r.error.Panicked? && r.state.pos == k + 1)
  }

  lemma {:induction false} SameExpression(ts: seq<Token>, us: seq<Token>, k: nat, st: State)
    requires Within(ts, st) && Agree(ts, us, k) && Stops(Expression(ts, st), k)
    ensures Expression(us, st) == Expression(ts, st)
    decreases |ts| - st.pos, 3
  {
    hide Atom, InfixTail;
    var r := Atom(ts, st);
    SameAtom(ts, us, k, st);
    if r.Done? {
      SameInfixTail(ts, us, k, r.state, r.value);
    }
  }

  lemma {:induction false} SameInfixTail(ts: seq<Token>, us: seq<Token>, k: nat, st: State, left: AstNode)
    requires Within(ts, st) && Agree(ts, us, k) && Stops(InfixTail(ts, st, left), k)
    ensures InfixTail(us, st, left) == InfixTail(ts, st, left)
    decreases |ts| - st.pos, 0
  {
    hide Atom;
    if ts[st.pos].kind == TokenType.Infix {
      var r := Atom(ts, Next(st));
      SameAtom(ts, us, k, Next(st));
      if r.Done? {
        SameInfixTail(ts, us, k, r.state, AstNode.Infix(ts[st.pos].value, left, r.value));
      }
    }
  }

  lemma {:induction false} SameAtom(ts: seq<Token>, us: seq<Token>, k: nat, st: State)
    requires Within(ts, st) && Agree(ts, us, k) && Stops(Atom(ts, st), k)
    ensures Atom(us, st) == Atom(ts, st)
    decreases |ts| - st.pos, 2
  {
    hide ListLiteral, ParenExpr, WordExpr;
    if ts[st.pos].kind == TokenType.OpenBracket {
      SameList(ts, us, k, st);
    } else if ts[st.pos].kind == TokenType.OpenParen {
      SameParen(ts, us, k, st);
    } else if ts[st.pos].kind == TokenType.Word {
      SameWord(ts, us, k, st);
    }
  }

  lemma {:induction false} SameWord(ts: seq<Token>, us: seq<Token>, k: nat, st: State)
    requires Within(ts, st) && ts[st.pos].kind == TokenType.Word && Agree(ts, us, k) && Stops(WordExpr(ts, st), k)
    ensures WordExpr(us, st) == WordExpr(ts, st)
    decreases |ts| - st.pos, 1
  {
    hide ProcedureDef, SpecialForm, CallArgs, IsFormKeyword;
    var token := ts[st.pos];
    if token.value == "to" {
      SameProcedure(ts, us, k, Next(st), token);
    } else if IsFormKeyword(token.value) {
      SameForm(ts, us, k, Next(st), token.value);
    } else {
      var arity := if ToLower(token.value) in st.arities then st.arities[ToLower(token.value)] else 0;
      SameCallArgs(ts, us, k, Next(st), token, arity, []);
    }
  }

  /** Two bracketed blocks in a row. */
  lemma {:induction false} SameBlocks(ts: seq<Token>, us: seq<Token>, k: nat, st: State)
    requires Within(ts, st) && Agree(ts, us, k)
    ensures Stops(ListBody(ts, st), k) ==> ListBody(us, st) == ListBody(ts, st)
    ensures var r := ListBody(ts, st);
      r.Done? && r.state.pos <= k && Stops(ListBody(ts, r.state), k) ==> ListBody(us, r.state) == ListBody(ts, r.state)
    decreases |ts| - st.pos, 1
  {
    hide ListBody;
    var r := ListBody(ts, st);
    if Stops(r, k) {
      SameBody(ts, us, k, st);
      if r.Done? && Stops(ListBody(ts, r.state), k) {
        SameBody(ts, us, k, r.state);
      }
    }
  }

  lemma {:induction false} SameForm(ts: seq<Token>, us: seq<Token>, k: nat, st: State, name: string)
    requires Within(ts, st) && IsFormKeyword(name) && Agree(ts, us, k) && Stops(SpecialForm(ts, st, name), k)
    ensures SpecialForm(us, st, name) == SpecialForm(ts, st, name)
    decreases |ts| - st.pos, 5
  {
    hide Expression, ListBody, ForEachForm;
    if name == "repeat" || name == "if" || name == "ifelse" || name == "output" || name == "op" {
      var r := Expression(ts, st);
      SameExpression(ts, us, k, st);
      if r.Done? {
        SameBlocks(ts, us, k, r.state);
      }
    } else if name == "foreach" {
      SameForEach(ts, us, k, st);
    } else {
      SameBlocks(ts, us, k, st);
    }
  }

  lemma {:induction false} SameForEach(ts: seq<Token>, us: seq<Token>, k: nat, st: State)
    requires Within(ts, st) && Agree(ts, us, k) && Stops(ForEachForm(ts, st), k)
    ensures ForEachForm(us, st) == ForEachForm(ts, st)
    decreases |ts| - st.pos, 4
  {
    hide Expression, ListBody;
    var name := Expression(ts, st);
    SameExpression(ts, us, k, st);
    if name.Done? && name.value.Word? {
      var list := Expression(ts, name.state);
      SameExpression(ts, us, k, name.state);
      if list.Done? {
        SameBody(ts, us, k, list.state);
      }
    }
  }

  lemma {:induction false} SameCallArgs(ts: seq<Token>, us: seq<Token>, k: nat, st: State, token: Token, arity: nat, args: seq<AstNode>)
    requires Within(ts, st) && |args| <= arity && Agree(ts, us, k) && Stops(CallArgs(ts, st, token, arity, args), k)
    ensures CallArgs(us, st, token, arity, args) == CallArgs(ts, st, token, arity, args)
    decreases |ts| - st.pos, 4
  {
    hide Expression;
    if |args| < arity && !AtEnd(ts, st) && ts[st.pos].kind != TokenType.Newline {
      var r := Expression(ts, st);
      SameExpression(ts, us, k, st);
      if r.Done? {
        SameCallArgs(ts, us, k, r.state, token, arity, args + [r.value]);
      }
    }
  }

  lemma {:induction false} SameProcedure(ts: seq<Token>, us: seq<Token>, k: nat, st: State, token: Token)
    requires Within(ts, st) && Agree(ts, us, k) && Stops(ProcedureDef(ts, st, token), k)
    ensures ProcedureDef(us, st, token) == ProcedureDef(ts, st, token)
    decreases |ts| - st.pos, 0
  {
    hide Params, SkipNewlines, ListBody, ProcedureBody;
    if ts[st.pos].kind == TokenType.Word {
      var name := ts[st.pos].value;
      var (params, st1) := Params(ts, Next(st), []);
      var st1' := st1.(arities := st1.arities[name := |params|]);
      var st2 := SkipNewlines(ts, st1');
      SameParams(ts, us, k, Next(st), []);
      SameNewlines(ts, us, k, st1');
      if ts[st2.pos].kind == TokenType.OpenBracket {
        SameBody(ts, us, k, st2);
      } else {
        SameProcedureBody(ts, us, k, st2, token, name, []);
      }
    }
  }

  lemma {:induction false} SameProcedureBody(ts: seq<Token>, us: seq<Token>, k: nat, st: State, token: Token, name: string, body: seq<AstNode>)
    requires Within(ts, st) && Agree(ts, us, k) && Stops(ProcedureBody(ts, st, token, name, body), k)
    ensures ProcedureBody(us, st, token, name, body) == ProcedureBody(ts, st, token, name, body)
    decreases |ts| - st.pos, 4
  {
    hide Expression, SkipNewlines;
    if !AtEnd(ts, st) && !(ts[st.pos].kind == TokenType.Word && ts[st.pos].value == "end") {
      var r := Expression(ts, st);
      SameExpression(ts, us, k, st);
      if r.Done? {
        SameNewlines(ts, us, k, r.state);
        SameProcedureBody(ts, us, k, SkipNewlines(ts, r.state), token, name, body + [r.value]);
      }
    }
  }

  lemma {:induction false} SameList(ts: seq<Token>, us: seq<Token>, k: nat, st: State)
    requires Within(ts, st) && ts[st.pos].kind == TokenType.OpenBracket && Agree(ts, us, k) && Stops(ListLiteral(ts, st), k)
    ensures ListLiteral(us, st) == ListLiteral(ts, st)
    decreases |ts| - st.pos, 0
  {
    hide ListElements, SkipNewlines;
    SameNewlines(ts, us, k, Next(st));
    SameElements(ts, us, k, SkipNewlines(ts, Next(st)), []);
  }

  lemma {:induction false} SameElements(ts: seq<Token>, us: seq<Token>, k: nat, st: State, elements: seq<AstNode>)
    requires Within(ts, st) && Agree(ts, us, k) && Stops(ListElements(ts, st, elements), k)
    ensures ListElements(us, st, elements) == ListElements(ts, st, elements)
    decreases |ts| - st.pos, 4
  {
    hide ListLiteral, SkipNewlines;
    if ts[st.pos].kind != TokenType.CloseBracket && !AtEnd(ts, st) {
      var r := RawAtom(ts, st);
      if ts[st.pos].kind == TokenType.OpenBracket {
        SameList(ts, us, k, st);
      }
      if r.Done? {
        SameNewlines(ts, us, k, r.state);
        SameElements(ts, us, k, SkipNewlines(ts, r.state), elements + [r.value]);
      }
    }
  }

  lemma {:induction false} SameBody(ts: seq<Token>, us: seq<Token>, k: nat, st: State)
    requires Within(ts, st) && Agree(ts, us, k) && Stops(ListBody(ts, st), k)
    ensures ListBody(us, st) == ListBody(ts, st)
    decreases |ts| - st.pos, 0
  {
    hide BodyNodes, SkipNewlines;
    if ts[st.pos].kind == TokenType.OpenBracket {
      SameNewlines(ts, us, k, Next(st));
      SameBodyNodes(ts, us, k, SkipNewlines(ts, Next(st)), []);
    }
  }

  lemma {:induction false} SameBodyNodes(ts: seq<Token>, us: seq<Token>, k: nat, st: State, body: seq<AstNode>)
    requires Within(ts, st) && Agree(ts, us, k) && Stops(BodyNodes(ts, st, body), k)
    ensures BodyNodes(us, st, body) == BodyNodes(ts, st, body)
    decreases |ts| - st.pos, 4
  {
    hide Expression, SkipNewlines;
    if ts[st.pos].kind != TokenType.CloseBracket && !AtEnd(ts, st) {
      var r := Expression(ts, st);
      SameExpression(ts, us, k, st);
      if r.Done? {
        SameNewlines(ts, us, k, r.state);
        SameBodyNodes(ts, us, k, SkipNewlines(ts, r.state), body + [r.value]);
      }
    }
  }

  lemma {:induction false} SameParen(ts: seq<Token>, us: seq<Token>, k: nat, st: State)
    requires Within(ts, st) && ts[st.pos].kind == TokenType.OpenParen && Agree(ts, us, k) && Stops(ParenExpr(ts, st), k)
    ensures ParenExpr(us, st) == ParenExpr(ts, st)
    decreases |ts| - st.pos, 0
  {
    hide Expression, ParenArgs;
    var st1 := Next(st);
    if ts[st1.pos].kind == TokenType.Word {
      SameParenArgs(ts, us, k, Next(st1), ts[st1.pos], []);
    } else {
      SameExpression(ts, us, k, st1);
    }
  }

  lemma {:induction false} SameParenArgs(ts: seq<Token>, us: seq<Token>, k: nat, st: State, name: Token, args: seq<AstNode>)
    requires Within(ts, st) && Agree(ts, us, k) && Stops(ParenArgs(ts, st, name, args), k)
    ensures ParenArgs(us, st, name, args) == ParenArgs(ts, st, name, args)
    decreases |ts| - st.pos, 4
  {
    hide Expression;
    if ts[st.pos].kind != TokenType.CloseParen && !AtEnd(ts, st) {
      var r := Expression(ts, st);
      SameExpression(ts, us, k, st);
      if r.Done? {
        SameParenArgs(ts, us, k, r.state, name, args + [r.value]);
      }
    }
  }

  lemma {:induction false} SameProgram(ts: seq<Token>, us: seq<Token>, k: nat, st: State, nodes: seq<AstNode>)
    requires Within(ts, st) && Agree(ts, us, k) && Stops(Program(ts, st, nodes), k)
    ensures Program(us, st, nodes) == Program(ts, st, nodes)
    decreases |ts| - st.pos
  {
    hide Expression, SkipNewlines;
    if !AtEnd(ts, st) {
      var r := Expression(ts, st);
      SameExpression(ts, us, k, st);
      if r.Done? {
        SameNewlines(ts, us, k, r.state);
        SameProgram(ts, us, k, SkipNewlines(ts, r.state), nodes + [r.value]);
      }
    }
  }

  /** The outcome of a whole parse depends on the tokens up to where it stops, and on no other. */
  lemma SameParse(ts: seq<Token>, us: seq<Token>, k: nat, arities: Arities)
    requires Agree(ts, us, k) && Stops(Parse(ts, arities), k)
    ensures Parse(us, arities) == Parse(ts, arities)
  {
    hide SkipNewlines, Program;
    SameNewlines(ts, us, k, State(0, arities));
    SameProgram(ts, us, k, SkipNewlines(ts, State(0, arities)), []);
  }

  /** An error that no later token can change: it was found in front of the end, or in the last token, a malformed number. */
  ghost predicate IsFinal<T(!new)>(r: Parsed<T>, length: nat) {
    r.Fail? && (r.state.pos < length || (r.error.Panicked? && r.state.pos == length))
  }

  /** A final error stays, whatever the input is continued with, on the same line or on another. */
  lemma ErrorsArePermanent(read: seq<Token>, end: seq<Token>, more: seq<Token>, arities: Arities)
    requires Ended(read + end) && Ended(read + more)
    requires IsFinal(Parse(read + end, arities), |read|)
    ensures Parse(read + more, arities) == Parse(read + end, arities)
  {
    hide Parse;
    SameParse(read + end, read + more, |read| - 1, arities);
  }

  /** Nothing is asked for before every token has been read. */
  lemma IncompleteMeansAllRead(read: seq<Token>, end: Token, arities: Arities)
    requires end.kind == TokenType.Eof && forall i :: 0 <= i < |read| ==> read[i].kind != TokenType.Eof
    requires var r := Parse(read + [end], arities); r.Done? || r.error.Incomplete?
    ensures Parse(read + [end], arities).state.pos == |read|
  {
    hide Parse;
    var ts := read + [end];
    var k := Parse(ts, arities).state.pos;
    assert forall i :: 0 <= i < |read| ==> ts[i] == read[i];
    assert ts[k].kind == TokenType.Eof;
  }

  /** An error at the end of the input may go away: `x +` is refused, `x + 1` is not. */
  lemma ErrorsAtTheEndMayGoAway(x: Token, op: Token, y: Token, end: Token, arities: Arities)
    requires x.kind == TokenType.Variable && op.kind == TokenType.Infix && y.kind == TokenType.Variable && end.kind == TokenType.Eof
    ensures var r := Parse([x, op, end], arities);
      r.Fail? && r.error == SyntaxAt(UnexpectedToken(end.value), end) && r.state.pos == 2
    ensures Parse([x, op, y, end], arities).Done?
  {
    var ts, us := [x, op, end], [x, op, y, end];
    assert ts[0] == x && ts[1] == op && ts[2] == end;
    assert us[0] == x && us[1] == op && us[2] == y && us[3] == end;
    var st := State(0, arities);
    var vx := AstNode.Variable(x.value);
    assert Atom(ts, st) == Done(vx, State(1, arities));
    assert InfixTail(ts, State(1, arities), vx) == Fail(SyntaxAt(UnexpectedToken(end.value), end), State(2, arities));
    assert Expression(ts, st) == Fail(SyntaxAt(UnexpectedToken(end.value), end), State(2, arities));
    assert Atom(us, st) == Done(vx, State(1, arities));
    assert InfixTail(us, State(1, arities), vx) == Done(AstNode.Infix(op.value, vx, AstNode.Variable(y.value)), State(3, arities));
    assert Expression(us, st) == Done(AstNode.Infix(op.value, vx, AstNode.Variable(y.value)), State(3, arities));
    assert SkipNewlines(us, State(3, arities)) == State(3, arities);
    var node := AstNode.Infix(op.value, vx, AstNode.Variable(y.value));
    assert Program(us, State(3, arities), [node]) == Done([node], State(3, arities));
    assert Program(us, st, []) == Program(us, State(3, arities), [] + [node]);
    assert [] + [node] == [node];
    assert SkipNewlines(us, st) == st;
  }

  // ---- Malformed numbers ----

  /** When every number token is well formed, the parser never aborts. */
  lemma WellFormedNumbersNeverAbort(ts: seq<Token>, arities: Arities)
    requires Ended(ts)
    requires forall i :: 0 <= i < |ts| && ts[i].kind == TokenType.Number ==> IsNumber(ts[i].value)
    ensures var r := Parse(ts, arities); r.Fail? ==> !r.error.Panicked?
  {
    hide Parse;
  }
}
