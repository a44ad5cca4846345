/** What the parser computes, as functions of the tokens, the position and the known arities. */
module Grammar {
  import opened Tokens
  import opened Ast

  /** The parser's changing state. */
  datatype State = State(pos: nat, arities: Arities)

  /** The outcome of a parse function, with the state it leaves behind, also when it fails. */
  datatype Parsed<+T> =
    | Done(value: T, state: State)
    | Fail(error: LogoError, state: State)
  {
    predicate IsFailure() {
      Fail?
    }
    function PropagateFailure<U>(): Parsed<U>
      requires Fail?
    {
      Fail(error, state)
    }
    function Extract(): (T, State)
      requires Done?
    {
      (value, state)
    }
  }

  /** A token list ends in an end-of-file token. */
  predicate Ended(ts: seq<Token>) {
    ts != [] && ts[|ts| - 1].kind == TokenType.Eof
  }

  predicate Within(ts: seq<Token>, st: State) {
    Ended(ts) && st.pos < |ts|
  }

  /**
   * What every parse function keeps: the position stays inside the token list and never goes back,
   * a success uses up at least `least` tokens, only the end of the input is reported as incomplete,
   * and only a malformed number aborts.
   */
  ghost predicate Sound<T>(ts: seq<Token>, st: State, r: Parsed<T>, least: nat) {
    && st.pos <= r.state.pos < |ts|
    && (r.Done? ==> st.pos + least <= r.state.pos)
    && (r.Fail? && r.error.Incomplete? ==> ts[r.state.pos].kind == TokenType.Eof)
    && (r.Fail? && r.error.Panicked? ==> st.pos < r.state.pos && Malformed(ts, r.state.pos - 1))
  }

  /** A number token that is no number. */
  predicate Malformed(ts: seq<Token>, i: int) {
    0 <= i < |ts| && ts[i].kind == TokenType.Number && !IsNumber(ts[i].value)
  }

  function Outcome<T>(r: Parsed<T>): Result<T> {
    match r
    case Done(value, _) => Ok(value)
    case Fail(error, _) => Err(error)
  }

  predicate AtEnd(ts: seq<Token>, st: State)
    requires Within(ts, st)
  {
    ts[st.pos].kind == TokenType.Eof
  }

  function Next(st: State): State {
    st.(pos := st.pos + 1)
  }

  function SyntaxAt(message: Message, token: Token): LogoError {
    Syntax(message, token.line, token.col)
  }

  function IncompleteAt(message: Message, token: Token): LogoError {
    Incomplete(message, token.line, token.col)
  }

  function SkipNewlines(ts: seq<Token>, st: State): (r: State)
    requires Within(ts, st)
    ensures Within(ts, r) && st.pos <= r.pos && r.arities == st.arities
    decreases |ts| - st.pos
  {
    if ts[st.pos].kind == TokenType.Newline then SkipNewlines(ts, Next(st)) else st
  }

  function Expect(ts: seq<Token>, st: State, kind: TokenType): (r: Parsed<Token>)
    requires Within(ts, st) && kind != TokenType.Eof
    ensures Sound(ts, st, r, 1)
  {
    var token := ts[st.pos];
    if token.kind == kind then Done(token, Next(st))
    else Fail(SyntaxAt(Expected(kind, token.value), token), st)
  }

  function Expression(ts: seq<Token>, st: State): (r: Parsed<AstNode>)
    requires Within(ts, st)
    ensures Sound(ts, st, r, 1)
    decreases |ts| - st.pos, 3
  {
    var (left, st1) :- Atom(ts, st);
    InfixTail(ts, st1, left)
  }

  /** Infix operators all bind alike and group to the left. */
  function InfixTail(ts: seq<Token>, st: State, left: AstNode): (r: Parsed<AstNode>)
    requires Within(ts, st)
    ensures Sound(ts, st, r, 0)
    decreases |ts| - st.pos, 0
  {
    if ts[st.pos].kind != TokenType.Infix then Done(left, st)
    else
      var (right, st1) :- Atom(ts, Next(st));
      InfixTail(ts, st1, AstNode.Infix(ts[st.pos].value, left, right))
  }

  function NumberAt(ts: seq<Token>, st: State): (r: Parsed<AstNode>)
    requires Within(ts, st) && ts[st.pos].kind == TokenType.Number
    ensures Sound(ts, st, r, 1)
  {
    if IsNumber(ts[st.pos].value) then Done(AstNode.Number(ts[st.pos].value), Next(st))
    else Fail(Panicked(ts[st.pos].value), Next(st))
  }

  function Atom(ts: seq<Token>, st: State): (r: Parsed<AstNode>)
    requires Within(ts, st)
    ensures Sound(ts, st, r, 1)
    decreases |ts| - st.pos, 2
  {
    var token := ts[st.pos];
    match token.kind
    case Number => NumberAt(ts, st)
    case QuotedWord => Done(AstNode.Word(token.value), Next(st))
    case Variable => Done(AstNode.Variable(token.value), Next(st))
    case OpenBracket => ListLiteral(ts, st)
    case OpenParen => ParenExpr(ts, st)
    case Word => WordExpr(ts, st)
    case _ => Fail(SyntaxAt(UnexpectedToken(token.value), token), st)
  }

  function WordExpr(ts: seq<Token>, st: State): (r: Parsed<AstNode>)
    requires Within(ts, st) && ts[st.pos].kind == TokenType.Word
    ensures Sound(ts, st, r, 1)
    decreases |ts| - st.pos, 1
  {
    var token := ts[st.pos];
    var name := token.value;
    var st1 := Next(st);
    if name == "to" then ProcedureDef(ts, st1, token)
    else if IsFormKeyword(name) then SpecialForm(ts, st1, name)
    else
      var (args, st2) :- CallArgs(ts, st1, token, ArityOf(st.arities, name), []);
      Done(Call(name, args), st2)
  }

  function SpecialForm(ts: seq<Token>, st: State, name: string): (r: Parsed<AstNode>)
    requires Within(ts, st) && IsFormKeyword(name)
    ensures Sound(ts, st, r, 0)
    decreases |ts| - st.pos, 5
  {
    if name == "repeat" then
      var (count, st1) :- Expression(ts, st);
      var (body, st2) :- ListBody(ts, st1);
      Done(Repeat(count, body), st2)
    else if name == "foreach" then
      ForEachForm(ts, st)
    else if name == "if" then
      var (condition, st1) :- Expression(ts, st);
      var (body, st2) :- ListBody(ts, st1);
      Done(If(condition, body), st2)
    else if name == "ifelse" then
      var (condition, st1) :- Expression(ts, st);
      var (thenBody, st2) :- ListBody(ts, st1);
      var (elseBody, st3) :- ListBody(ts, st2);
      Done(IfElse(condition, thenBody, elseBody), st3)
    else if name == "output" || name == "op" then
      var (value, st1) :- Expression(ts, st);
      Done(Output(value), st1)
    else if name == "stop" then Done(Stop, st)
    else BlockForm(ts, st, name)
  }

  /** The forms that consist of blocks only. */
  function BlockForm(ts: seq<Token>, st: State, name: string): (r: Parsed<AstNode>)
    requires Within(ts, st)
    ensures Sound(ts, st, r, 0)
    decreases |ts| - st.pos, 4
  {
    if name == "forever" then
      var (body, st1) :- ListBody(ts, st);
      Done(Forever(body), st1)
    else if name == "launch" then
      var (body, st1) :- ListBody(ts, st);
      Done(Launch(body), st1)
    else if name == "while" then
      var (test, st1) :- ListBody(ts, st);
      var (body, st2) :- ListBody(ts, st1);
      Done(While(test, body), st2)
    else if name == "until" then
      var (test, st1) :- ListBody(ts, st);
      var (body, st2) :- ListBody(ts, st1);
      Done(Until(test, body), st2)
    else if name == "waituntil" then
      var (test, st1) :- ListBody(ts, st);
      Done(WaitUntil(test), st1)
    else if name == "carefully" then
      var (body, st1) :- ListBody(ts, st);
      var (handler, st2) :- ListBody(ts, st1);
      Done(Carefully(body, handler), st2)
    else Done(AstNode.Word(name), st)
  }

  function ForEachForm(ts: seq<Token>, st: State): (r: Parsed<AstNode>)
    requires Within(ts, st)
    ensures Sound(ts, st, r, 1)
    decreases |ts| - st.pos, 4
  {
    var (name, st1) :- Expression(ts, st);
    if !name.Word? then Fail(Runtime(ForeachNeedsName), st1)
    else
      var (list, st2) :- Expression(ts, st1);
      var (body, st3) :- ListBody(ts, st2);
      Done(ForEach(name.text, list, body), st3)
  }

  /** The inputs of a call: as many expressions as the arity says, none of them after a line end. */
  function CallArgs(ts: seq<Token>, st: State, token: Token, arity: nat, args: seq<AstNode>): (r: Parsed<seq<AstNode>>)
    requires Within(ts, st) && |args| <= arity
    ensures Sound(ts, st, r, 0)
    ensures r.Done? ==> |r.value| == arity
    decreases |ts| - st.pos, 4
  {
    if |args| == arity then Done(args, st)
    else if AtEnd(ts, st) then Fail(IncompleteAt(NeedsInputs(token.value, arity, |args|), token), st)
    else if ts[st.pos].kind == TokenType.Newline then Fail(SyntaxAt(NeedsInputs(token.value, arity, |args|), token), st)
    else
      var (arg, st1) :- Expression(ts, st);
      CallArgs(ts, st1, token, arity, args + [arg])
  }

  function ProcedureDef(ts: seq<Token>, st: State, token: Token): (r: Parsed<AstNode>)
    requires Within(ts, st)
    ensures Sound(ts, st, r, 1)
    decreases |ts| - st.pos, 0
  {
    if ts[st.pos].kind != TokenType.Word then Fail(SyntaxAt(ExpectedProcedureName, token), st)
    else
      var name := ts[st.pos].value;
      var (params, st1) := Params(ts, Next(st), []);
      var st2 := SkipNewlines(ts, st1.(arities := st1.arities[name := |params|]));
      if ts[st2.pos].kind == TokenType.OpenBracket then
        var (body, st3) :- ListBody(ts, st2);
        Done(ProcDef(name, params, body), st3)
      else
        var (body, st3) :- ProcedureBody(ts, st2, token, name, []);
        Done(ProcDef(name, params, body), st3)
  }

  function Params(ts: seq<Token>, st: State, params: seq<string>): (r: (seq<string>, State))
    requires Within(ts, st)
    ensures Within(ts, r.1) && st.pos <= r.1.pos && r.1.arities == st.arities
    decreases |ts| - st.pos
  {
    if ts[st.pos].kind == TokenType.Variable then Params(ts, Next(st), params + [ts[st.pos].value])
    else (params, st)
  }

  /** The statements up to `end`. */
  function ProcedureBody(ts: seq<Token>, st: State, token: Token, name: string, body: seq<AstNode>): (r: Parsed<seq<AstNode>>)
    requires Within(ts, st)
    ensures Sound(ts, st, r, 1)
    decreases |ts| - st.pos, 4
  {
    if AtEnd(ts, st) then Fail(IncompleteAt(MissingEnd(name), token), st)
    else if ts[st.pos].kind == TokenType.Word && ts[st.pos].value == "end" then Done(body, Next(st))
    else
      var (node, st1) :- Expression(ts, st);
      ProcedureBody(ts, SkipNewlines(ts, st1), token, name, body + [node])
  }

  /** `[...]` as data: bare words become word literals. */
  function ListLiteral(ts: seq<Token>, st: State): (r: Parsed<AstNode>)
    requires Within(ts, st)
    ensures Sound(ts, st, r, 1)
    decreases |ts| - st.pos, 0
  {
    var (_, st1) :- Expect(ts, st, TokenType.OpenBracket);
    var (elements, st2) :- ListElements(ts, SkipNewlines(ts, st1), []);
    Done(List(elements), st2)
  }

  function ListElements(ts: seq<Token>, st: State, elements: seq<AstNode>): (r: Parsed<seq<AstNode>>)
    requires Within(ts, st)
    ensures Sound(ts, st, r, 1)
    decreases |ts| - st.pos, 4
  {
    if ts[st.pos].kind == TokenType.CloseBracket then Done(elements, Next(st))
    else if AtEnd(ts, st) then Fail(IncompleteAt(MissingBracket, ts[st.pos]), st)
    else
      var (node, st1) :- RawAtom(ts, st);
      ListElements(ts, SkipNewlines(ts, st1), elements + [node])
  }

  function RawAtom(ts: seq<Token>, st: State): (r: Parsed<AstNode>)
    requires Within(ts, st)
    ensures Sound(ts, st, r, 1)
    decreases |ts| - st.pos, 2
  {
    var token := ts[st.pos];
    match token.kind
    case Number => NumberAt(ts, st)
    case QuotedWord => Done(AstNode.Word(token.value), Next(st))
    case Variable => Done(AstNode.Variable(token.value), Next(st))
    case Word => Done(AstNode.Word(token.value), Next(st))
    case OpenBracket => ListLiteral(ts, st)
    case _ => Fail(SyntaxAt(UnexpectedInList(token.value), token), st)
  }

  /** `[...]` as code. */
  function ListBody(ts: seq<Token>, st: State): (r: Parsed<seq<AstNode>>)
    requires Within(ts, st)
    ensures Sound(ts, st, r, 1)
    decreases |ts| - st.pos, 0
  {
    var (_, st1) :- Expect(ts, st, TokenType.OpenBracket);
    BodyNodes(ts, SkipNewlines(ts, st1), [])
  }

  function BodyNodes(ts: seq<Token>, st: State, body: seq<AstNode>): (r: Parsed<seq<AstNode>>)
    requires Within(ts, st)
    ensures Sound(ts, st, r, 1)
    decreases |ts| - st.pos, 4
  {
    if ts[st.pos].kind == TokenType.CloseBracket then Done(body, Next(st))
    else if AtEnd(ts, st) then Fail(IncompleteAt(MissingBracket, ts[st.pos]), st)
    else
      var (node, st1) :- Expression(ts, st);
      BodyNodes(ts, SkipNewlines(ts, st1), body + [node])
  }

  /** `(name args...)` takes any number of inputs; around anything else the parentheses leave no trace. */
  function ParenExpr(ts: seq<Token>, st: State): (r: Parsed<AstNode>)
    requires Within(ts, st)
    ensures Sound(ts, st, r, 1)
    decreases |ts| - st.pos, 0
  {
    var (_, st1) :- Expect(ts, st, TokenType.OpenParen);
    if ts[st1.pos].kind == TokenType.Word then
      var (args, st2) :- ParenArgs(ts, Next(st1), ts[st1.pos], []);
      Done(Paren(ts[st1.pos].value, args), st2)
    else
      var (node, st2) :- Expression(ts, st1);
      var (_, st3) :- Expect(ts, st2, TokenType.CloseParen);
      Done(node, st3)
  }

  function ParenArgs(ts: seq<Token>, st: State, name: Token, args: seq<AstNode>): (r: Parsed<seq<AstNode>>)
    requires Within(ts, st)
    ensures Sound(ts, st, r, 1)
    decreases |ts| - st.pos, 4
  {
    if ts[st.pos].kind == TokenType.CloseParen then Done(args, Next(st))
    else if AtEnd(ts, st) then Fail(IncompleteAt(MissingParen, name), st)
    else
      var (arg, st1) :- Expression(ts, st);
      ParenArgs(ts, st1, name, args + [arg])
  }

  /** The statements of a whole input. */
  function Program(ts: seq<Token>, st: State, nodes: seq<AstNode>): (r: Parsed<seq<AstNode>>)
    requires Within(ts, st)
    ensures Sound(ts, st, r, 0)
    ensures r.Done? ==> ts[r.state.pos].kind == TokenType.Eof
    decreases |ts| - st.pos
  {
    if AtEnd(ts, st) then Done(nodes, st)
    else
      var (node, st1) :- Expression(ts, st);
      Program(ts, SkipNewlines(ts, st1), nodes + [node])
  }

  function Parse(ts: seq<Token>, arities: Arities): (r: Parsed<seq<AstNode>>)
    requires Ended(ts)
    ensures r.state.pos < |ts|
    ensures r.Done? ==> ts[r.state.pos].kind == TokenType.Eof
    ensures r.Fail? && r.error.Incomplete? ==> ts[r.state.pos].kind == TokenType.Eof
    ensures r.Fail? && r.error.Panicked? ==> Malformed(ts, r.state.pos - 1)
  {
    Program(ts, SkipNewlines(ts, State(0, arities)), [])
  }
}
