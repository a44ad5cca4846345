/**
 * What the printer's output says as tokens, which trees it can be read back from, and which tree
 * comes back when printing has lost a pair of parentheses.
 */
module Printable {
  import opened Tokens
  import opened Tokenizer
  import opened Ast

  // ---- The tokens of a printed node ----

  function WordTok(w: string): Tok {
    Tok(TokenType.Word, w)
  }

  const OPEN := Tok(TokenType.OpenBracket, "[")
  const CLOSE := Tok(TokenType.CloseBracket, "]")
  const LINE := Tok(TokenType.Newline, "\n")

  function BlockToks(body: seq<AstNode>): seq<Tok>
    decreases body, 1
  {
    [OPEN] + SeqToks(body) + [CLOSE]
  }

  function Toks(n: AstNode): seq<Tok>
    decreases n, 0
  {
    match n
    case Number(lexeme) => [Tok(TokenType.Number, lexeme)]
    case Word(text) => [Tok(TokenType.QuotedWord, text)]
    case Variable(name) => [Tok(TokenType.Variable, name)]
    case List(elements) => BlockToks(elements)
    case Infix(operator, left, right) => Toks(left) + [Tok(TokenType.Infix, operator)] + Toks(right)
    case Paren(name, args) => [Tok(TokenType.OpenParen, "("), WordTok(name)] + SeqToks(args) + [Tok(TokenType.CloseParen, ")")]
    case Call(name, args) => [WordTok(name)] + SeqToks(args)
    case ProcDef(name, params, body) =>
      [WordTok("to"), WordTok(name)] + ParamToks(params) + [LINE] + LineToks(body) + [LINE, WordTok("end")]
    case Repeat(count, body) => [WordTok("repeat")] + (Toks(count) + BlockToks(body))
    case Forever(body) => [WordTok("forever")] + BlockToks(body)
    case Launch(body) => [WordTok("launch")] + BlockToks(body)
    case If(condition, body) => [WordTok("if")] + (Toks(condition) + BlockToks(body))
    case IfElse(condition, thenBody, elseBody) => [WordTok("ifelse")] + (Toks(condition) + (BlockToks(thenBody) + BlockToks(elseBody)))
    case WaitUntil(test) => [WordTok("waituntil")] + BlockToks(test)
    case Carefully(body, handler) => [WordTok("carefully")] + (BlockToks(body) + BlockToks(handler))
    case ForEach(variable, list, body) => [WordTok("foreach")] + ([Tok(TokenType.QuotedWord, variable)] + (Toks(list) + BlockToks(body)))
    case While(test, body) => [WordTok("while")] + (BlockToks(test) + BlockToks(body))
    case Until(test, body) => [WordTok("until")] + (BlockToks(test) + BlockToks(body))
    case Output(value) => [WordTok("output")] + Toks(value)
    case Stop => [WordTok("stop")]
  }

  function SeqToks(nodes: seq<AstNode>): seq<Tok>
    decreases nodes, 0
  {
    if nodes == [] then [] else Toks(nodes[0]) + SeqToks(nodes[1..])
  }

  function LineToks(nodes: seq<AstNode>): seq<Tok>
    decreases nodes, 0
  {
    if nodes == [] then []
    else if |nodes| == 1 then Toks(nodes[0])
    else Toks(nodes[0]) + [LINE] + LineToks(nodes[1..])
  }

  function ParamToks(params: seq<string>): seq<Tok> {
    if params == [] then [] else [Tok(TokenType.Variable, params[0])] + ParamToks(params[1..])
  }

  predicate StartsWith(n: AstNode, t: Tok) {
    Toks(n) != [] && Toks(n)[0] == t
  }

  /** The first token of a node is one that an expression can start with. */
  lemma {:induction false} Leads(n: AstNode)
    ensures Toks(n) != []
    ensures var k := Toks(n)[0].kind;
      (k.Number? || k.QuotedWord? || k.Variable? || k.OpenBracket? || k.OpenParen? || k.Word?) &&
      (k.OpenBracket? ==> Toks(n)[0] == OPEN)
    decreases n
  {
    if n.Infix? {
      Leads(n.left);
    }
  }

  // ---- The arities a parse leaves behind ----

  function After(n: AstNode, ar: Arities): Arities
    decreases n, 0
  {
    match n
    case Infix(_, left, right) => After(right, After(left, ar))
    case Paren(_, args) => AfterSeq(args, ar)
    case Call(_, args) => AfterSeq(args, ar)
    case ProcDef(name, params, body) => AfterSeq(body, ar[name := |params|])
    case Repeat(count, body) => AfterSeq(body, After(count, ar))
    case Forever(body) => AfterSeq(body, ar)
    case Launch(body) => AfterSeq(body, ar)
    case If(condition, body) => AfterSeq(body, After(condition, ar))
    case IfElse(condition, thenBody, elseBody) => AfterSeq(elseBody, AfterSeq(thenBody, After(condition, ar)))
    case WaitUntil(test) => AfterSeq(test, ar)
    case Carefully(body, handler) => AfterSeq(handler, AfterSeq(body, ar))
    case ForEach(_, list, body) => AfterSeq(body, After(list, ar))
    case While(test, body) => AfterSeq(body, AfterSeq(test, ar))
    case Until(test, body) => AfterSeq(body, AfterSeq(test, ar))
    case Output(value) => After(value, ar)
    case _ => ar
  }

  function AfterSeq(nodes: seq<AstNode>, ar: Arities): Arities
    decreases nodes, 0
  {
    if nodes == [] then ar else AfterSeq(nodes[1..], After(nodes[0], ar))
  }

  // ---- Trees whose words can be printed at all ----

  predicate CleanQuoted(t: string) {
    (t != "" ==> t[0] != '|') && forall i :: 0 <= i < |t| ==> !IsQuotedWordDelimiter(t[i])
  }

  predicate CleanVariable(v: string) {
    v != "" && ToLower(v) == v && forall i :: 0 <= i < |v| ==> !IsDelimiter(v[i])
  }

  predicate CleanName(w: string) {
    w != "" && ToLower(w) == w && !StartsNumber(w) && forall i :: 0 <= i < |w| ==> IsWordChar(w[i])
  }

  predicate IsNegative(x: string) {
    x != "" && x[0] == '-'
  }

  predicate CleanNumber(x: string) {
    IsNumber(x) && if IsNegative(x) then |x| > 1 && IsDigit(x[1]) else StartsNumber(x)
  }

  predicate IsOperator(op: string) {
    op == "+" || op == "-" || op == "*" || op == "/" || op == "=" || op == "<" || op == ">" ||
    op == ">=" || op == "<=" || op == "<>"
  }

  predicate IsRaw(n: AstNode) {
    n.Number? || n.Word? || n.Variable? || n.List?
  }

  /**
   * A tree as the parser may build it when the known arities are `ar`: names that lex as one token, calls with
   * as many inputs as their arity, raw elements in lists. `negative` says whether a negative
   * number may stand at its front.
   */
  predicate Clean(n: AstNode, ar: Arities, negative: bool)
    decreases n, 0
  {
    match n
    case Number(lexeme) => CleanNumber(lexeme) && (IsNegative(lexeme) ==> negative)
    case Word(text) => CleanQuoted(text)
    case Variable(name) => CleanVariable(name)
    case List(elements) => (forall e <- elements :: IsRaw(e)) && CleanSeq(elements, ar, true)
    case Infix(operator, left, right) => IsOperator(operator) && Clean(left, ar, negative) && Clean(right, After(left, ar), true)
    case Paren(name, args) => CleanName(name) && CleanSeq(args, ar, false)
    case Call(name, args) => CleanName(name) && !IsKeyword(name) && |args| == ArityOf(ar, name) && CleanSeq(args, ar, false)
    case ProcDef(name, params, body) =>
      CleanName(name) && (forall p <- params :: CleanVariable(p)) &&
      CleanLines(body, ar[name := |params|]) && (body != [] ==> !StartsWith(body[0], OPEN))
    case Repeat(count, body) => Clean(count, ar, false) && CleanSeq(body, After(count, ar), true)
    case Forever(body) => CleanSeq(body, ar, true)
    case Launch(body) => CleanSeq(body, ar, true)
    case If(condition, body) => Clean(condition, ar, false) && CleanSeq(body, After(condition, ar), true)
    case IfElse(condition, thenBody, elseBody) =>
      Clean(condition, ar, false) && CleanSeq(thenBody, After(condition, ar), true) &&
      CleanSeq(elseBody, AfterSeq(thenBody, After(condition, ar)), true)
    case WaitUntil(test) => CleanSeq(test, ar, true)
    case Carefully(body, handler) => CleanSeq(body, ar, true) && CleanSeq(handler, AfterSeq(body, ar), true)
    case ForEach(variable, list, body) =>
      CleanQuoted(variable) && Clean(list, ar, false) && CleanSeq(body, After(list, ar), true)
    case While(test, body) => CleanSeq(test, ar, true) && CleanSeq(body, AfterSeq(test, ar), true)
    case Until(test, body) => CleanSeq(test, ar, true) && CleanSeq(body, AfterSeq(test, ar), true)
    case Output(value) => Clean(value, ar, false)
    case Stop => true
  }

  /** Nodes on one line: only the first can start with a negative number. */
  predicate CleanSeq(nodes: seq<AstNode>, ar: Arities, negative: bool)
    decreases nodes, 0
  {
    nodes == [] || (Clean(nodes[0], ar, negative) && CleanSeq(nodes[1..], After(nodes[0], ar), false))
  }

  /** Statements of a procedure: none may start with the word that ends it. */
  predicate CleanLines(nodes: seq<AstNode>, ar: Arities)
    decreases nodes, 0
  {
    nodes == [] ||
    (Clean(nodes[0], ar, true) && !StartsWith(nodes[0], WordTok("end")) && CleanLines(nodes[1..], After(nodes[0], ar)))
  }

  /** Procedures as they stand in a file. */
  predicate CleanProcs(procs: seq<AstNode>, ar: Arities) {
    procs == [] || (procs[0].ProcDef? && Clean(procs[0], ar, true) && CleanProcs(procs[1..], After(procs[0], ar)))
  }

  // ---- Trees that need no parentheses ----

  /** An infix operator printed after such a node would be read as part of it. */
  predicate Open(n: AstNode) {
    match n
    case Call(_, args) => args != []
    case Output(_) => true
    case Infix(_, _, right) => Open(right)
    case _ => false
  }

  predicate Canonical(n: AstNode)
    decreases n, 0
  {
    match n
    case Infix(_, left, right) => Canonical(left) && Canonical(right) && !Open(left) && !right.Infix?
    case List(elements) => CanonicalSeq(elements)
    case Paren(_, args) => CanonicalSeq(args)
    case Call(_, args) => CanonicalSeq(args)
    case ProcDef(_, _, body) => CanonicalSeq(body)
    case Repeat(count, body) => Canonical(count) && CanonicalSeq(body)
    case Forever(body) => CanonicalSeq(body)
    case Launch(body) => CanonicalSeq(body)
    case If(condition, body) => Canonical(condition) && CanonicalSeq(body)
    case IfElse(condition, thenBody, elseBody) => Canonical(condition) && CanonicalSeq(thenBody) && CanonicalSeq(elseBody)
    case WaitUntil(test) => CanonicalSeq(test)
    case Carefully(body, handler) => CanonicalSeq(body) && CanonicalSeq(handler)
    case ForEach(_, list, body) => Canonical(list) && CanonicalSeq(body)
    case While(test, body) => CanonicalSeq(test) && CanonicalSeq(body)
    case Until(test, body) => CanonicalSeq(test) && CanonicalSeq(body)
    case Output(value) => Canonical(value)
    case _ => true
  }

  predicate CanonicalSeq(nodes: seq<AstNode>)
    decreases nodes, 0
  {
    nodes == [] || (Canonical(nodes[0]) && CanonicalSeq(nodes[1..]))
  }

  // ---- The tree that is read back ----

  /** What `left op right` means once it is printed without parentheses. */
  function Attach(left: AstNode, op: string, right: AstNode): AstNode
    decreases left, right
  {
    if Open(left) then
      match left
      case Call(name, args) => Call(name, args[..|args| - 1] + [Attach(args[|args| - 1], op, right)])
      case Output(value) => Output(Attach(value, op, right))
      case Infix(op1, x, y) => AstNode.Infix(op1, x, Attach(y, op, right))
    else if right.Infix? then
      AstNode.Infix(right.operator, Attach(left, op, right.left), right.right)
    else
      AstNode.Infix(op, left, right)
  }

  function Reassoc(n: AstNode): AstNode
    decreases n, 0
  {
    match n
    case Infix(operator, left, right) => Attach(Reassoc(left), operator, Reassoc(right))
    case List(elements) => List(ReassocSeq(elements))
    case Paren(name, args) => Paren(name, ReassocSeq(args))
    case Call(name, args) => Call(name, ReassocSeq(args))
    case ProcDef(name, params, body) => ProcDef(name, params, ReassocSeq(body))
    case Repeat(count, body) => Repeat(Reassoc(count), ReassocSeq(body))
    case Forever(body) => Forever(ReassocSeq(body))
    case Launch(body) => Launch(ReassocSeq(body))
    case If(condition, body) => If(Reassoc(condition), ReassocSeq(body))
    case IfElse(condition, thenBody, elseBody) => IfElse(Reassoc(condition), ReassocSeq(thenBody), ReassocSeq(elseBody))
    case WaitUntil(test) => WaitUntil(ReassocSeq(test))
    case Carefully(body, handler) => Carefully(ReassocSeq(body), ReassocSeq(handler))
    case ForEach(variable, list, body) => ForEach(variable, Reassoc(list), ReassocSeq(body))
    case While(test, body) => While(ReassocSeq(test), ReassocSeq(body))
    case Until(test, body) => Until(ReassocSeq(test), ReassocSeq(body))
    case Output(value) => Output(Reassoc(value))
    case _ => n
  }

  function ReassocSeq(nodes: seq<AstNode>): (r: seq<AstNode>)
    ensures |r| == |nodes|
    decreases nodes, 0
  {
    if nodes == [] then [] else [Reassoc(nodes[0])] + ReassocSeq(nodes[1..])
  }
}
