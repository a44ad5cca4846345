/**
 * What the printer writes for trees that the parser could not have built where they stand: the tokens of a
 * negative number depend on what stands before it.
 */
module Printed {
  import opened Tokens
  import opened Tokenizer
  import opened Ast
  import opened Printable
  import opened BarWeight

  // ---- Lexical fitness ----

  /** Every name, quoted word, variable, operator and number of the tree is one that the lexer can produce. */
  predicate Fit(n: AstNode)
    decreases n, 0
  {
    match n
    case Number(lexeme) => CleanNumber(lexeme)
    case Word(text) => CleanQuoted(text)
    case Variable(name) => CleanVariable(name)
    case List(elements) => FitSeq(elements)
    case Infix(operator, left, right) => IsOperator(operator) && Fit(left) && Fit(right)
    case Paren(name, args) => CleanName(name) && FitSeq(args)
    case Call(name, args) => CleanName(name) && FitSeq(args)
    case ProcDef(name, params, body) => CleanName(name) && (forall p <- params :: CleanVariable(p)) && FitSeq(body)
    case Repeat(count, body) => Fit(count) && FitSeq(body)
    case Forever(body) => FitSeq(body)
    case Launch(body) => FitSeq(body)
    case If(condition, body) => Fit(condition) && FitSeq(body)
    case IfElse(condition, thenBody, elseBody) => Fit(condition) && FitSeq(thenBody) && FitSeq(elseBody)
    case WaitUntil(test) => FitSeq(test)
    case Carefully(body, handler) => FitSeq(body) && FitSeq(handler)
    case ForEach(variable, list, body) => CleanQuoted(variable) && Fit(list) && FitSeq(body)
    case While(test, body) => FitSeq(test) && FitSeq(body)
    case Until(test, body) => FitSeq(test) && FitSeq(body)
    case Output(value) => Fit(value)
    case Stop => true
  }

  predicate FitSeq(nodes: seq<AstNode>)
    decreases nodes, 0
  {
    nodes == [] || (Fit(nodes[0]) && FitSeq(nodes[1..]))
  }

  // ---- The tokens of the printed text ----

  /** The tokens of a number: two where a negative number may not stand. */
  function NumberToks(lexeme: string, before: bool): seq<Tok> {
    if IsNegative(lexeme) && !before then [Tok(TokenType.Infix, "-"), Tok(TokenType.Number, lexeme[1..])]
    else [Tok(TokenType.Number, lexeme)]
  }

  function BlockToksAt(body: seq<AstNode>): seq<Tok>
    decreases body, 1
  {
    [OPEN] + SeqToksAt(body, true) + [CLOSE]
  }

  function ToksAt(n: AstNode, before: bool): seq<Tok>
    decreases n, 0
  {
    match n
    case Number(lexeme) => NumberToks(lexeme, before)
    case Word(text) => [Tok(TokenType.QuotedWord, text)]
    case Variable(name) => [Tok(TokenType.Variable, name)]
    case List(elements) => BlockToksAt(elements)
    case Infix(operator, left, right) => ToksAt(left, before) + [Tok(TokenType.Infix, operator)] + ToksAt(right, true)
    case Paren(name, args) =>
      [Tok(TokenType.OpenParen, "("), WordTok(name)] + SeqToksAt(args, false) + [Tok(TokenType.CloseParen, ")")]
    case Call(name, args) => [WordTok(name)] + SeqToksAt(args, false)
    case ProcDef(name, params, body) =>
      [WordTok("to"), WordTok(name)] + ParamToks(params) + [LINE] + LineToksAt(body) + [LINE, WordTok("end")]
    case Repeat(count, body) => [WordTok("repeat")] + (ToksAt(count, false) + BlockToksAt(body))
    case Forever(body) => [WordTok("forever")] + BlockToksAt(body)
    case Launch(body) => [WordTok("launch")] + BlockToksAt(body)
    case If(condition, body) => [WordTok("if")] + (ToksAt(condition, false) + BlockToksAt(body))
    case IfElse(condition, thenBody, elseBody) =>
      [WordTok("ifelse")] + (ToksAt(condition, false) + (BlockToksAt(thenBody) + BlockToksAt(elseBody)))
    case WaitUntil(test) => [WordTok("waituntil")] + BlockToksAt(test)
    case Carefully(body, handler) => [WordTok("carefully")] + (BlockToksAt(body) + BlockToksAt(handler))
    case ForEach(variable, list, body) =>
      [WordTok("foreach")] + ([Tok(TokenType.QuotedWord, variable)] + (ToksAt(list, false) + BlockToksAt(body)))
    case While(test, body) => [WordTok("while")] + (BlockToksAt(test) + BlockToksAt(body))
    case Until(test, body) => [WordTok("until")] + (BlockToksAt(test) + BlockToksAt(body))
    case Output(value) => [WordTok("output")] + ToksAt(value, false)
    case Stop => [WordTok("stop")]
  }

  function SeqToksAt(nodes: seq<AstNode>, before: bool): seq<Tok>
    decreases nodes, 0
  {
    if nodes == [] then [] else ToksAt(nodes[0], before) + SeqToksAt(nodes[1..], false)
  }

  function LineToksAt(nodes: seq<AstNode>): seq<Tok>
    decreases nodes, 0
  {
    if nodes == [] then []
    else if |nodes| == 1 then ToksAt(nodes[0], true)
    else ToksAt(nodes[0], true) + [LINE] + LineToksAt(nodes[1..])
  }

  // ---- Signs ----

  /** Negative numbers stand only where the lexer takes them as one token. */
  predicate Signs(n: AstNode, before: bool)
    decreases n, 0
  {
    match n
    case Number(lexeme) => IsNegative(lexeme) ==> before
    case List(elements) => SignsSeq(elements, true)
    case Infix(_, left, right) => Signs(left, before) && Signs(right, true)
    case Paren(_, args) => SignsSeq(args, false)
    case Call(_, args) => SignsSeq(args, false)
    case ProcDef(_, _, body) => SignsLines(body)
    case Repeat(count, body) => Signs(count, false) && SignsSeq(body, true)
    case Forever(body) => SignsSeq(body, true)
    case Launch(body) => SignsSeq(body, true)
    case If(condition, body) => Signs(condition, false) && SignsSeq(body, true)
    case IfElse(condition, thenBody, elseBody) => Signs(condition, false) && SignsSeq(thenBody, true) && SignsSeq(elseBody, true)
    case WaitUntil(test) => SignsSeq(test, true)
    case Carefully(body, handler) => SignsSeq(body, true) && SignsSeq(handler, true)
    case ForEach(_, list, body) => Signs(list, false) && SignsSeq(body, true)
    case While(test, body) => SignsSeq(test, true) && SignsSeq(body, true)
    case Until(test, body) => SignsSeq(test, true) && SignsSeq(body, true)
    case Output(value) => Signs(value, false)
    case _ => true
  }

  predicate SignsSeq(nodes: seq<AstNode>, before: bool)
    decreases nodes, 0
  {
    nodes == [] || (Signs(nodes[0], before) && SignsSeq(nodes[1..], false))
  }

  predicate SignsLines(nodes: seq<AstNode>)
    decreases nodes, 0
  {
    nodes == [] || (Signs(nodes[0], true) && SignsLines(nodes[1..]))
  }

  // ---- Counting tokens ----

  /** Opening brackets and parentheses, negative numbers, the weight of the bars in a value, or quoted words that start with a bar. */
  datatype Mark = Opening | Negative | Bars | Led {
    function Of(t: Tok): nat {
      match this
      case Opening => if t.kind == TokenType.OpenBracket || t.kind == TokenType.OpenParen then 1 else 0
      case Negative => if t.kind == TokenType.Number && IsNegative(t.value) then 1 else 0
      case Bars => if IsSpelled(t.kind) then Weight(t.value) else 0
      case Led => if t.kind == TokenType.QuotedWord && t.value != "" && t.value[0] == '|' then 1 else 0
    }
  }

  /** Tokens whose values are spelled by the program text. */
  predicate IsSpelled(kind: TokenType) {
    kind.Word? || kind.QuotedWord? || kind.Variable? || kind.Number? || kind.Infix?
  }

  function Count(mark: Mark, ks: seq<Tok>): nat {
    if ks == [] then 0 else mark.Of(ks[0]) + Count(mark, ks[1..])
  }

  lemma {:induction false} CountAppend(mark: Mark, a: seq<Tok>, b: seq<Tok>)
    ensures Count(mark, a + b) == Count(mark, a) + Count(mark, b)
    decreases a
  {
    if a == [] {
      assert a + b == b;
    } else {
      assert (a + b)[1..] == a[1..] + b;
      CountAppend(mark, a[1..], b);
    }
  }

  lemma CountsAdd()
    ensures forall mark: Mark, a: seq<Tok>, b: seq<Tok> :: Count(mark, a + b) == Count(mark, a) + Count(mark, b)
  {
    forall mark: Mark, a: seq<Tok>, b: seq<Tok> ensures Count(mark, a + b) == Count(mark, a) + Count(mark, b) {
      CountAppend(mark, a, b);
    }
  }

  lemma CountOne(mark: Mark, t: Tok)
    ensures Count(mark, [t]) == mark.Of(t)
  {
  }

  lemma CountTwo(mark: Mark, t: Tok, u: Tok)
    ensures Count(mark, [t, u]) == Count(mark, [t]) + Count(mark, [u])
  {
    assert [t, u] == [t] + [u];
    CountAppend(mark, [t], [u]);
  }

  /** The brackets of a printed tree are those of its tokens; a negative number may have lost its sign, and has where it may not stand. */
  ghost predicate Told(ks: seq<Tok>, at: seq<Tok>, signs: bool) {
    && Count(Opening, at) == Count(Opening, ks)
    && Count(Negative, at) <= Count(Negative, ks)
    && (Count(Negative, at) == Count(Negative, ks) ==> signs)
    && (signs ==> at == ks)
  }

  lemma ToldSame(ks: seq<Tok>)
    ensures Told(ks, ks, true)
  {
  }

  lemma ToldJoin(ka: seq<Tok>, aa: seq<Tok>, sa: bool, kb: seq<Tok>, ab: seq<Tok>, sb: bool)
    requires Told(ka, aa, sa) && Told(kb, ab, sb)
    ensures Told(ka + kb, aa + ab, sa && sb)
  {
    CountsAdd();
  }

  lemma TellsNumber(lexeme: string, before: bool)
    requires CleanNumber(lexeme)
    ensures Told([Tok(TokenType.Number, lexeme)], NumberToks(lexeme, before), IsNegative(lexeme) ==> before)
  {
    var t := Tok(TokenType.Number, lexeme);
    CountOne(Opening, t);
    CountOne(Negative, t);
    if IsNegative(lexeme) && !before {
      var u, v := Tok(TokenType.Infix, "-"), Tok(TokenType.Number, lexeme[1..]);
      CountTwo(Opening, u, v);
      CountTwo(Negative, u, v);
    }
  }

  lemma {:induction false} TellsNode(n: AstNode, before: bool)
    requires Fit(n)
    ensures Told(Toks(n), ToksAt(n, before), Signs(n, before))
    decreases n, 3
  {
    hide Told, CleanNumber, CleanQuoted, CleanVariable, CleanName, IsOperator, NumberToks, BlockToks, BlockToksAt, SeqToks, SeqToksAt,
         LineToks, LineToksAt, ParamToks, SignsSeq, SignsLines, FitSeq;
    match n
    case Number(lexeme) => TellsNumber(lexeme, before);
    case List(elements) => TellsBlock(elements);
    case Infix(operator, left, right) =>
      var op := [Tok(TokenType.Infix, operator)];
      TellsNode(left, before);
      TellsNode(right, true);
      ToldSame(op);
      ToldJoin(Toks(left), ToksAt(left, before), Signs(left, before), op, op, true);
      ToldJoin(Toks(left) + op, ToksAt(left, before) + op, Signs(left, before), Toks(right), ToksAt(right, true), Signs(right, true));
    case Paren(name, args) =>
      var open, close := [Tok(TokenType.OpenParen, "("), WordTok(name)], [Tok(TokenType.CloseParen, ")")];
      TellsSeq(args, false);
      ToldSame(open);
      ToldSame(close);
      ToldJoin(open, open, true, SeqToks(args), SeqToksAt(args, false), SignsSeq(args, false));
      ToldJoin(open + SeqToks(args), open + SeqToksAt(args, false), SignsSeq(args, false), close, close, true);
    case Call(name, args) => TellsSeq(args, false); TellsForm(name, SeqToks(args), SeqToksAt(args, false), SignsSeq(args, false));
    case ProcDef(name, params, body) => TellsProcedure(name, params, body);
    case Repeat(_, _) => TellsHeaded(n);
    case If(_, _) => TellsHeaded(n);
    case IfElse(_, _, _) => TellsHeaded(n);
    case ForEach(_, _, _) => TellsHeaded(n);
    case Output(value) => TellsNode(value, false); TellsForm("output", Toks(value), ToksAt(value, false), Signs(value, false));
    case Forever(body) => TellsOne("forever", body);
    case Launch(body) => TellsOne("launch", body);
    case WaitUntil(test) => TellsOne("waituntil", test);
    case Carefully(body, handler) => TellsTwo(n, "carefully", body, handler);
    case While(test, body) => TellsTwo(n, "while", test, body);
    case Until(test, body) => TellsTwo(n, "until", test, body);
    case _ => ToldSame(Toks(n));
  }

  lemma TellsForm(name: string, ks: seq<Tok>, at: seq<Tok>, signs: bool)
    requires Told(ks, at, signs)
    ensures Told([WordTok(name)] + ks, [WordTok(name)] + at, signs)
  {
    hide Told;
    ToldSame([WordTok(name)]);
    ToldJoin([WordTok(name)], [WordTok(name)], true, ks, at, signs);
  }

  lemma {:induction false} TellsOne(name: string, body: seq<AstNode>)
    requires FitSeq(body)
    ensures Told([WordTok(name)] + BlockToks(body), [WordTok(name)] + BlockToksAt(body), SignsSeq(body, true))
    decreases body, 2
  {
    hide Told, FitSeq, SignsSeq, BlockToks, BlockToksAt;
    TellsBlock(body);
    TellsForm(name, BlockToks(body), BlockToksAt(body), SignsSeq(body, true));
  }

  lemma {:induction false} TellsTwo(n: AstNode, name: string, a: seq<AstNode>, b: seq<AstNode>)
    requires (n == Carefully(a, b) || n == While(a, b) || n == Until(a, b)) && FitSeq(a) && FitSeq(b)
    ensures Told([WordTok(name)] + (BlockToks(a) + BlockToks(b)), [WordTok(name)] + (BlockToksAt(a) + BlockToksAt(b)),
                 SignsSeq(a, true) && SignsSeq(b, true))
    decreases n, 1
  {
    hide Told, FitSeq, SignsSeq, BlockToks, BlockToksAt;
    TellsBlock(a);
    TellsBlock(b);
    ToldJoin(BlockToks(a), BlockToksAt(a), SignsSeq(a, true), BlockToks(b), BlockToksAt(b), SignsSeq(b, true));
    TellsForm(name, BlockToks(a) + BlockToks(b), BlockToksAt(a) + BlockToksAt(b), SignsSeq(a, true) && SignsSeq(b, true));
  }

  lemma {:induction false} TellsHeaded(n: AstNode)
    requires Fit(n) && (n.Repeat? || n.If? || n.IfElse? || n.ForEach?)
    ensures Told(Toks(n), ToksAt(n, false), Signs(n, false))
    ensures ToksAt(n, true) == ToksAt(n, false)
    decreases n, 2
  {
    hide Told, CleanQuoted, FitSeq, SignsSeq, BlockToks, BlockToksAt;
    match n
    case Repeat(count, body) =>
      TellsPart(n, count, body);
      TellsForm("repeat", Toks(count) + BlockToks(body), ToksAt(count, false) + BlockToksAt(body), Signs(n, false));
    case If(condition, body) =>
      TellsPart(n, condition, body);
      TellsForm("if", Toks(condition) + BlockToks(body), ToksAt(condition, false) + BlockToksAt(body), Signs(n, false));
    case IfElse(condition, a, b) =>
      TellsNode(condition, false);
      TellsBlock(a);
      TellsBlock(b);
      ToldJoin(BlockToks(a), BlockToksAt(a), SignsSeq(a, true), BlockToks(b), BlockToksAt(b), SignsSeq(b, true));
      ToldJoin(Toks(condition), ToksAt(condition, false), Signs(condition, false),
               BlockToks(a) + BlockToks(b), BlockToksAt(a) + BlockToksAt(b), SignsSeq(a, true) && SignsSeq(b, true));
      TellsForm("ifelse", Toks(condition) + (BlockToks(a) + BlockToks(b)),
                ToksAt(condition, false) + (BlockToksAt(a) + BlockToksAt(b)), Signs(n, false));
    case ForEach(variable, list, body) =>
      var v := [Tok(TokenType.QuotedWord, variable)];
      TellsPart(n, list, body);
      ToldSame(v);
      ToldJoin(v, v, true, Toks(list) + BlockToks(body), ToksAt(list, false) + BlockToksAt(body), Signs(n, false));
      TellsForm("foreach", v + (Toks(list) + BlockToks(body)), v + (ToksAt(list, false) + BlockToksAt(body)), Signs(n, false));
  }

  /** A head and a block. */
  lemma {:induction false} TellsPart(n: AstNode, head: AstNode, body: seq<AstNode>)
    requires Fit(head) && FitSeq(body)
    requires n == Repeat(head, body) || n == If(head, body) || (n.ForEach? && n.list == head && n.body == body)
    ensures Told(Toks(head) + BlockToks(body), ToksAt(head, false) + BlockToksAt(body), Signs(head, false) && SignsSeq(body, true))
    decreases n, 1
  {
    hide Told, Fit, FitSeq, Signs, SignsSeq, BlockToks, BlockToksAt;
    TellsNode(head, false);
    TellsBlock(body);
    ToldJoin(Toks(head), ToksAt(head, false), Signs(head, false), BlockToks(body), BlockToksAt(body), SignsSeq(body, true));
  }

  lemma {:induction false} TellsProcedure(name: string, params: seq<string>, body: seq<AstNode>)
    requires FitSeq(body)
    ensures var n := ProcDef(name, params, body); Told(Toks(n), ToksAt(n, true), SignsLines(body)) && ToksAt(n, false) == ToksAt(n, true)
    decreases body, 2
  {
    hide Told, FitSeq, SignsLines, ParamToks, LineToks, LineToksAt;
    var head, end := [WordTok("to"), WordTok(name)] + ParamToks(params) + [LINE], [LINE, WordTok("end")];
    TellsLines(body);
    ToldSame(head);
    ToldSame(end);
    ToldJoin(head, head, true, LineToks(body), LineToksAt(body), SignsLines(body));
    ToldJoin(head + LineToks(body), head + LineToksAt(body), SignsLines(body), end, end, true);
  }

  lemma {:induction false} TellsBlock(body: seq<AstNode>)
    requires FitSeq(body)
    ensures Told(BlockToks(body), BlockToksAt(body), SignsSeq(body, true))
    decreases body, 1
  {
    hide Told, FitSeq, SignsSeq, SeqToks, SeqToksAt;
    TellsSeq(body, true);
    ToldSame([OPEN]);
    ToldSame([CLOSE]);
    ToldJoin([OPEN], [OPEN], true, SeqToks(body), SeqToksAt(body, true), SignsSeq(body, true));
    ToldJoin([OPEN] + SeqToks(body), [OPEN] + SeqToksAt(body, true), SignsSeq(body, true), [CLOSE], [CLOSE], true);
  }

  lemma {:induction false} TellsSeq(nodes: seq<AstNode>, before: bool)
    requires FitSeq(nodes)
    ensures Told(SeqToks(nodes), SeqToksAt(nodes, before), SignsSeq(nodes, before))
    decreases nodes, 0
  {
    hide Told, Fit, Signs, Toks, ToksAt;
    if nodes == [] {
      ToldSame([]);
    } else {
      TellsNode(nodes[0], before);
      TellsSeq(nodes[1..], false);
      ToldJoin(Toks(nodes[0]), ToksAt(nodes[0], before), Signs(nodes[0], before),
               SeqToks(nodes[1..]), SeqToksAt(nodes[1..], false), SignsSeq(nodes[1..], false));
    }
  }

  lemma {:induction false} TellsLines(nodes: seq<AstNode>)
    requires FitSeq(nodes)
    ensures Told(LineToks(nodes), LineToksAt(nodes), SignsLines(nodes))
    decreases nodes, 0
  {
    hide Told, Fit, Signs, Toks, ToksAt;
    if nodes == [] {
      ToldSame([]);
    } else {
      TellsNode(nodes[0], true);
      TellsLines(nodes[1..]);
      ToldSame([LINE]);
      ToldJoin(Toks(nodes[0]), ToksAt(nodes[0], true), Signs(nodes[0], true), [LINE], [LINE], true);
      ToldJoin(Toks(nodes[0]) + [LINE], ToksAt(nodes[0], true) + [LINE], Signs(nodes[0], true),
               LineToks(nodes[1..]), LineToksAt(nodes[1..]), SignsLines(nodes[1..]));
    }
  }
}
