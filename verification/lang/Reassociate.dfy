/** Regrouping keeps the printed tokens, ends in a canonical tree and leaves canonical trees alone. */
module Reassociate {
  import opened Tokens
  import opened Ast
  import opened Printable

  // ---- Adding a node at the end of a sequence ----

  lemma {:induction false} SeqToksSnoc(nodes: seq<AstNode>, n: AstNode)
    ensures SeqToks(nodes + [n]) == SeqToks(nodes) + Toks(n)
  {
    if nodes == [] {
      assert [] + [n] == [n];
    } else {
      assert (nodes + [n])[1..] == nodes[1..] + [n];
      SeqToksSnoc(nodes[1..], n);
    }
  }

  lemma {:induction false} CanonicalSnoc(nodes: seq<AstNode>, n: AstNode)
    ensures CanonicalSeq(nodes + [n]) <==> CanonicalSeq(nodes) && Canonical(n)
  {
    if nodes == [] {
      assert [] + [n] == [n];
    } else {
      assert (nodes + [n])[1..] == nodes[1..] + [n];
      CanonicalSnoc(nodes[1..], n);
    }
  }

  lemma {:induction false} CleanSnoc(nodes: seq<AstNode>, n: AstNode, ar: Arities, negative: bool)
    ensures AfterSeq(nodes + [n], ar) == After(n, AfterSeq(nodes, ar))
    ensures CleanSeq(nodes + [n], ar, negative) <==>
      CleanSeq(nodes, ar, negative) && Clean(n, AfterSeq(nodes, ar), negative && nodes == [])
  {
    if nodes == [] {
      assert [] + [n] == [n];
    } else {
      assert (nodes + [n])[1..] == nodes[1..] + [n];
      CleanSnoc(nodes[1..], n, After(nodes[0], ar), false);
    }
  }

  /** A call with its last input replaced. */
  function WithLast(name: string, args: seq<AstNode>, last: AstNode): AstNode
    requires args != []
  {
    Call(name, args[..|args| - 1] + [last])
  }

  lemma WithLastToks(name: string, args: seq<AstNode>, last: AstNode)
    requires args != []
    ensures Toks(WithLast(name, args, last)) == [WordTok(name)] + (SeqToks(args[..|args| - 1]) + Toks(last))
    ensures WithLast(name, args, args[|args| - 1]) == Call(name, args)
  {
    SeqToksSnoc(args[..|args| - 1], last);
    assert args[..|args| - 1] + [args[|args| - 1]] == args;
  }

  lemma WithLastClean(name: string, args: seq<AstNode>, last: AstNode, ar: Arities, negative: bool)
    requires args != [] && Clean(Call(name, args), ar, negative)
    ensures var mid := AfterSeq(args[..|args| - 1], ar);
      && Clean(args[|args| - 1], mid, false)
      && After(Call(name, args), ar) == After(args[|args| - 1], mid)
      && (Clean(last, mid, false) ==> Clean(WithLast(name, args, last), ar, negative))
      && After(WithLast(name, args, last), ar) == After(last, mid)
  {
    hide CleanName, IsKeyword;
    var front := args[..|args| - 1];
    assert args == front + [args[|args| - 1]];
    CleanSnoc(front, args[|args| - 1], ar, false);
    CleanSnoc(front, last, ar, false);
  }

  // ---- One level of the definitions ----

  lemma InfixToks(op: string, left: AstNode, right: AstNode)
    ensures Toks(AstNode.Infix(op, left, right)) == Toks(left) + [Tok(TokenType.Infix, op)] + Toks(right)
  {
  }

  lemma OutputToks(value: AstNode)
    ensures Toks(Output(value)) == [WordTok("output")] + Toks(value)
  {
  }

  lemma InfixClean(op: string, left: AstNode, right: AstNode, ar: Arities, negative: bool)
    ensures Clean(AstNode.Infix(op, left, right), ar, negative) <==>
      IsOperator(op) && Clean(left, ar, negative) && Clean(right, After(left, ar), true)
    ensures After(AstNode.Infix(op, left, right), ar) == After(right, After(left, ar))
  {
  }

  lemma OutputClean(value: AstNode, ar: Arities, negative: bool)
    ensures Clean(Output(value), ar, negative) <==> Clean(value, ar, false)
    ensures After(Output(value), ar) == After(value, ar)
  {
  }

  // ---- Attaching an operator and its right operand ----

  lemma {:induction false} AttachToks(left: AstNode, op: string, right: AstNode)
    ensures Toks(Attach(left, op, right)) == Toks(left) + [Tok(TokenType.Infix, op)] + Toks(right)
    decreases left, right
  {
    hide Toks, SeqToks;
    if Open(left) {
      match left
      case Call(name, args) =>
        var last := args[|args| - 1];
        AttachToks(last, op, right);
        WithLastToks(name, args, last);
        WithLastToks(name, args, Attach(last, op, right));
      case Output(value) =>
        AttachToks(value, op, right);
        OutputToks(value);
        OutputToks(Attach(value, op, right));
      case Infix(op1, x, y) =>
        AttachToks(y, op, right);
        InfixToks(op1, x, y);
        InfixToks(op1, x, Attach(y, op, right));
    } else if right.Infix? {
      AttachToks(left, op, right.left);
      InfixToks(right.operator, right.left, right.right);
      InfixToks(right.operator, Attach(left, op, right.left), right.right);
    } else {
      InfixToks(op, left, right);
    }
  }

  lemma {:induction false} AttachCanonical(left: AstNode, op: string, right: AstNode)
    requires Canonical(left) && Canonical(right)
    ensures Canonical(Attach(left, op, right))
    ensures !Open(left) ==> Open(Attach(left, op, right)) == Open(right)
    ensures Open(left) && !left.Infix? ==> !Attach(left, op, right).Infix?
    decreases left, right
  {
    if Open(left) {
      match left
      case Call(name, args) =>
        var k := |args| - 1;
        assert args == args[..k] + [args[k]];
        CanonicalSnoc(args[..k], args[k]);
        AttachCanonical(args[k], op, right);
        CanonicalSnoc(args[..k], Attach(args[k], op, right));
      case Output(value) => AttachCanonical(value, op, right);
      case Infix(op1, x, y) => AttachCanonical(y, op, right);
    } else if right.Infix? {
      AttachCanonical(left, op, right.left);
    }
  }

  lemma {:induction false} AttachClean(left: AstNode, op: string, right: AstNode, ar: Arities, negative: bool)
    requires Clean(left, ar, negative) && IsOperator(op) && Clean(right, After(left, ar), true)
    ensures Clean(Attach(left, op, right), ar, negative)
    ensures After(Attach(left, op, right), ar) == After(right, After(left, ar))
    decreases left, right
  {
    hide Clean, After, IsOperator, AfterSeq;
    if Open(left) {
      match left
      case Call(name, args) =>
        var last := args[|args| - 1];
        WithLastClean(name, args, Attach(last, op, right), ar, negative);
        AttachClean(last, op, right, AfterSeq(args[..|args| - 1], ar), false);
      case Output(value) =>
        OutputClean(value, ar, negative);
        AttachClean(value, op, right, ar, false);
        OutputClean(Attach(value, op, right), ar, negative);
      case Infix(op1, x, y) =>
        InfixClean(op1, x, y, ar, negative);
        AttachClean(y, op, right, After(x, ar), true);
        InfixClean(op1, x, Attach(y, op, right), ar, negative);
    } else if right.Infix? {
      InfixClean(right.operator, right.left, right.right, After(left, ar), true);
      AttachClean(left, op, right.left, ar, negative);
      InfixClean(right.operator, Attach(left, op, right.left), right.right, ar, negative);
    } else {
      InfixClean(op, left, right, ar, negative);
    }
  }

  // ---- Regrouping a whole tree ----

  lemma {:induction false} ReassocToks(n: AstNode)
    ensures Toks(Reassoc(n)) == Toks(n)
    decreases n, 0
  {
    match n
    case Infix(operator, left, right) =>
      ReassocToks(left);
      ReassocToks(right);
      AttachToks(Reassoc(left), operator, Reassoc(right));
    case List(elements) => ReassocSeqToks(elements);
    case Paren(_, args) => ReassocSeqToks(args);
    case Call(_, args) => ReassocSeqToks(args);
    case ProcDef(_, _, body) => ReassocSeqToks(body);
    case Repeat(count, body) => ReassocToks(count); ReassocSeqToks(body);
    case Forever(body) => ReassocSeqToks(body);
    case Launch(body) => ReassocSeqToks(body);
    case If(condition, body) => ReassocToks(condition); ReassocSeqToks(body);
    case IfElse(condition, thenBody, elseBody) => ReassocToks(condition); ReassocSeqToks(thenBody); ReassocSeqToks(elseBody);
    case WaitUntil(test) => ReassocSeqToks(test);
    case Carefully(body, handler) => ReassocSeqToks(body); ReassocSeqToks(handler);
    case ForEach(_, list, body) => ReassocToks(list); ReassocSeqToks(body);
    case While(test, body) => ReassocSeqToks(test); ReassocSeqToks(body);
    case Until(test, body) => ReassocSeqToks(test); ReassocSeqToks(body);
    case Output(value) => ReassocToks(value);
    case _ =>
  }

  lemma {:induction false} ReassocSeqToks(nodes: seq<AstNode>)
    ensures SeqToks(ReassocSeq(nodes)) == SeqToks(nodes)
    ensures LineToks(ReassocSeq(nodes)) == LineToks(nodes)
    decreases nodes, 0
  {
    if nodes != [] {
      ReassocToks(nodes[0]);
      ReassocSeqToks(nodes[1..]);
      assert ReassocSeq(nodes)[1..] == ReassocSeq(nodes[1..]);
    }
  }

  lemma {:induction false} ReassocCanonical(n: AstNode)
    ensures Canonical(Reassoc(n))
    decreases n, 0
  {
    match n
    case Infix(operator, left, right) =>
      ReassocCanonical(left);
      ReassocCanonical(right);
      AttachCanonical(Reassoc(left), operator, Reassoc(right));
    case List(elements) => ReassocSeqCanonical(elements);
    case Paren(_, args) => ReassocSeqCanonical(args);
    case Call(_, args) => ReassocSeqCanonical(args);
    case ProcDef(_, _, body) => ReassocSeqCanonical(body);
    case Repeat(count, body) => ReassocCanonical(count); ReassocSeqCanonical(body);
    case Forever(body) => ReassocSeqCanonical(body);
    case Launch(body) => ReassocSeqCanonical(body);
    case If(condition, body) => ReassocCanonical(condition); ReassocSeqCanonical(body);
    case IfElse(condition, thenBody, elseBody) =>
      ReassocCanonical(condition);
      ReassocSeqCanonical(thenBody);
      ReassocSeqCanonical(elseBody);
    case WaitUntil(test) => ReassocSeqCanonical(test);
    case Carefully(body, handler) => ReassocSeqCanonical(body); ReassocSeqCanonical(handler);
    case ForEach(_, list, body) => ReassocCanonical(list); ReassocSeqCanonical(body);
    case While(test, body) => ReassocSeqCanonical(test); ReassocSeqCanonical(body);
    case Until(test, body) => ReassocSeqCanonical(test); ReassocSeqCanonical(body);
    case Output(value) => ReassocCanonical(value);
    case _ =>
  }

  lemma {:induction false} ReassocSeqCanonical(nodes: seq<AstNode>)
    ensures CanonicalSeq(ReassocSeq(nodes))
    decreases nodes, 0
  {
    if nodes != [] {
      ReassocCanonical(nodes[0]);
      ReassocSeqCanonical(nodes[1..]);
      assert ReassocSeq(nodes)[1..] == ReassocSeq(nodes[1..]);
    }
  }

  lemma {:induction false} ReassocClean(n: AstNode, ar: Arities, negative: bool)
    requires Clean(n, ar, negative)
    ensures Clean(Reassoc(n), ar, negative) && After(Reassoc(n), ar) == After(n, ar)
    decreases n, 1
  {
    hide Attach, Toks, CleanName, CleanNumber, CleanQuoted, CleanVariable, IsOperator, CleanSeq, CleanLines, AfterSeq, IsRaw, ReassocSeq;
    if n.Infix? {
      InfixClean(n.operator, n.left, n.right, ar, negative);
      ReassocClean(n.left, ar, negative);
      ReassocClean(n.right, After(n.left, ar), true);
      AttachClean(Reassoc(n.left), n.operator, Reassoc(n.right), ar, negative);
    } else if n.List? {
      ReassocSeqClean(n.elements, ar, true);
      ReassocRaw(n.elements);
    } else if n.ProcDef? {
      ReassocLinesClean(n.body, ar[n.name := |n.params|]);
      if n.body != [] {
        ReassocHead(n.body);
        ReassocToks(n.body[0]);
      }
    } else if n.Repeat? || n.If? || n.IfElse? || n.ForEach? {
      ReassocHeadedClean(n, ar, negative);
    } else if n.Forever? || n.Launch? || n.WaitUntil? {
      ReassocBlockClean(n, ar, negative);
    } else if n.Carefully? || n.While? || n.Until? {
      ReassocPairClean(n, ar, negative);
    } else {
      ReassocFormClean(n, ar, negative);
    }
  }

  lemma {:induction false} ReassocFormClean(n: AstNode, ar: Arities, negative: bool)
    requires Clean(n, ar, negative)
    requires n.Paren? || n.Call? || n.Output? || n.Number? || n.Word? || n.Variable? || n.Stop?
    ensures Clean(Reassoc(n), ar, negative) && After(Reassoc(n), ar) == After(n, ar)
    decreases n, 0
  {
    hide CleanName, IsKeyword, CleanNumber, CleanQuoted, CleanVariable, CleanSeq, CleanLines, AfterSeq, ReassocSeq, IsOperator, Attach;
    match n
    case Paren(_, args) => ReassocSeqClean(args, ar, false);
    case Call(_, args) => ReassocSeqClean(args, ar, false);
    case Output(value) => ReassocClean(value, ar, false);
    case _ =>
  }

  lemma {:induction false} ReassocBlockClean(n: AstNode, ar: Arities, negative: bool)
    requires Clean(n, ar, negative) && (n.Forever? || n.Launch? || n.WaitUntil?)
    ensures Clean(Reassoc(n), ar, negative) && After(Reassoc(n), ar) == After(n, ar)
    decreases n, 0
  {
    hide CleanSeq, AfterSeq, ReassocSeq;
    match n
    case Forever(body) => ReassocSeqClean(body, ar, true);
    case Launch(body) => ReassocSeqClean(body, ar, true);
    case WaitUntil(test) => ReassocSeqClean(test, ar, true);
  }

  lemma {:induction false} ReassocPairClean(n: AstNode, ar: Arities, negative: bool)
    requires Clean(n, ar, negative) && (n.Carefully? || n.While? || n.Until?)
    ensures Clean(Reassoc(n), ar, negative) && After(Reassoc(n), ar) == After(n, ar)
    decreases n, 0
  {
    hide CleanSeq, AfterSeq, ReassocSeq;
    match n
    case Carefully(body, handler) => ReassocSeqClean(body, ar, true); ReassocSeqClean(handler, AfterSeq(body, ar), true);
    case While(test, body) => ReassocSeqClean(test, ar, true); ReassocSeqClean(body, AfterSeq(test, ar), true);
    case Until(test, body) => ReassocSeqClean(test, ar, true); ReassocSeqClean(body, AfterSeq(test, ar), true);
  }

  lemma {:induction false} ReassocHeadedClean(n: AstNode, ar: Arities, negative: bool)
    requires Clean(n, ar, negative) && (n.Repeat? || n.If? || n.IfElse? || n.ForEach?)
    ensures Clean(Reassoc(n), ar, negative) && After(Reassoc(n), ar) == After(n, ar)
    decreases n, 0
  {
    hide CleanName, IsKeyword, CleanNumber, CleanQuoted, CleanVariable, CleanSeq, CleanLines, AfterSeq, ReassocSeq, IsOperator, Attach;
    match n
    case Repeat(count, body) => ReassocClean(count, ar, false); ReassocSeqClean(body, After(count, ar), true);
    case If(condition, body) => ReassocClean(condition, ar, false); ReassocSeqClean(body, After(condition, ar), true);
    case IfElse(condition, thenBody, elseBody) =>
      ReassocClean(condition, ar, false);
      ReassocSeqClean(thenBody, After(condition, ar), true);
      ReassocSeqClean(elseBody, AfterSeq(thenBody, After(condition, ar)), true);
    case ForEach(_, list, body) => ReassocClean(list, ar, false); ReassocSeqClean(body, After(list, ar), true);
  }

  lemma {:induction false} ReassocSeqClean(nodes: seq<AstNode>, ar: Arities, negative: bool)
    requires CleanSeq(nodes, ar, negative)
    ensures CleanSeq(ReassocSeq(nodes), ar, negative) && AfterSeq(ReassocSeq(nodes), ar) == AfterSeq(nodes, ar)
    decreases nodes, 0
  {
    if nodes != [] {
      ReassocClean(nodes[0], ar, negative);
      ReassocSeqClean(nodes[1..], After(nodes[0], ar), false);
      assert ReassocSeq(nodes)[1..] == ReassocSeq(nodes[1..]);
    }
  }

  lemma {:induction false} ReassocLinesClean(nodes: seq<AstNode>, ar: Arities)
    requires CleanLines(nodes, ar)
    ensures CleanLines(ReassocSeq(nodes), ar) && AfterSeq(ReassocSeq(nodes), ar) == AfterSeq(nodes, ar)
    decreases nodes, 0
  {
    if nodes != [] {
      ReassocClean(nodes[0], ar, true);
      ReassocToks(nodes[0]);
      ReassocLinesClean(nodes[1..], After(nodes[0], ar));
      assert ReassocSeq(nodes)[1..] == ReassocSeq(nodes[1..]);
    }
  }

  lemma ReassocHead(nodes: seq<AstNode>)
    requires nodes != []
    ensures ReassocSeq(nodes)[0] == Reassoc(nodes[0])
  {
  }

  lemma {:induction false} ReassocRaw(nodes: seq<AstNode>)
    requires forall e <- nodes :: IsRaw(e)
    ensures forall e <- ReassocSeq(nodes) :: IsRaw(e)
    decreases nodes
  {
    if nodes != [] {
      ReassocRaw(nodes[1..]);
      assert IsRaw(nodes[0]) && IsRaw(Reassoc(nodes[0]));
      assert ReassocSeq(nodes) == [Reassoc(nodes[0])] + ReassocSeq(nodes[1..]);
    }
  }
}
