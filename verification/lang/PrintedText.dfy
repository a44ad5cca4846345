/** Regrouping does not change the printed text. */
module PrintedText {
  import opened Ast
  import opened Unparse
  import opened Printable
  import opened Reassociate

  lemma SpacedTwice(a: string, b: string, c: string)
    ensures Spaced(Spaced(a, b), c) == Spaced(a, Spaced(b, c))
  {
  }

  lemma {:induction false} BodySnoc(nodes: seq<AstNode>, n: AstNode)
    ensures BodyToSource(nodes + [n]) == if nodes == [] then NodeToSource(n) else Spaced(BodyToSource(nodes), NodeToSource(n))
    decreases nodes
  {
    hide NodeToSource, Spaced;
    if nodes == [] {
      assert [] + [n] == [n];
    } else {
      assert (nodes + [n])[1..] == nodes[1..] + [n];
      BodySnoc(nodes[1..], n);
      if |nodes| > 1 {
        SpacedTwice(NodeToSource(nodes[0]), BodyToSource(nodes[1..]), NodeToSource(n));
      }
    }
  }

  /** A call with its last input replaced prints its front, then the last input. */
  lemma WithLastText(name: string, args: seq<AstNode>, last: AstNode)
    requires args != []
    ensures var front := args[..|args| - 1];
      NodeToSource(WithLast(name, args, last))
      == Spaced(if front == [] then name else Spaced(name, BodyToSource(front)), NodeToSource(last))
    ensures WithLast(name, args, args[|args| - 1]) == Call(name, args)
  {
    hide BodyToSource, Spaced;
    var front := args[..|args| - 1];
    BodySnoc(front, last);
    if front != [] {
      SpacedTwice(name, BodyToSource(front), NodeToSource(last));
    }
    assert front + [args[|args| - 1]] == args;
  }

  lemma InfixText(op: string, left: AstNode, right: AstNode)
    ensures NodeToSource(AstNode.Infix(op, left, right)) == Spaced(NodeToSource(left), Spaced(op, NodeToSource(right)))
  {
  }

  lemma OutputText(value: AstNode)
    ensures NodeToSource(Output(value)) == Spaced("output", NodeToSource(value))
  {
  }

  lemma {:induction false} AttachText(left: AstNode, op: string, right: AstNode)
    ensures NodeToSource(Attach(left, op, right)) == Spaced(NodeToSource(left), Spaced(op, NodeToSource(right)))
    decreases left, right
  {
    hide NodeToSource, BodyToSource, Spaced;
    var tail := Spaced(op, NodeToSource(right));
    if Open(left) {
      match left
      case Call(name, args) =>
        var last, front := args[|args| - 1], args[..|args| - 1];
        AttachText(last, op, right);
        WithLastText(name, args, last);
        WithLastText(name, args, Attach(last, op, right));
        SpacedTwice(if front == [] then name else Spaced(name, BodyToSource(front)), NodeToSource(last), tail);
      case Output(value) =>
        AttachText(value, op, right);
        OutputText(value);
        OutputText(Attach(value, op, right));
        SpacedTwice("output", NodeToSource(value), tail);
      case Infix(op1, x, y) =>
        AttachText(y, op, right);
        InfixText(op1, x, y);
        InfixText(op1, x, Attach(y, op, right));
        SpacedTwice(op1, NodeToSource(y), tail);
        SpacedTwice(NodeToSource(x), Spaced(op1, NodeToSource(y)), tail);
    } else if right.Infix? {
      var more := Spaced(right.operator, NodeToSource(right.right));
      AttachText(left, op, right.left);
      InfixText(right.operator, Attach(left, op, right.left), right.right);
      InfixText(right.operator, right.left, right.right);
      SpacedTwice(NodeToSource(left), Spaced(op, NodeToSource(right.left)), more);
      SpacedTwice(op, NodeToSource(right.left), more);
    } else {
      InfixText(op, left, right);
    }
  }

  lemma {:induction false} ReassocText(n: AstNode)
    ensures NodeToSource(Reassoc(n)) == NodeToSource(n)
    decreases n, 1
  {
    hide BodyToSource, LinesToSource, HeaderToSource, Spaced, Lined, Block, Attach, ReassocSeq;
    match n
    case Infix(operator, left, right) =>
      ReassocText(left);
      ReassocText(right);
      AttachText(Reassoc(left), operator, Reassoc(right));
    case List(elements) => ReassocBodyText(elements);
    case Paren(_, args) => ReassocBodyText(args);
    case Call(_, args) => ReassocBodyText(args);
    case ProcDef(_, _, body) => ReassocLinesText(body);
    case Repeat(count, body) => ReassocText(count); ReassocBodyText(body);
    case Forever(body) => ReassocBodyText(body);
    case Launch(body) => ReassocBodyText(body);
    case If(condition, body) => ReassocText(condition); ReassocBodyText(body);
    case IfElse(condition, thenBody, elseBody) => ReassocText(condition); ReassocBodyText(thenBody); ReassocBodyText(elseBody);
    case WaitUntil(test) => ReassocBodyText(test);
    case Carefully(body, handler) => ReassocBodyText(body); ReassocBodyText(handler);
    case ForEach(_, list, body) => ReassocText(list); ReassocBodyText(body);
    case While(test, body) => ReassocBodyText(test); ReassocBodyText(body);
    case Until(test, body) => ReassocBodyText(test); ReassocBodyText(body);
    case Output(value) => ReassocText(value);
    case _ =>
  }

  lemma {:induction false} ReassocBodyText(nodes: seq<AstNode>)
    ensures BodyToSource(ReassocSeq(nodes)) == BodyToSource(nodes)
    decreases nodes, 0
  {
    hide NodeToSource, Spaced, Reassoc;
    if nodes != [] {
      ReassocText(nodes[0]);
      ReassocBodyText(nodes[1..]);
      assert ReassocSeq(nodes)[1..] == ReassocSeq(nodes[1..]);
    }
  }

  lemma {:induction false} ReassocLinesText(nodes: seq<AstNode>)
    ensures LinesToSource(ReassocSeq(nodes)) == LinesToSource(nodes)
    decreases nodes, 0
  {
    hide NodeToSource, Lined, Reassoc;
    if nodes != [] {
      ReassocText(nodes[0]);
      ReassocLinesText(nodes[1..]);
      assert ReassocSeq(nodes)[1..] == ReassocSeq(nodes[1..]);
    }
  }

  lemma {:induction false} ReassocFileText(procs: seq<AstNode>)
    requires forall p <- procs :: p.ProcDef?
    ensures (forall p <- ReassocSeq(procs) :: p.ProcDef?) && JoinProcedures(ReassocSeq(procs)) == JoinProcedures(procs)
    decreases procs
  {
    hide NodeToSource, Lined;
    if procs != [] {
      ReassocText(procs[0]);
      ReassocFileText(procs[1..]);
      assert ReassocSeq(procs)[1..] == ReassocSeq(procs[1..]);
      assert ReassocSeq(procs) == [Reassoc(procs[0])] + ReassocSeq(procs[1..]);
    }
  }

  // ---- The layout of the text ----

  // ---- The text, form by form ----

  lemma Joins(k: string, s: string, t: string)
    ensures Spaced(k, Block(s)) == k + " [" + s + "]"
    ensures Spaced(k, Spaced(s, Block(t))) == k + " " + s + " [" + t + "]"
    ensures Spaced(k, Spaced(Block(s), Block(t))) == k + " [" + s + "] [" + t + "]"
  {
  }

  lemma JoinsFour(k: string, s: string, t: string, u: string)
    ensures Spaced(k, Spaced(s, Spaced(Block(t), Block(u)))) == k + " " + s + " [" + t + "] [" + u + "]"
    ensures Spaced(k, Spaced("\"" + s, Spaced("", Spaced(t, Block(u))))) == k + " \"" + s + "  " + t + " [" + u + "]"
  {
  }

  /** Values, operators and calls. */
  lemma ValueTexts(name: string, a: AstNode, b: AstNode, body: seq<AstNode>)
    ensures var s, t := NodeToSource(a), NodeToSource(b);
      && NodeToSource(AstNode.Number(name)) == name
      && NodeToSource(AstNode.Word(name)) == "\"" + name
      && NodeToSource(AstNode.Variable(name)) == ":" + name
      && NodeToSource(AstNode.List(body)) == "[" + BodyToSource(body) + "]"
      && NodeToSource(AstNode.Infix(name, a, b)) == s + " " + name + " " + t
      && NodeToSource(AstNode.Paren(name, body)) == "(" + name + " " + BodyToSource(body) + ")"
      && NodeToSource(AstNode.Call(name, [])) == name
      && (body != [] ==> NodeToSource(AstNode.Call(name, body)) == name + " " + BodyToSource(body))
  {
    hide BodyToSource;
    assert NodeToSource(a) + " " + (name + " " + NodeToSource(b)) == NodeToSource(a) + " " + name + " " + NodeToSource(b);
  }

  /** The forms: a word of their own, and their parts, blocks in brackets. */
  lemma FormTexts(name: string, a: AstNode, body: seq<AstNode>, other: seq<AstNode>)
    ensures var s, t, u := NodeToSource(a), BodyToSource(body), BodyToSource(other);
      && NodeToSource(AstNode.Repeat(a, body)) == "repeat " + s + " [" + t + "]"
      && NodeToSource(AstNode.Forever(body)) == "forever [" + t + "]"
      && NodeToSource(AstNode.Launch(body)) == "launch [" + t + "]"
      && NodeToSource(AstNode.If(a, body)) == "if " + s + " [" + t + "]"
      && NodeToSource(AstNode.IfElse(a, body, other)) == "ifelse " + s + " [" + t + "] [" + u + "]"
      && NodeToSource(AstNode.WaitUntil(body)) == "waituntil [" + t + "]"
      && NodeToSource(AstNode.Carefully(body, other)) == "carefully [" + t + "] [" + u + "]"
      && NodeToSource(AstNode.ForEach(name, a, body)) == "foreach \"" + name + "  " + s + " [" + t + "]"
      && NodeToSource(AstNode.While(body, other)) == "while [" + t + "] [" + u + "]"
      && NodeToSource(AstNode.Until(body, other)) == "until [" + t + "] [" + u + "]"
      && NodeToSource(AstNode.Output(a)) == "output " + s && NodeToSource(AstNode.Stop) == "stop"
  {
    hide BodyToSource, Spaced, Block;
    var s, t, u := NodeToSource(a), BodyToSource(body), BodyToSource(other);
    Joins("repeat", s, t);
    Joins("forever", t, u);
    Joins("launch", t, u);
    Joins("if", s, t);
    JoinsFour("ifelse", s, t, u);
    Joins("waituntil", t, u);
    Joins("carefully", t, u);
    JoinsFour("foreach", name, s, t);
    Joins("while", t, u);
    Joins("until", t, u);
    SpacedIs("output", s);
  }

  lemma SpacedIs(a: string, b: string)
    ensures Spaced(a, b) == a + " " + b
  {
  }

  /** The nodes of a list, block or call stand in their order, one blank between them. */
  lemma {:induction false} BodyJoins(x: seq<AstNode>, y: seq<AstNode>)
    ensures BodyToSource([]) == "" && (|x| == 1 ==> BodyToSource(x) == NodeToSource(x[0]))
    ensures x != [] && y != [] ==> BodyToSource(x + y) == BodyToSource(x) + " " + BodyToSource(y)
    decreases x
  {
    hide NodeToSource;
    if x != [] && y != [] {
      assert (x + y)[1..] == x[1..] + y;
      if |x| > 1 {
        BodyJoins(x[1..], y);
      } else {
        assert x[1..] + y == y;
      }
    }
  }

  /** A definition: the header with colons before the names, each statement on a line of its own behind two blanks, and `end`. */
  lemma DefinitionText(name: string, v: string, w: string, a: AstNode, b: AstNode)
    ensures var s, t := NodeToSource(a), NodeToSource(b);
      && ProcedureToSource(name, [], []) == "to " + name + "\n\nend"
      && ProcedureToSource(name, [v], [a]) == "to " + name + " :" + v + "\n  " + s + "\nend"
      && ProcedureToSource(name, [v, w], [a, b]) == "to " + name + " :" + v + " :" + w + "\n  " + s + "\n  " + t + "\nend"
  {
    hide NodeToSource;
    assert [v, w][1..] == [w] && [a, b][1..] == [b];
    assert LinesToSource([b]) == "  " + NodeToSource(b);
    assert LinesToSource([a, b]) == ("  " + NodeToSource(a)) + "\n" + ("  " + NodeToSource(b));
    assert ParamsToSource([w]) == ":" + w && ParamsToSource([v, w]) == (":" + v) + " " + (":" + w);
    TwoLines(name, v, w, NodeToSource(a), NodeToSource(b));
  }

  lemma TwoLines(name: string, v: string, w: string, s: string, t: string)
    ensures Lined(Spaced(Spaced("to", name), ":" + v), Lined("  " + s, "end")) == "to " + name + " :" + v + "\n  " + s + "\nend"
    ensures Lined(Spaced(Spaced("to", name), (":" + v) + " " + (":" + w)), Lined(("  " + s) + "\n" + ("  " + t), "end"))
         == "to " + name + " :" + v + " :" + w + "\n  " + s + "\n  " + t + "\nend"
  {
  }

  /** A file: the definitions with an empty line between them, and a line end behind the last. */
  lemma FileText(p: AstNode, q: AstNode)
    requires p.ProcDef? && q.ProcDef?
    ensures ProceduresToSource([]) == "\n"
    ensures ProceduresToSource([p]) == NodeToSource(p) + "\n"
    ensures ProceduresToSource([p, q]) == NodeToSource(p) + "\n\n" + NodeToSource(q) + "\n"
  {
    hide NodeToSource;
    assert [p, q][1..] == [q];
    assert JoinProcedures([q]) == NodeToSource(q);
    assert JoinProcedures([p, q]) == NodeToSource(p) + "\n" + ("" + "\n" + NodeToSource(q));
    assert NodeToSource(p) + "\n" + ("" + "\n" + NodeToSource(q)) == NodeToSource(p) + "\n\n" + NodeToSource(q);
  }
}
