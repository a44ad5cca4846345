/** The printer behind `save`. */
module Unparse {
  import opened Ast

  function Spaced(a: string, b: string): string {
    a + " " + b
  }

  function Lined(a: string, b: string): string {
    a + "\n" + b
  }

  function Block(body: string): string {
    "[" + body + "]"
  }

  function NodeToSource(node: AstNode): string
    decreases node, 0
  {
    match node
    case Number(lexeme) => lexeme
    case Word(text) => "\"" + text
    case Variable(name) => ":" + name
    case List(elements) => Block(BodyToSource(elements))
    case Infix(operator, left, right) => Spaced(NodeToSource(left), Spaced(operator, NodeToSource(right)))
    case Paren(name, args) => "(" + Spaced(name, BodyToSource(args)) + ")"
    case Call(name, args) => if args == [] then name else Spaced(name, BodyToSource(args))
    case ProcDef(name, params, body) => ProcedureToSource(name, params, body)
    case Repeat(count, body) => Spaced("repeat", Spaced(NodeToSource(count), Block(BodyToSource(body))))
    case Forever(body) => Spaced("forever", Block(BodyToSource(body)))
    case Launch(body) => Spaced("launch", Block(BodyToSource(body)))
    case If(condition, body) => Spaced("if", Spaced(NodeToSource(condition), Block(BodyToSource(body))))
    case IfElse(condition, thenBody, elseBody) =>
      Spaced("ifelse", Spaced(NodeToSource(condition),
                              Spaced(Block(BodyToSource(thenBody)), Block(BodyToSource(elseBody)))))
    case WaitUntil(test) => Spaced("waituntil", Block(BodyToSource(test)))
    case Carefully(body, handler) => Spaced("carefully", Spaced(Block(BodyToSource(body)), Block(BodyToSource(handler))))
    case ForEach(variable, list, body) =>
      Spaced("foreach", Spaced("\"" + variable, Spaced("", Spaced(NodeToSource(list), Block(BodyToSource(body))))))
    case While(test, body) => Spaced("while", Spaced(Block(BodyToSource(test)), Block(BodyToSource(body))))
    case Until(test, body) => Spaced("until", Spaced(Block(BodyToSource(test)), Block(BodyToSource(body))))
    case Output(value) => Spaced("output", NodeToSource(value))
    case Stop => "stop"
  }

  /** Nodes on one line, separated by single spaces. */
  function BodyToSource(body: seq<AstNode>): string
    decreases body, 0
  {
    if body == [] then ""
    else if |body| == 1 then NodeToSource(body[0])
    else Spaced(NodeToSource(body[0]), BodyToSource(body[1..]))
  }

  /** Statements on lines of their own, indented by two spaces. */
  function LinesToSource(body: seq<AstNode>): string
    decreases body, 0
  {
    if body == [] then ""
    else if |body| == 1 then "  " + NodeToSource(body[0])
    else Lined("  " + NodeToSource(body[0]), LinesToSource(body[1..]))
  }

  function ParamsToSource(params: seq<string>): string {
    if params == [] then ""
    else if |params| == 1 then ":" + params[0]
    else Spaced(":" + params[0], ParamsToSource(params[1..]))
  }

  function HeaderToSource(name: string, params: seq<string>): string {
    if params == [] then Spaced("to", name)
    else Spaced(Spaced("to", name), ParamsToSource(params))
  }

  function ProcedureToSource(name: string, params: seq<string>, body: seq<AstNode>): string
    decreases body, 1
  {
    Lined(HeaderToSource(name, params), Lined(LinesToSource(body), "end"))
  }

  /** Procedures separated by an empty line. */
  function JoinProcedures(procs: seq<AstNode>): string
    requires forall p <- procs :: p.ProcDef?
  {
    if procs == [] then ""
    else if |procs| == 1 then NodeToSource(procs[0])
    else Lined(NodeToSource(procs[0]), Lined("", JoinProcedures(procs[1..])))
  }

  /** The text that `save` writes. */
  function ProceduresToSource(procs: seq<AstNode>): string
    requires forall p <- procs :: p.ProcDef?
  {
    JoinProcedures(procs) + "\n"
  }
}
