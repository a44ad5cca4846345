/** The syntax tree. A number is kept as the lexeme it was written with. */
module Ast {
  import opened Tokens

  datatype AstNode =
    | Number(lexeme: string)
    | Word(text: string)
    | Variable(name: string)
    | List(elements: seq<AstNode>)
    | Infix(operator: string, left: AstNode, right: AstNode)
    | Paren(name: string, args: seq<AstNode>)
    | Call(name: string, args: seq<AstNode>)
    | ProcDef(name: string, params: seq<string>, body: seq<AstNode>)
    | Repeat(count: AstNode, body: seq<AstNode>)
    | Forever(body: seq<AstNode>)
    | Launch(body: seq<AstNode>)
    | If(condition: AstNode, body: seq<AstNode>)
    | IfElse(condition: AstNode, thenBody: seq<AstNode>, elseBody: seq<AstNode>)
    | WaitUntil(test: seq<AstNode>)
    | Carefully(body: seq<AstNode>, handler: seq<AstNode>)
    | ForEach(variable: string, list: AstNode, body: seq<AstNode>)
    | While(test: seq<AstNode>, body: seq<AstNode>)
    | Until(test: seq<AstNode>, body: seq<AstNode>)
    | Output(value: AstNode)
    | Stop

  /** Procedure name to number of inputs. */
  type Arities = map<string, nat>

  /** How many inputs a call takes: unknown names take none. */
  function ArityOf(ar: Arities, name: string): nat {
    if ToLower(name) in ar then ar[ToLower(name)] else 0
  }

  /** The words that start a special form and so can never be called. */
  predicate IsKeyword(w: string) {
    w == "to" || IsFormKeyword(w)
  }

  predicate IsFormKeyword(w: string) {
    w == "repeat" || w == "forever" || w == "launch" || w == "foreach" || w == "while" || w == "until" ||
    w == "if" || w == "ifelse" || w == "waituntil" || w == "carefully" || w == "output" || w == "op" ||
    w == "stop" || w == "true" || w == "false"
  }
}
