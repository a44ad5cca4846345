/** The recursive-descent parser itself: one method per grammar rule, each computing its rule's function. */
module ParserClass {
  import opened Tokens
  import opened Ast
  import opened Grammar

  class Parser {
    var tokens: seq<Token>
    var pos: nat
    /** Known procedure arities: name to number of inputs. */
    var arities: Arities

    constructor (arities: Arities)
      ensures this.arities == arities && tokens == [] && pos == 0
    {
      this.tokens, this.pos, this.arities := [], 0, arities;
    }

    /** From now on calls of `name`, in upper or lower case, take `arity` inputs; all other calls take as many as before. */
    method SetArity(name: string, arity: nat)
      modifies `arities
      ensures arities == old(arities)[ToLower(name) := arity]
      ensures forall word :: ArityOf(arities, word) == if ToLower(word) == ToLower(name) then arity else ArityOf(old(arities), word)
    {
      arities := arities[ToLower(name) := arity];
    }

    ghost predicate Ready()
      reads this
    {
      Ended(tokens) && pos < |tokens|
    }

    ghost function Here(): State
      reads this
    {
      State(pos, arities)
    }

    /** The method's result and the state it leaves are those of the grammar function. */
    ghost predicate Agrees<T>(r: Result<T>, spec: Parsed<T>)
      reads this
    {
      r == Outcome(spec) && Here() == spec.state
    }

    method Parse(tokens: seq<Token>) returns (r: Result<seq<AstNode>>)
      requires Ended(tokens)
      modifies this
      ensures this.tokens == tokens && Agrees(r, Grammar.Parse(tokens, old(arities)))
    {
      hide Grammar.Expression;
      this.tokens := tokens;
      this.pos := 0;
      var nodes := [];
      SkipNewlines();
      while !IsAtEnd()
        invariant this.tokens == tokens && Ready()
        invariant Program(tokens, Here(), nodes) == Grammar.Parse(tokens, old(arities))
        decreases |tokens| - pos
      {
        var node :- ParseExpression();
        nodes := nodes + [node];
        SkipNewlines();
      }
      r := Ok(nodes);
    }

    method ParseExpression() returns (r: Result<AstNode>)
      requires Ready()
      modifies `pos, `arities
      ensures Agrees(r, Expression(tokens, old(Here())))
      decreases |tokens| - pos, 3
    {
      hide Grammar.Atom;
      var left :- ParseAtom();
      while Peek().kind == TokenType.Infix
        invariant Ready() && old(pos) < pos
        invariant Expression(tokens, old(Here())) == InfixTail(tokens, Here(), left)
        decreases |tokens| - pos
      {
        var op := Advance();
        var right :- ParseAtom();
        left := AstNode.Infix(op.value, left, right);
      }
      r := Ok(left);
    }

    method ParseNumber() returns (r: Result<AstNode>)
      requires Ready() && tokens[pos].kind == TokenType.Number
      modifies `pos
      ensures Agrees(r, NumberAt(tokens, old(Here())))
    {
      var token := Advance();
      r := if IsNumber(token.value) then Ok(AstNode.Number(token.value)) else Err(Panicked(token.value));
    }

    method ParseAtom() returns (r: Result<AstNode>)
      requires Ready()
      modifies `pos, `arities
      ensures Agrees(r, Atom(tokens, old(Here())))
      decreases |tokens| - pos, 2
    {
      hide Grammar.NumberAt, Grammar.ListLiteral, Grammar.ParenExpr, Grammar.WordExpr;
      var token := Peek();
      match token.kind {
        case Number =>
          r := ParseNumber();
        case QuotedWord =>
          var _ := Advance();
          r := Ok(AstNode.Word(token.value));
        case Variable =>
          var _ := Advance();
          r := Ok(AstNode.Variable(token.value));
        case OpenBracket =>
          r := ParseList();
        case OpenParen =>
          r := ParseParenExpr();
        case Word =>
          r := ParseWordExpr();
        case _ =>
          r := Err(SyntaxAt(UnexpectedToken(token.value), token));
      }
    }

    method ParseWordExpr() returns (r: Result<AstNode>)
      requires Ready() && tokens[pos].kind == TokenType.Word
      modifies `pos, `arities
      ensures Agrees(r, WordExpr(tokens, old(Here())))
      decreases |tokens| - pos, 1
    {
      hide Grammar.Expression, Grammar.SpecialForm, Grammar.ProcedureDef;
      var token := Advance();
      var name := token.value;
      if name == "to" {
        r := ParseProcedureDef(token);
      } else if IsFormKeyword(name) {
        r := ParseSpecialForm(name);
      } else {
        var arity := if ToLower(name) in arities then arities[ToLower(name)] else 0;
        var args: seq<AstNode> := [];
        ghost var first := Here();
        while |args| < arity
          invariant Ready() && old(pos) < pos && |args| <= arity
          invariant CallArgs(tokens, first, token, arity, []) == CallArgs(tokens, Here(), token, arity, args)
          decreases arity - |args|
        {
          if IsAtEnd() {
            return Err(IncompleteAt(NeedsInputs(name, arity, |args|), token));
          }
          if Peek().kind == TokenType.Newline {
            return Err(SyntaxAt(NeedsInputs(name, arity, |args|), token));
          }
          var arg :- ParseExpression();
          args := args + [arg];
        }
        r := Ok(Call(name, args));
      }
    }

    method ParseSpecialForm(name: string) returns (r: Result<AstNode>)
      requires Ready() && IsFormKeyword(name)
      modifies `pos, `arities
      ensures Agrees(r, SpecialForm(tokens, old(Here()), name))
      decreases |tokens| - pos, 5
    {
      hide Grammar.Expression, Grammar.ListBody, Grammar.ForEachForm;
      if name == "repeat" {
        var count :- ParseExpression();
        var body :- ParseListBody();
        r := Ok(Repeat(count, body));
      } else if name == "forever" {
        var body :- ParseListBody();
        r := Ok(Forever(body));
      } else if name == "launch" {
        var body :- ParseListBody();
        r := Ok(Launch(body));
      } else if name == "foreach" {
        r := ParseForeach();
      } else if name == "while" {
        var test :- ParseListBody();
        var body :- ParseListBody();
        r := Ok(While(test, body));
      } else if name == "until" {
        var test :- ParseListBody();
        var body :- ParseListBody();
        r := Ok(Until(test, body));
      } else if name == "if" {
        var condition :- ParseExpression();
        var body :- ParseListBody();
        r := Ok(If(condition, body));
      } else if name == "ifelse" {
        var condition :- ParseExpression();
        var thenBody :- ParseListBody();
        var elseBody :- ParseListBody();
        r := Ok(IfElse(condition, thenBody, elseBody));
      } else if name == "waituntil" {
        var test :- ParseListBody();
        r := Ok(WaitUntil(test));
      } else if name == "carefully" {
        var body :- ParseListBody();
        var handler :- ParseListBody();
        r := Ok(Carefully(body, handler));
      } else if name == "output" || name == "op" {
        var value :- ParseExpression();
        r := Ok(Output(value));
      } else if name == "stop" {
        r := Ok(Stop);
      } else {
        r := Ok(AstNode.Word(name));
      }
    }

    method ParseProcedureDef(token: Token) returns (r: Result<AstNode>)
      requires Ready()
      modifies `pos, `arities
      ensures Agrees(r, ProcedureDef(tokens, old(Here()), token))
      decreases |tokens| - pos, 0
    {
      hide Grammar.Expression, Grammar.ListBody;
      if Peek().kind != TokenType.Word {
        return Err(SyntaxAt(ExpectedProcedureName, token));
      }
      var nameToken := Advance();
      var name := nameToken.value;
      var params: seq<string> := [];
      while Peek().kind == TokenType.Variable
        invariant Ready() && old(pos) < pos && arities == old(arities)
        invariant Params(tokens, Next(old(Here())), []) == Params(tokens, Here(), params)
        decreases |tokens| - pos
      {
        var param := Advance();
        params := params + [param.value];
      }
      // Registered before the body is read, so that the procedure can call itself.
      arities := arities[name := |params|];
      SkipNewlines();
      if Peek().kind == TokenType.OpenBracket {
        var body :- ParseListBody();
        return Ok(ProcDef(name, params, body));
      }
      var body: seq<AstNode> := [];
      ghost var first := Here();
      while !IsAtEnd()
        invariant Ready() && old(pos) < pos
        invariant ProcedureBody(tokens, first, token, name, []) == ProcedureBody(tokens, Here(), token, name, body)
        decreases |tokens| - pos
      {
        if Peek().kind == TokenType.Word && Peek().value == "end" {
          var _ := Advance();
          return Ok(ProcDef(name, params, body));
        }
        var node :- ParseExpression();
        body := body + [node];
        SkipNewlines();
      }
      r := Err(IncompleteAt(MissingEnd(name), token));
    }

    /** `foreach "var list [body]`. */
    method ParseForeach() returns (r: Result<AstNode>)
      requires Ready()
      modifies `pos, `arities
      ensures Agrees(r, ForEachForm(tokens, old(Here())))
      decreases |tokens| - pos, 4
    {
      hide Grammar.Expression, Grammar.ListBody;
      var name :- ParseExpression();
      if !name.Word? {
        return Err(Runtime(ForeachNeedsName));
      }
      var list :- ParseExpression();
      var body :- ParseListBody();
      r := Ok(ForEach(name.text, list, body));
    }

    method ParseList() returns (r: Result<AstNode>)
      requires Ready()
      modifies `pos, `arities
      ensures Agrees(r, ListLiteral(tokens, old(Here())))
      decreases |tokens| - pos, 0
    {
      hide Grammar.RawAtom;
      var _ :- ExpectToken(TokenType.OpenBracket);
      var elements: seq<AstNode> := [];
      SkipNewlines();
      ghost var first := Here();
      while Peek().kind != TokenType.CloseBracket
        invariant Ready() && old(pos) < pos
        invariant ListElements(tokens, first, []) == ListElements(tokens, Here(), elements)
        decreases |tokens| - pos
      {
        if IsAtEnd() {
          return Err(IncompleteAt(MissingBracket, Peek()));
        }
        var node :- ParseRawAtom();
        elements := elements + [node];
        SkipNewlines();
      }
      var _ := ExpectToken(TokenType.CloseBracket);
      r := Ok(List(elements));
    }

    method ParseRawAtom() returns (r: Result<AstNode>)
      requires Ready()
      modifies `pos, `arities
      ensures Agrees(r, RawAtom(tokens, old(Here())))
      decreases |tokens| - pos, 2
    {
      hide Grammar.NumberAt, Grammar.ListLiteral;
      var token := Peek();
      match token.kind {
        case Number =>
          r := ParseNumber();
        case QuotedWord =>
          var _ := Advance();
          r := Ok(AstNode.Word(token.value));
        case Variable =>
          var _ := Advance();
          r := Ok(AstNode.Variable(token.value));
        case Word =>
          var _ := Advance();
          r := Ok(AstNode.Word(token.value));
        case OpenBracket =>
          r := ParseList();
        case _ =>
          r := Err(SyntaxAt(UnexpectedInList(token.value), token));
      }
    }

    method ParseListBody() returns (r: Result<seq<AstNode>>)
      requires Ready()
      modifies `pos, `arities
      ensures Agrees(r, ListBody(tokens, old(Here())))
      decreases |tokens| - pos, 0
    {
      hide Grammar.Expression;
      var _ :- ExpectToken(TokenType.OpenBracket);
      var body: seq<AstNode> := [];
      SkipNewlines();
      ghost var first := Here();
      while Peek().kind != TokenType.CloseBracket
        invariant Ready() && old(pos) < pos
        invariant BodyNodes(tokens, first, []) == BodyNodes(tokens, Here(), body)
        decreases |tokens| - pos
      {
        if IsAtEnd() {
          return Err(IncompleteAt(MissingBracket, Peek()));
        }
        var node :- ParseExpression();
        body := body + [node];
        SkipNewlines();
      }
      var _ := ExpectToken(TokenType.CloseBracket);
      r := Ok(body);
    }

    method ParseParenExpr() returns (r: Result<AstNode>)
      requires Ready()
      modifies `pos, `arities
      ensures Agrees(r, ParenExpr(tokens, old(Here())))
      decreases |tokens| - pos, 0
    {
      hide Grammar.Expression;
      var _ :- ExpectToken(TokenType.OpenParen);
      if Peek().kind == TokenType.Word {
        var nameToken := Advance();
        var args: seq<AstNode> := [];
        ghost var first := Here();
        while Peek().kind != TokenType.CloseParen
          invariant Ready() && old(pos) < pos
          invariant ParenArgs(tokens, first, nameToken, []) == ParenArgs(tokens, Here(), nameToken, args)
          decreases |tokens| - pos
        {
          if IsAtEnd() {
            return Err(IncompleteAt(MissingParen, nameToken));
          }
          var arg :- ParseExpression();
          args := args + [arg];
        }
        var _ := ExpectToken(TokenType.CloseParen);
        return Ok(Paren(nameToken.value, args));
      }
      var expr :- ParseExpression();
      var _ :- ExpectToken(TokenType.CloseParen);
      r := Ok(expr);
    }

    // ---- Helpers ----

    function Peek(): Token
      requires Ready()
      reads this
    {
      tokens[pos]
    }

    method Advance() returns (token: Token)
      requires Ready() && tokens[pos].kind != TokenType.Eof
      modifies `pos
      ensures token == old(tokens[pos]) && pos == old(pos) + 1 && Ready()
    {
      token := tokens[pos];
      pos := pos + 1;
    }

    method ExpectToken(kind: TokenType) returns (r: Result<Token>)
      requires Ready() && kind != TokenType.Eof
      modifies `pos
      ensures Agrees(r, Expect(tokens, old(Here()), kind))
    {
      var token := Peek();
      if token.kind != kind {
        return Err(SyntaxAt(Expected(kind, token.value), token));
      }
      token := Advance();
      r := Ok(token);
    }

    method SkipNewlines()
      requires Ready()
      modifies `pos
      ensures Here() == Grammar.SkipNewlines(tokens, old(Here()))
    {
      while tokens[pos].kind == TokenType.Newline
        invariant Ready()
        invariant Grammar.SkipNewlines(tokens, Here()) == Grammar.SkipNewlines(tokens, old(Here()))
        decreases |tokens| - pos
      {
        pos := pos + 1;
      }
    }

    predicate IsAtEnd()
      requires Ready()
      reads this
    {
      tokens[pos].kind == TokenType.Eof
    }
  }
}
