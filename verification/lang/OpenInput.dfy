/** What a line end at the end of the input does: only an open bracket or an open definition waits for further lines. */
module OpenInput {
  import opened Tokens
  import opened Ast
  import opened Grammar
  import Prefix

  /** `us` says what `ts` says up to its end at `k`, and goes on with a line end there. */
  ghost predicate Continued(ts: seq<Token>, us: seq<Token>, k: nat) {
    && Ended(ts) && Ended(us) && k == |ts| - 1 && k < |us| && us[k].kind == TokenType.Newline
    && forall i :: 0 <= i < k ==> ts[i] == us[i] && ts[i].kind != TokenType.Eof
  }

  /** Where the parser passes over line ends it can go on behind them. */
  predicate IsOpen(error: LogoError) {
    error.Incomplete? && (error.message.MissingEnd? || error.message.MissingBracket?)
  }

  /** A success stays as it is; a failure for want of anything but more lines stays a failure, and nothing more is asked for. */
  predicate Decided<T(==)>(r: Parsed<T>, q: Parsed<T>) {
    && (r.Done? ==> q == r)
    && (r.Fail? && !IsOpen(r.error) ==> q.Fail? && !q.error.Incomplete?)
  }

  lemma {:induction false} DecidesNewlines(ts: seq<Token>, us: seq<Token>, k: nat, st: State)
    requires Within(ts, st) && Continued(ts, us, k)
    ensures SkipNewlines(ts, st).pos == k || SkipNewlines(us, st) == SkipNewlines(ts, st)
    decreases |ts| - st.pos
  {
    if ts[st.pos].kind == TokenType.Newline {
      DecidesNewlines(ts, us, k, Next(st));
    }
  }

  lemma {:induction false} DecidesParams(ts: seq<Token>, us: seq<Token>, k: nat, st: State, params: seq<string>)
    requires Within(ts, st) && Continued(ts, us, k)
    ensures Params(us, st, params) == Params(ts, st, params)
    decreases |ts| - st.pos
  {
    if ts[st.pos].kind == TokenType.Variable {
      DecidesParams(ts, us, k, Next(st), params + [ts[st.pos].value]);
    }
  }

  lemma {:induction false} DecidesExpression(ts: seq<Token>, us: seq<Token>, k: nat, st: State)
    requires Within(ts, st) && Continued(ts, us, k)
    ensures Decided(Expression(ts, st), Expression(us, st))
    decreases |ts| - st.pos, 3
  {
    hide Atom, InfixTail;
    var r := Atom(ts, st);
    DecidesAtom(ts, us, k, st);
    if r.Done? {
      DecidesInfixTail(ts, us, k, r.state, r.value);
    }
  }

  lemma {:induction false} DecidesInfixTail(ts: seq<Token>, us: seq<Token>, k: nat, st: State, left: AstNode)
    requires Within(ts, st) && Continued(ts, us, k)
    ensures Decided(InfixTail(ts, st, left), InfixTail(us, st, left))
    decreases |ts| - st.pos, 0
  {
    hide Atom;
    if ts[st.pos].kind == TokenType.Infix {
      var r := Atom(ts, Next(st));
      DecidesAtom(ts, us, k, Next(st));
      if r.Done? {
        DecidesInfixTail(ts, us, k, r.state, AstNode.Infix(ts[st.pos].value, left, r.value));
      }
    }
  }

  lemma {:induction false} DecidesAtom(ts: seq<Token>, us: seq<Token>, k: nat, st: State)
    requires Within(ts, st) && Continued(ts, us, k)
    ensures Decided(Atom(ts, st), Atom(us, st))
    decreases |ts| - st.pos, 2
  {
    hide ListLiteral, ParenExpr, WordExpr, NumberAt;
    if ts[st.pos].kind == TokenType.OpenBracket {
      DecidesList(ts, us, k, st);
    } else if ts[st.pos].kind == TokenType.OpenParen {
      DecidesParen(ts, us, k, st);
    } else if ts[st.pos].kind == TokenType.Word {
      DecidesWord(ts, us, k, st);
    } else if ts[st.pos].kind == TokenType.Number {
      DecidesNumber(ts, us, k, st);
    }
  }

  lemma DecidesNumber(ts: seq<Token>, us: seq<Token>, k: nat, st: State)
    requires Within(ts, st) && Continued(ts, us, k) && ts[st.pos].kind == TokenType.Number
    ensures us[st.pos] == ts[st.pos] && Decided(NumberAt(ts, st), NumberAt(us, st))
  {
  }

  lemma {:induction false} DecidesWord(ts: seq<Token>, us: seq<Token>, k: nat, st: State)
    requires Within(ts, st) && ts[st.pos].kind == TokenType.Word && Continued(ts, us, k)
    ensures us[st.pos] == ts[st.pos] && Decided(WordExpr(ts, st), WordExpr(us, st))
    decreases |ts| - st.pos, 1
  {
    hide ProcedureDef, SpecialForm, CallArgs, IsFormKeyword, ArityOf;
    var token := ts[st.pos];
    if token.value == "to" {
      DecidesProcedure(ts, us, k, Next(st), token);
    } else if IsFormKeyword(token.value) {
      DecidesForm(ts, us, k, Next(st), token.value);
    } else {
      DecidesCallArgs(ts, us, k, Next(st), token, ArityOf(st.arities, token.value), []);
    }
  }

  /** Two bracketed blocks in a row. */
  lemma {:induction false} DecidesBlocks(ts: seq<Token>, us: seq<Token>, k: nat, st: State)
    requires Within(ts, st) && Continued(ts, us, k)
    ensures Decided(ListBody(ts, st), ListBody(us, st))
    ensures var r := ListBody(ts, st);
      r.Done? ==> Decided(ListBody(ts, r.state), ListBody(us, r.state))
    decreases |ts| - st.pos, 1
  {
    hide ListBody;
    var r := ListBody(ts, st);
    DecidesBody(ts, us, k, st);
    if r.Done? {
      DecidesBody(ts, us, k, r.state);
    }
  }

  lemma {:induction false} DecidesForm(ts: seq<Token>, us: seq<Token>, k: nat, st: State, name: string)
    requires Within(ts, st) && IsFormKeyword(name) && Continued(ts, us, k)
    ensures Decided(SpecialForm(ts, st, name), SpecialForm(us, st, name))
    decreases |ts| - st.pos, 5
  {
    hide Expression, ListBody, ForEachForm, BlockForm;
    if name == "repeat" || name == "if" || name == "ifelse" || name == "output" || name == "op" {
      var r := Expression(ts, st);
      DecidesExpression(ts, us, k, st);
      if r.Done? {
        DecidesBlocks(ts, us, k, r.state);
      }
    } else if name == "foreach" {
      DecidesForEach(ts, us, k, st);
    } else {
      DecidesBlockForm(ts, us, k, st, name);
    }
  }

  lemma {:induction false} DecidesBlockForm(ts: seq<Token>, us: seq<Token>, k: nat, st: State, name: string)
    requires Within(ts, st) && Continued(ts, us, k)
    ensures Decided(BlockForm(ts, st, name), BlockForm(us, st, name))
    decreases |ts| - st.pos, 4
  {
    hide ListBody;
    DecidesBlocks(ts, us, k, st);
  }

  lemma {:induction false} DecidesForEach(ts: seq<Token>, us: seq<Token>, k: nat, st: State)
    requires Within(ts, st) && Continued(ts, us, k)
    ensures Decided(ForEachForm(ts, st), ForEachForm(us, st))
    decreases |ts| - st.pos, 4
  {
    hide Expression, ListBody;
    var name := Expression(ts, st);
    DecidesExpression(ts, us, k, st);
    if name.Done? && name.value.Word? {
      var list := Expression(ts, name.state);
      DecidesExpression(ts, us, k, name.state);
      if list.Done? {
        DecidesBody(ts, us, k, list.state);
      }
    }
  }

  lemma {:induction false} DecidesCallArgs(ts: seq<Token>, us: seq<Token>, k: nat, st: State, token: Token, arity: nat, args: seq<AstNode>)
    requires Within(ts, st) && |args| <= arity && Continued(ts, us, k)
    ensures Decided(CallArgs(ts, st, token, arity, args), CallArgs(us, st, token, arity, args))
    decreases |ts| - st.pos, 4
  {
    hide Expression;
    if |args| < arity && !AtEnd(ts, st) && ts[st.pos].kind != TokenType.Newline {
      var r := Expression(ts, st);
      DecidesExpression(ts, us, k, st);
      if r.Done? {
        DecidesCallArgs(ts, us, k, r.state, token, arity, args + [r.value]);
      }
    }
  }

  lemma {:induction false} DecidesProcedure(ts: seq<Token>, us: seq<Token>, k: nat, st: State, token: Token)
    requires Within(ts, st) && Continued(ts, us, k)
    ensures Decided(ProcedureDef(ts, st, token), ProcedureDef(us, st, token))
    decreases |ts| - st.pos, 0
  {
    hide Params, SkipNewlines, ListBody, ProcedureBody;
    if ts[st.pos].kind == TokenType.Word {
      var name := ts[st.pos].value;
      var (params, st1) := Params(ts, Next(st), []);
      var st1' := st1.(arities := st1.arities[name := |params|]);
      var st2 := SkipNewlines(ts, st1');
      DecidesParams(ts, us, k, Next(st), []);
      DecidesNewlines(ts, us, k, st1');
      if st2.pos == k {
        EndsOpen(ts, st2, token, name, []);
      } else if ts[st2.pos].kind == TokenType.OpenBracket {
        DecidesBody(ts, us, k, st2);
      } else {
        DecidesProcedureBody(ts, us, k, st2, token, name, []);
      }
    }
  }

  lemma EndsOpen(ts: seq<Token>, st: State, token: Token, name: string, body: seq<AstNode>)
    requires Within(ts, st) && AtEnd(ts, st)
    ensures var r := ProcedureBody(ts, st, token, name, body);
      r.Fail? && IsOpen(r.error)
  {
  }

  lemma {:induction false} DecidesProcedureBody(ts: seq<Token>, us: seq<Token>, k: nat, st: State, token: Token, name: string, body: seq<AstNode>)
    requires Within(ts, st) && Continued(ts, us, k) && st.pos < k
    ensures Decided(ProcedureBody(ts, st, token, name, body), ProcedureBody(us, st, token, name, body))
    decreases |ts| - st.pos, 4
  {
    hide Expression, SkipNewlines;
    if !(ts[st.pos].kind == TokenType.Word && ts[st.pos].value == "end") {
      var r := Expression(ts, st);
      DecidesExpression(ts, us, k, st);
      if r.Done? {
        DecidesNewlines(ts, us, k, r.state);
        if SkipNewlines(ts, r.state).pos < k {
          DecidesProcedureBody(ts, us, k, SkipNewlines(ts, r.state), token, name, body + [r.value]);
        }
      }
    }
  }

  lemma {:induction false} DecidesList(ts: seq<Token>, us: seq<Token>, k: nat, st: State)
    requires Within(ts, st) && ts[st.pos].kind == TokenType.OpenBracket && Continued(ts, us, k)
    ensures Decided(ListLiteral(ts, st), ListLiteral(us, st))
    decreases |ts| - st.pos, 0
  {
    hide ListElements, SkipNewlines;
    DecidesNewlines(ts, us, k, Next(st));
    var st1 := SkipNewlines(ts, Next(st));
    if st1.pos < k {
      DecidesElements(ts, us, k, st1, []);
    } else {
      ElementsOpen(ts, st1, []);
    }
  }

  lemma ElementsOpen(ts: seq<Token>, st: State, elements: seq<AstNode>)
    requires Within(ts, st) && AtEnd(ts, st)
    ensures var r := ListElements(ts, st, elements);
      r.Fail? && IsOpen(r.error)
  {
  }

  lemma {:induction false} DecidesElements(ts: seq<Token>, us: seq<Token>, k: nat, st: State, elements: seq<AstNode>)
    requires Within(ts, st) && Continued(ts, us, k) && st.pos < k
    ensures Decided(ListElements(ts, st, elements), ListElements(us, st, elements))
    decreases |ts| - st.pos, 4
  {
    hide RawAtom, SkipNewlines;
    if ts[st.pos].kind != TokenType.CloseBracket {
      var r := RawAtom(ts, st);
      DecidesRawAtom(ts, us, k, st);
      if r.Done? {
        DecidesNewlines(ts, us, k, r.state);
        if SkipNewlines(ts, r.state).pos < k {
          DecidesElements(ts, us, k, SkipNewlines(ts, r.state), elements + [r.value]);
        }
      }
    }
  }

  lemma {:induction false} DecidesRawAtom(ts: seq<Token>, us: seq<Token>, k: nat, st: State)
    requires Within(ts, st) && Continued(ts, us, k) && st.pos < k
    ensures Decided(RawAtom(ts, st), RawAtom(us, st))
    decreases |ts| - st.pos, 2
  {
    hide ListLiteral, NumberAt;
    if ts[st.pos].kind == TokenType.OpenBracket {
      DecidesList(ts, us, k, st);
    } else if ts[st.pos].kind == TokenType.Number {
      DecidesNumber(ts, us, k, st);
    }
  }

  lemma {:induction false} DecidesBody(ts: seq<Token>, us: seq<Token>, k: nat, st: State)
    requires Within(ts, st) && Continued(ts, us, k)
    ensures Decided(ListBody(ts, st), ListBody(us, st))
    decreases |ts| - st.pos, 0
  {
    hide BodyNodes, SkipNewlines;
    if ts[st.pos].kind == TokenType.OpenBracket {
      DecidesNewlines(ts, us, k, Next(st));
      var st1 := SkipNewlines(ts, Next(st));
      if st1.pos < k {
        DecidesBodyNodes(ts, us, k, st1, []);
      } else {
        BodyOpen(ts, st1, []);
      }
    }
  }

  lemma BodyOpen(ts: seq<Token>, st: State, body: seq<AstNode>)
    requires Within(ts, st) && AtEnd(ts, st)
    ensures var r := BodyNodes(ts, st, body);
      r.Fail? && IsOpen(r.error)
  {
  }

  lemma {:induction false} DecidesBodyNodes(ts: seq<Token>, us: seq<Token>, k: nat, st: State, body: seq<AstNode>)
    requires Within(ts, st) && Continued(ts, us, k) && st.pos < k
    ensures Decided(BodyNodes(ts, st, body), BodyNodes(us, st, body))
    decreases |ts| - st.pos, 4
  {
    hide Expression, SkipNewlines;
    if ts[st.pos].kind != TokenType.CloseBracket {
      var r := Expression(ts, st);
      DecidesExpression(ts, us, k, st);
      if r.Done? {
        DecidesNewlines(ts, us, k, r.state);
        if SkipNewlines(ts, r.state).pos < k {
          DecidesBodyNodes(ts, us, k, SkipNewlines(ts, r.state), body + [r.value]);
        }
      }
    }
  }

  lemma {:induction false} DecidesParen(ts: seq<Token>, us: seq<Token>, k: nat, st: State)
    requires Within(ts, st) && ts[st.pos].kind == TokenType.OpenParen && Continued(ts, us, k)
    ensures Decided(ParenExpr(ts, st), ParenExpr(us, st))
    decreases |ts| - st.pos, 0
  {
    hide Expression, ParenArgs;
    var st1 := Next(st);
    if ts[st1.pos].kind == TokenType.Word {
      DecidesParenArgs(ts, us, k, Next(st1), ts[st1.pos], []);
    } else {
      DecidesExpression(ts, us, k, st1);
    }
  }

  lemma {:induction false} DecidesParenArgs(ts: seq<Token>, us: seq<Token>, k: nat, st: State, name: Token, args: seq<AstNode>)
    requires Within(ts, st) && Continued(ts, us, k)
    ensures Decided(ParenArgs(ts, st, name, args), ParenArgs(us, st, name, args))
    decreases |ts| - st.pos, 4
  {
    hide Expression;
    if ts[st.pos].kind == TokenType.CloseParen {
    } else if st.pos == k {
      NothingStartsHere(us, st);
    } else {
      var r := Expression(ts, st);
      DecidesExpression(ts, us, k, st);
      if r.Done? {
        DecidesParenArgs(ts, us, k, r.state, name, args + [r.value]);
      }
    }
  }

  /** No expression starts with a line end. */
  lemma NothingStartsHere(us: seq<Token>, st: State)
    requires Within(us, st) && us[st.pos].kind == TokenType.Newline
    ensures Expression(us, st) == Fail(SyntaxAt(UnexpectedToken(us[st.pos].value), us[st.pos]), st)
  {
  }

  lemma {:induction false} DecidesProgram(ts: seq<Token>, us: seq<Token>, k: nat, st: State, nodes: seq<AstNode>)
    requires Within(ts, st) && Continued(ts, us, k)
    requires var r := Program(ts, st, nodes); r.Fail? && !IsOpen(r.error)
    ensures var q := Program(us, st, nodes); q.Fail? && !q.error.Incomplete?
    decreases |ts| - st.pos
  {
    hide Expression, SkipNewlines;
    if st.pos < k {
      var r := Expression(ts, st);
      DecidesExpression(ts, us, k, st);
      if r.Done? {
        DecidesNewlines(ts, us, k, r.state);
        DecidesProgram(ts, us, k, SkipNewlines(ts, r.state), nodes + [r.value]);
      }
    }
  }

  /**
   * Unless a bracket or a definition is open, what is wrong with the input, or missing from it, cannot be put right on
   * a further line.
   */
  lemma OnlyOpenInputGoesOn(ts: seq<Token>, us: seq<Token>, k: nat, arities: Arities)
    requires Continued(ts, us, k)
    requires var r := Parse(ts, arities); r.Fail? && !IsOpen(r.error)
    ensures var q := Parse(us, arities); q.Fail? && !q.error.Incomplete?
  {
    hide SkipNewlines, Program;
    var st := State(0, arities);
    DecidesNewlines(ts, us, k, st);
    if SkipNewlines(ts, st).pos == k {
      assert Program(ts, SkipNewlines(ts, st), []).Done? by { NothingTyped(ts, SkipNewlines(ts, st)); }
    } else {
      DecidesProgram(ts, us, k, SkipNewlines(ts, st), []);
    }
  }

  lemma NothingTyped(ts: seq<Token>, st: State)
    requires Within(ts, st) && AtEnd(ts, st)
    ensures Program(ts, st, []).Done?
  {
  }

  /** An open definition can be closed on the next line. */
  lemma OpenDefinitionCloses(to: Token, name: Token, line: Token, end: Token, eof: Token, arities: Arities)
    requires to.kind == TokenType.Word && to.value == "to" && name.kind == TokenType.Word
    requires line.kind == TokenType.Newline && end.kind == TokenType.Word && end.value == "end" && eof.kind == TokenType.Eof
    ensures var r := Parse([to, name, eof], arities); r.Fail? && IsOpen(r.error)
    ensures Outcome(Parse([to, name, line, end, eof], arities)) == Ok([ProcDef(name.value, [], [])])
  {
    var ts, us := [to, name, eof], [to, name, line, end, eof];
    assert ts[0] == to && ts[1] == name && ts[2] == eof;
    assert us[0] == to && us[1] == name && us[2] == line && us[3] == end && us[4] == eof;
    var ar := arities[name.value := 0];
    var st, st2 := State(0, arities), State(2, ar);
    assert SkipNewlines(ts, st) == st && SkipNewlines(us, st) == st;
    assert SkipNewlines(ts, st2) == st2;
    assert SkipNewlines(us, st2) == State(3, ar);
    EndsOpen(ts, st2, to, name.value, []);
    assert ProcedureDef(ts, State(1, arities), to) == Fail(IncompleteAt(MissingEnd(name.value), to), st2);
    assert Atom(ts, st) == Fail(IncompleteAt(MissingEnd(name.value), to), st2);
    var node := ProcDef(name.value, [], []);
    assert ProcedureBody(us, State(3, ar), to, name.value, []) == Done([], State(4, ar));
    assert ProcedureDef(us, State(1, arities), to) == Done(node, State(4, ar));
    assert Atom(us, st) == Done(node, State(4, ar));
    assert Expression(us, st) == Done(node, State(4, ar));
    assert SkipNewlines(us, State(4, ar)) == State(4, ar);
    assert Program(us, State(4, ar), [node]) == Done([node], State(4, ar));
    assert [] + [node] == [node];
  }

  /** But not every open bracket: where `foreach` wants its word, a list is refused once it is closed. */
  lemma OpenNameNeverCloses(us: seq<Token>, arities: Arities)
    requires Ended(us) && |us| > 2 && us[0].kind == TokenType.Word && us[0].value == "foreach" && us[1].kind == TokenType.OpenBracket
    ensures Parse(us, arities).Fail?
  {
    hide ListElements, ListBody;
    var st := State(0, arities);
    assert SkipNewlines(us, st) == st;
    ListIsNoWord(us, Next(st));
    assert ForEachForm(us, Next(st)).Fail?;
    assert Atom(us, st) == SpecialForm(us, Next(st), "foreach");
    assert Expression(us, st).Fail?;
  }

  lemma ListIsNoWord(us: seq<Token>, st: State)
    requires Within(us, st) && us[st.pos].kind == TokenType.OpenBracket
    ensures var r := Expression(us, st); r.Done? ==> !r.value.Word?
  {
    hide ListElements;
    var r := Atom(us, st);
    assert r.Done? ==> r.value.List?;
    if r.Done? {
      TailIsNoWord(us, r.state, r.value);
    }
  }

  lemma {:induction false} TailIsNoWord(us: seq<Token>, st: State, left: AstNode)
    requires Within(us, st) && !left.Word?
    ensures var r := InfixTail(us, st, left); r.Done? ==> !r.value.Word?
    decreases |us| - st.pos
  {
    hide Atom;
    if us[st.pos].kind == TokenType.Infix {
      var r := Atom(us, Next(st));
      if r.Done? {
        TailIsNoWord(us, r.state, AstNode.Infix(us[st.pos].value, left, r.value));
      }
    }
  }
}
