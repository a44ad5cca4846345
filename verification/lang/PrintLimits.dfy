/** Where reading back what was printed fails, and exactly when. */
module PrintLimits {
  import opened Tokens
  import opened Tokenizer
  import opened Ast
  import opened Grammar
  import opened Unparse
  import opened Printable
  import opened Printed
  import opened ParsedTrees
  import opened Reassociate
  import opened PrintLex
  import opened PrintParse
  import opened RoundTrip

  // ---- Parentheses ----

  /** Around anything that does not start with a word, parentheses change the parse but leave nothing in the tree. */
  lemma ParenthesesVanish(n: AstNode, ts: seq<Token>, st: State)
    requires Clean(n, st.arities, true) && Canonical(n) && Toks(n) != [] && Toks(n)[0].kind != TokenType.Word
    requires Ended(ts) && At(ts, st.pos, [Tok(TokenType.OpenParen, "(")] + Toks(n) + [Tok(TokenType.CloseParen, ")")])
    ensures Atom(ts, st) == Done(n, State(st.pos + |Toks(n)| + 2, After(n, st.arities)))
  {
    hide Expression, Toks, Clean, Canonical, After, At;
    var ko, kc := Tok(TokenType.OpenParen, "("), Tok(TokenType.CloseParen, ")");
    AtSplit(ts, st.pos, [ko] + Toks(n), [kc]);
    AtSplit(ts, st.pos, [ko], Toks(n));
    AtFirst(ts, st.pos, ko);
    AtFirst(ts, st.pos + 1 + |Toks(n)|, kc);
    StartsNode(ts, st.pos + 1, n);
    ParsesWhole(n, ts, Next(st), true);
  }

  lemma RegroupsRight(op1: string, x: AstNode, op2: string, y: AstNode, z: AstNode)
    requires Canonical(AstNode.Infix(op1, x, y)) && Canonical(AstNode.Infix(op2, y, z))
    requires Reassoc(x) == x && Reassoc(y) == y && Reassoc(z) == z
    ensures Reassoc(AstNode.Infix(op1, x, AstNode.Infix(op2, y, z))) == AstNode.Infix(op2, AstNode.Infix(op1, x, y), z)
  {
    var inner := AstNode.Infix(op2, y, z);
    assert Reassoc(inner) == Attach(y, op2, z) == inner;
    assert Attach(x, op1, y) == AstNode.Infix(op1, x, y);
    assert Attach(x, op1, inner) == AstNode.Infix(op2, AstNode.Infix(op1, x, y), z);
  }

  /** A procedure with one statement. */
  function Outputs(name: string, value: AstNode): AstNode {
    ProcDef(name, [], [Output(value)])
  }

  lemma OutputsIsClean(name: string, value: AstNode, ar: Arities)
    requires CleanName(name) && Clean(value, ar[name := 0], false)
    ensures CleanProcs([Outputs(name, value)], ar)
    ensures ReassocSeq([Outputs(name, value)]) == [Outputs(name, Reassoc(value))]
  {
    hide Clean, CleanName, StartsWith, Reassoc, After;
    var statement := Output(value);
    assert Clean(statement, ar[name := 0], true) by { OutputClean(value, ar[name := 0], true); }
    OutputStarts(value);
    assert [statement][1..] == [];
    assert CleanLines([statement], ar[name := 0]);
    OneOutput(name, value, ar);
    OneCleanProc(Outputs(name, value), ar);
  }

  lemma OneOutput(name: string, value: AstNode, ar: Arities)
    requires CleanName(name) && CleanLines([Output(value)], ar[name := 0]) && !StartsWith(Output(value), OPEN)
    ensures Clean(Outputs(name, value), ar, true)
    ensures ReassocSeq([Outputs(name, value)]) == [Outputs(name, Reassoc(value))]
  {
    hide CleanLines, CleanName, StartsWith;
    assert Reassoc(Output(value)) == Output(Reassoc(value));
    assert ReassocSeq([Output(value)]) == [Output(Reassoc(value))];
    assert Reassoc(Outputs(name, value)) == Outputs(name, Reassoc(value));
  }

  /** A saved `x op1 (y op2 z)` is loaded as `(x op1 y) op2 z`. */
  lemma RightOperandRegroups(f: string, op1: string, x: AstNode, op2: string, y: AstNode, z: AstNode, ar: Arities)
    requires Canonical(AstNode.Infix(op1, x, y)) && Canonical(AstNode.Infix(op2, y, z))
    requires Reassoc(x) == x && Reassoc(y) == y && Reassoc(z) == z
    requires CleanName(f) && Clean(AstNode.Infix(op1, x, AstNode.Infix(op2, y, z)), ar[f := 0], false)
    ensures var saved := [Outputs(f, AstNode.Infix(op1, x, AstNode.Infix(op2, y, z)))];
      var loaded := [Outputs(f, AstNode.Infix(op2, AstNode.Infix(op1, x, y), z))];
      ParseSource(ProceduresToSource(saved), ar) == Ok(loaded)
  {
    hide ParseSource, ProceduresToSource, Clean, CleanName, Reassoc, ReassocSeq, CleanProcs, Canonical;
    var e := AstNode.Infix(op1, x, AstNode.Infix(op2, y, z));
    OutputsIsClean(f, e, ar);
    SavedProceduresReload([Outputs(f, e)], ar);
    RegroupsRight(op1, x, op2, y, z);
  }

  /** A saved `output x * (y + z)` is loaded as `output x * y + z`. */
  lemma LostParentheses(x: string, y: string, z: string)
    requires CleanNumber(x) && CleanNumber(y) && CleanNumber(z) && !IsNegative(x)
    ensures var a, b, c := AstNode.Number(x), AstNode.Number(y), AstNode.Number(z);
      var saved := [ProcDef("f", [], [Output(AstNode.Infix("*", a, AstNode.Infix("+", b, c)))])];
      var loaded := [ProcDef("f", [], [Output(AstNode.Infix("+", AstNode.Infix("*", a, b), c))])];
      ParseSource(ProceduresToSource(saved), map[]) == Ok(loaded)
  {
    hide ParseSource, ProceduresToSource, CleanNumber;
    var a, b, c := AstNode.Number(x), AstNode.Number(y), AstNode.Number(z);
    var ar := map["f" := 0];
    LowerWord("f");
    assert Clean(AstNode.Infix("+", b, c), ar, true);
    assert Clean(a, ar, false) && After(a, ar) == ar;
    RightOperandRegroups("f", "*", a, "+", b, c, map[]);
  }

  lemma OutputStarts(value: AstNode)
    ensures !StartsWith(Output(value), WordTok("end")) && !StartsWith(Output(value), OPEN)
  {
  }

  // ---- Programs that come back as others ----

  /** A procedure that does some statements for ever. */
  function Endless(name: string, body: seq<AstNode>): AstNode {
    ProcDef(name, [], [Forever(body)])
  }

  lemma EndlessIs(name: string, body: seq<AstNode>, ar: Arities)
    requires CleanName(name)
    ensures Clean(Endless(name, body), ar, true) <==> CleanSeq(body, ar[name := 0], true)
    ensures Canonical(Endless(name, body)) <==> CanonicalSeq(body)
    ensures Fit(Endless(name, body)) <==> FitSeq(body)
    ensures After(Endless(name, body), ar) == AfterSeq(body, ar[name := 0])
  {
    hide CleanName, CleanSeq, CanonicalSeq, AfterSeq, FitSeq;
    var line := [Forever(body)];
    assert CanonicalSeq(line) <==> CanonicalSeq(body) by { OneCanonical(Forever(body)); }
    assert FitSeq(line) <==> FitSeq(body) by { OneFit(Forever(body)); }
    assert AfterSeq(line, ar[name := 0]) == AfterSeq(body, ar[name := 0]) by { OneAfter(Forever(body), ar[name := 0]); }
    OneCleanLine(Forever(body), ar[name := 0]);
  }

  lemma OneCleanLine(n: AstNode, ar: Arities)
    requires n.Forever?
    ensures CleanLines([n], ar) <==> Clean(n, ar, true)
  {
    hide Clean;
  }

  lemma OneCanonical(n: AstNode)
    ensures CanonicalSeq([n]) <==> Canonical(n)
  {
    hide Canonical;
  }

  lemma OneFit(n: AstNode)
    ensures FitSeq([n]) <==> Fit(n)
  {
    hide Fit;
  }

  lemma OneAfter(n: AstNode, ar: Arities)
    ensures AfterSeq([n], ar) == After(n, ar)
  {
    hide After;
  }

  lemma EndlessToks(name: string, saved: seq<AstNode>, loaded: seq<AstNode>)
    requires SeqToksAt(saved, true) == SeqToks(loaded)
    ensures ToksAt(Endless(name, saved), true) == Toks(Endless(name, loaded))
  {
    hide SeqToks, SeqToksAt;
    assert LineToksAt([Forever(saved)]) == ToksAt(Forever(saved), true);
    assert LineToks([Forever(loaded)]) == Toks(Forever(loaded));
    assert BlockToksAt(saved) == BlockToks(loaded);
  }

  /** Two bodies with the same printed tokens: the one that the parser can build is loaded for the other. */
  lemma LoadedForTheOther(name: string, saved: seq<AstNode>, loaded: seq<AstNode>, rest: seq<AstNode>, ar: Arities)
    requires CleanName(name) && FitSeq(saved) && SeqToksAt(saved, true) == SeqToks(loaded)
    requires CleanSeq(loaded, ar[name := 0], true) && CanonicalSeq(loaded)
    requires CleanProcs(rest, AfterSeq(loaded, ar[name := 0])) && CanonicalSeq(rest)
    ensures FitProcs([Endless(name, saved)] + rest)
    ensures ParseSource(ProceduresToSource([Endless(name, saved)] + rest), ar) == Ok([Endless(name, loaded)] + rest)
  {
    hide CleanName, FitSeq, CleanSeq, CanonicalSeq, AfterSeq, SeqToks, SeqToksAt, ParseSource, ProceduresToSource, CleanProcs, SignsLines, BuiltSeq;
    var first, other := Endless(name, saved), Endless(name, loaded);
    EndlessIs(name, saved, ar);
    EndlessIs(name, loaded, ar);
    EndlessToks(name, saved, loaded);
    CleanProcsAre(rest, AfterSeq(loaded, ar[name := 0]));
    TellsFile(rest);
    PrependProcs(first, other, rest, ar);
    LoadedInstead([first] + rest, [other] + rest, ar);
  }

  lemma PrependProcs(first: AstNode, other: AstNode, rest: seq<AstNode>, ar: Arities)
    requires first.ProcDef? && other.ProcDef? && Fit(first) && FitProcs(rest) && Clean(other, ar, true) && Canonical(other)
    requires CleanProcs(rest, After(other, ar)) && CanonicalSeq(rest)
    requires ToksAt(first, true) == Toks(other) && FileToksAt(rest) == FileToks(rest)
    ensures FitProcs([first] + rest) && CleanProcs([other] + rest, ar) && CanonicalSeq([other] + rest)
    ensures FileToksAt([first] + rest) == FileToks([other] + rest)
  {
    hide Fit, Clean, Canonical, Toks, ToksAt, After;
    assert ([first] + rest)[1..] == rest && ([other] + rest)[1..] == rest;
  }

  /**
   * A call that is saved before the definition of its procedure loses its inputs in a session that does not know
   * the procedure: they become statements of their own, and nothing is reported.
   */
  lemma CallBeforeDefinition(a: string, b: string, x: string, v: string)
    requires CleanName(a) && CleanName(b) && !IsKeyword(b) && a != b && CleanNumber(x) && !IsNegative(x) && CleanVariable(v)
    ensures var saved := [Endless(a, [Call(b, [AstNode.Number(x)])]), ProcDef(b, [v], [])];
      var loaded := [Endless(a, [Call(b, []), AstNode.Number(x)]), ProcDef(b, [v], [])];
      && CanonicalSeq(saved) && FitProcs(saved)
      && ParseSource(ProceduresToSource(saved), map[]) == Ok(loaded)
  {
    hide CleanNumber, CleanName, CleanVariable, IsKeyword, ParseSource, ProceduresToSource;
    var number, second := AstNode.Number(x), ProcDef(b, [v], []);
    var saved, loaded := [Call(b, [number])], [Call(b, []), number];
    var ar: Arities := map[];
    LowerIs(b);
    BareCall(b, number, ar[a := 0], x);
    NoBody(b, v, ar[a := 0]);
    assert CanonicalSeq([second]) by { OneCanonical(second); }
    assert CanonicalSeq([Endless(a, saved), second]) by {
      EndlessIs(a, saved, ar);
      assert [Endless(a, saved), second][1..] == [second];
      BareCall(b, number, ar[a := 0], x);
      assert CanonicalSeq([number]) by { OneCanonical(number); }
      OneCanonical(saved[0]);
    }
    LoadedForTheOther(a, saved, loaded, [second], ar);
    assert [Endless(a, saved)] + [second] == [Endless(a, saved), second];
    assert [Endless(a, loaded)] + [second] == [Endless(a, loaded), second];
  }

  /** What all the definitions over sequences say of a first node and the rest. */
  lemma FirstOf(n: AstNode, rest: seq<AstNode>, ar: Arities, before: bool)
    ensures FitSeq([n] + rest) <==> Fit(n) && FitSeq(rest)
    ensures CanonicalSeq([n] + rest) <==> Canonical(n) && CanonicalSeq(rest)
    ensures CleanSeq([n] + rest, ar, before) <==> Clean(n, ar, before) && CleanSeq(rest, After(n, ar), false)
    ensures AfterSeq([n] + rest, ar) == AfterSeq(rest, After(n, ar))
    ensures SeqToks([n] + rest) == Toks(n) + SeqToks(rest)
    ensures SeqToksAt([n] + rest, before) == ToksAt(n, before) + SeqToksAt(rest, false)
  {
    hide Fit, Canonical, Clean, After, Toks, ToksAt;
    assert ([n] + rest)[1..] == rest;
  }

  lemma NoNodes(ar: Arities, before: bool)
    ensures FitSeq([]) && CanonicalSeq([]) && CleanSeq([], ar, before) && AfterSeq([], ar) == ar
    ensures SeqToks([]) == [] && SeqToksAt([], before) == []
  {
  }

  /** A number that is a statement or an input. */
  lemma NumberIs(x: string, rest: seq<AstNode>, ar: Arities)
    requires CleanNumber(x) && !IsNegative(x)
    ensures var all := [AstNode.Number(x)] + rest;
      && (FitSeq(all) <==> FitSeq(rest)) && (CanonicalSeq(all) <==> CanonicalSeq(rest))
      && (CleanSeq(all, ar, false) <==> CleanSeq(rest, ar, false)) && AfterSeq(all, ar) == AfterSeq(rest, ar)
      && SeqToks(all) == [Tok(TokenType.Number, x)] + SeqToks(rest)
      && SeqToksAt(all, false) == [Tok(TokenType.Number, x)] + SeqToksAt(rest, false)
  {
    hide CleanNumber, FitSeq, CanonicalSeq, CleanSeq, AfterSeq, SeqToks, SeqToksAt;
    FirstOf(AstNode.Number(x), rest, ar, false);
  }

  lemma BareCall(b: string, number: AstNode, ar: Arities, x: string)
    requires CleanName(b) && !IsKeyword(b) && number == AstNode.Number(x) && CleanNumber(x) && !IsNegative(x) && ToLower(b) == b && b !in ar
    ensures FitSeq([Call(b, [number])]) && SeqToksAt([Call(b, [number])], true) == SeqToks([Call(b, []), number])
    ensures CleanSeq([Call(b, []), number], ar, true) && CanonicalSeq([Call(b, []), number])
    ensures AfterSeq([Call(b, []), number], ar) == ar
  {
    hide CleanName, CleanNumber, IsKeyword, FitSeq, CanonicalSeq, CleanSeq, AfterSeq, SeqToks, SeqToksAt;
    var call, bare := Call(b, [number]), Call(b, []);
    NoNodes(ar, false);
    NumberIs(x, [], ar);
    assert [number] + [] == [number] && [call] + [] == [call] && [bare] + [number] == [bare, number];
    FirstOf(call, [], ar, true);
    FirstOf(bare, [number], ar, true);
  }

  lemma NoBody(b: string, v: string, ar: Arities)
    requires CleanName(b) && CleanVariable(v)
    ensures CleanProcs([ProcDef(b, [v], [])], ar)
  {
    hide CleanName, CleanVariable;
    var n := ProcDef(b, [v], []);
    assert Clean(n, ar, true);
    assert [n][1..] == [];
  }

  lemma LowerIs(w: string)
    requires CleanName(w)
    ensures ToLower(w) == w
  {
  }

  /**
   * A negative second input is read as a subtraction from the first, and the statement that follows is taken for the
   * second input: the text is accepted as another program.
   */
  lemma NegativeInputSwallows(a: string, s: string, x: string, y: string, z: string, ar: Arities)
    requires CleanName(a) && CleanName(s) && !IsKeyword(s) && ArityOf(ar[a := 0], s) == 2
    requires CleanNumber(x) && !IsNegative(x) && CleanNumber(y) && IsNegative(y) && CleanNumber(z) && !IsNegative(z)
    ensures var saved := [Endless(a, [Call(s, [AstNode.Number(x), AstNode.Number(y)]), AstNode.Number(z)])];
      var loaded := [Endless(a, [Call(s, [AstNode.Infix("-", AstNode.Number(x), AstNode.Number(y[1..])), AstNode.Number(z)])])];
      && CanonicalSeq(saved) && FitProcs(saved)
      && ParseSource(ProceduresToSource(saved), ar) == Ok(loaded)
  {
    hide CleanNumber, CleanName, IsKeyword, ParseSource, ProceduresToSource, FitSeq;
    var p, q, r, t := AstNode.Number(x), AstNode.Number(y), AstNode.Number(z), AstNode.Number(y[1..]);
    var saved, loaded := [Call(s, [p, q]), r], [Call(s, [AstNode.Infix("-", p, t), r])];
    Swallowed(s, x, y, z, ar[a := 0]);
    assert CanonicalSeq([Endless(a, saved)]) by {
      EndlessIs(a, saved, ar);
      OneCanonical(Endless(a, saved));
    }
    assert CleanProcs([], AfterSeq(loaded, ar[a := 0])) && CanonicalSeq([]);
    LoadedForTheOther(a, saved, loaded, [], ar);
    assert [Endless(a, saved)] + [] == [Endless(a, saved)];
    assert [Endless(a, loaded)] + [] == [Endless(a, loaded)];
  }

  lemma Swallowed(s: string, x: string, y: string, z: string, ar: Arities)
    requires CleanName(s) && !IsKeyword(s) && ArityOf(ar, s) == 2
    requires CleanNumber(x) && !IsNegative(x) && CleanNumber(y) && IsNegative(y) && CleanNumber(z) && !IsNegative(z)
    ensures var saved := [Call(s, [AstNode.Number(x), AstNode.Number(y)]), AstNode.Number(z)];
      var loaded := [Call(s, [AstNode.Infix("-", AstNode.Number(x), AstNode.Number(y[1..])), AstNode.Number(z)])];
      FitSeq(saved) && CanonicalSeq(saved) && SeqToksAt(saved, true) == SeqToks(loaded) && CleanSeq(loaded, ar, true) && CanonicalSeq(loaded)
  {
    hide CleanNumber, CleanName, IsKeyword, ArityOf, FitSeq, CanonicalSeq, CleanSeq, SeqToks, SeqToksAt;
    SwallowedFits(s, x, y, z);
    SwallowedText(s, x, y, z);
    Unsigned(y);
    SwallowingCall(s, x, y[1..], z, ar);
  }

  lemma SwallowedFits(s: string, x: string, y: string, z: string)
    requires CleanName(s) && !IsKeyword(s)
    requires CleanNumber(x) && !IsNegative(x) && CleanNumber(y) && IsNegative(y) && CleanNumber(z) && !IsNegative(z)
    ensures var saved := [Call(s, [AstNode.Number(x), AstNode.Number(y)]), AstNode.Number(z)];
      FitSeq(saved) && CanonicalSeq(saved)
  {
    var p, q, r := AstNode.Number(x), AstNode.Number(y), AstNode.Number(z);
    hide CleanNumber, CleanName, IsKeyword, FitSeq, CanonicalSeq, CleanSeq, AfterSeq, SeqToks, SeqToksAt, Clean, After, Toks, ToksAt;
    var call := Call(s, [p, q]);
    NoNodes(map[], false);
    FirstOf(q, [], map[], false);
    FirstOf(p, [q], map[], false);
    FirstOf(r, [], map[], false);
    FirstOf(call, [r], map[], true);
    assert [q] + [] == [q] && [p] + [q] == [p, q] && [r] + [] == [r] && [call] + [r] == [call, r];
  }

  /** What is printed has the tokens of another program. */
  lemma SwallowedText(s: string, x: string, y: string, z: string)
    requires CleanNumber(x) && !IsNegative(x) && CleanNumber(y) && IsNegative(y) && CleanNumber(z) && !IsNegative(z)
    ensures var saved := [Call(s, [AstNode.Number(x), AstNode.Number(y)]), AstNode.Number(z)];
      var loaded := [Call(s, [AstNode.Infix("-", AstNode.Number(x), AstNode.Number(y[1..])), AstNode.Number(z)])];
      SeqToksAt(saved, true) == SeqToks(loaded)
  {
    hide CleanNumber, SeqToks, SeqToksAt;
    PrintedToks(s, x, y, z);
    TakenToks(s, x, y[1..], z);
  }

  lemma PrintedToks(s: string, x: string, y: string, z: string)
    requires CleanNumber(x) && !IsNegative(x) && CleanNumber(y) && IsNegative(y) && CleanNumber(z) && !IsNegative(z)
    ensures SeqToksAt([Call(s, [AstNode.Number(x), AstNode.Number(y)]), AstNode.Number(z)], true)
      == [WordTok(s), Tok(TokenType.Number, x), Tok(TokenType.Infix, "-"), Tok(TokenType.Number, y[1..]), Tok(TokenType.Number, z)]
  {
    var q, r, ar: Arities := AstNode.Number(y), AstNode.Number(z), map[];
    hide CleanNumber, FitSeq, CanonicalSeq, CleanSeq, AfterSeq, SeqToks, SeqToksAt, Fit, Canonical, Clean, After, Toks;
    var call := Call(s, [AstNode.Number(x), q]);
    NoNodes(ar, false);
    FirstOf(q, [], ar, false);
    NumberIs(x, [q], ar);
    NumberIs(z, [], ar);
    FirstOf(call, [r], ar, true);
    assert [q] + [] == [q] && [AstNode.Number(x)] + [q] == [AstNode.Number(x), q] && [r] + [] == [r] && [call] + [r] == [call, r];
  }

  lemma TakenToks(s: string, x: string, y: string, z: string)
    requires CleanNumber(z) && !IsNegative(z)
    ensures SeqToks([Call(s, [AstNode.Infix("-", AstNode.Number(x), AstNode.Number(y)), AstNode.Number(z)])])
      == [WordTok(s), Tok(TokenType.Number, x), Tok(TokenType.Infix, "-"), Tok(TokenType.Number, y), Tok(TokenType.Number, z)]
  {
    var minus, r, ar: Arities := AstNode.Infix("-", AstNode.Number(x), AstNode.Number(y)), AstNode.Number(z), map[];
    hide CleanNumber, FitSeq, CanonicalSeq, CleanSeq, AfterSeq, SeqToks, SeqToksAt, Fit, Canonical, Clean, After, ToksAt;
    var other := Call(s, [minus, r]);
    NoNodes(ar, false);
    NumberIs(z, [], ar);
    FirstOf(minus, [r], ar, false);
    FirstOf(other, [], ar, true);
    assert [r] + [] == [r] && [minus] + [r] == [minus, r] && [other] + [] == [other];
  }

  /** What is read instead: one call whose first input is a subtraction. */
  lemma SwallowingCall(s: string, x: string, y: string, z: string, ar: Arities)
    requires CleanName(s) && !IsKeyword(s) && ArityOf(ar, s) == 2
    requires CleanNumber(x) && !IsNegative(x) && CleanNumber(y) && !IsNegative(y) && CleanNumber(z) && !IsNegative(z)
    ensures var loaded := [Call(s, [AstNode.Infix("-", AstNode.Number(x), AstNode.Number(y)), AstNode.Number(z)])];
      CleanSeq(loaded, ar, true) && CanonicalSeq(loaded)
  {
    var p, r, t := AstNode.Number(x), AstNode.Number(z), AstNode.Number(y);
    hide CleanNumber, CleanName, IsKeyword, ArityOf, FitSeq, CanonicalSeq, CleanSeq, AfterSeq, SeqToks, SeqToksAt, Fit, Toks, ToksAt;
    var minus, other := AstNode.Infix("-", p, t), Call(s, [AstNode.Infix("-", p, t), r]);
    NoNodes(ar, false);
    NumberIs(z, [], ar);
    FirstOf(minus, [r], ar, false);
    FirstOf(other, [], ar, true);
    assert [r] + [] == [r] && [minus] + [r] == [minus, r] && [other] + [] == [other];
  }

  // ---- Words in bars ----

  /** A word in bars is one token, blanks and brackets in it included. */
  lemma BarredWordIs(w: string, before: bool)
    requires forall i :: 0 <= i < |w| ==> w[i] != '|'
    ensures Shapes("\"|" + w + "|", before) == Some([Tok(TokenType.QuotedWord, w), EOF])
  {
    hide Run;
    var s := "\"|" + w + "|";
    assert s[2..] == w + "|";
    RunIs(BarText, s[2..], |w|);
    BarWordScan(s, |w| + 2);
    assert s[2..|w| + 2] == w && s[|w| + 3..] == "";
    assert Shapes("", false) == Some([EOF]);
    assert [Tok(TokenType.QuotedWord, w)] + [EOF] == [Tok(TokenType.QuotedWord, w), EOF];
  }

  /** Printed without its bars, a word with a blank in it is loaded as a shorter word and a call. */
  lemma BarredWordSplits(a: string, x: string, y: string, ar: Arities)
    requires CleanName(a) && CleanQuoted(x) && CleanName(y) && !IsKeyword(y) && ArityOf(ar[a := 0], y) == 0
    ensures var saved := [Endless(a, [Output(AstNode.Word(x + " " + y))])];
      var loaded := [Endless(a, [Output(AstNode.Word(x)), Call(y, [])])];
      && ProceduresToSource(saved) == ProceduresToSource(loaded)
      && ParseSource(ProceduresToSource(saved), ar) == Ok(loaded)
  {
    hide CleanName, CleanQuoted, IsKeyword, ArityOf, ParseSource, ProceduresToSource, CleanSeq, CanonicalSeq;
    var word, call := Output(AstNode.Word(x)), Call(y, []);
    var saved, loaded := [Output(AstNode.Word(x + " " + y))], [word, call];
    assert BodyToSource(saved) == BodyToSource(loaded) by { SplitText(x, y); }
    EndlessText(a, saved, loaded);
    SplitIsClean(x, y, ar[a := 0]);
    EndlessIs(a, loaded, ar);
    OneCanonical(Endless(a, loaded));
    assert CleanProcs([Endless(a, loaded)], ar) by { OneCleanProc(Endless(a, loaded), ar); }
    SavingIsFaithfulIff([Endless(a, loaded)], ar);
  }

  lemma OneCleanProc(n: AstNode, ar: Arities)
    requires n.ProcDef? && Clean(n, ar, true)
    ensures CleanProcs([n], ar)
  {
    hide Clean;
    assert [n][1..] == [];
  }

  lemma SplitText(x: string, y: string)
    ensures BodyToSource([Output(AstNode.Word(x + " " + y))]) == BodyToSource([Output(AstNode.Word(x)), Call(y, [])])
  {
    var word, call := Output(AstNode.Word(x)), Call(y, []);
    assert [word, call][1..] == [call];
    assert NodeToSource(AstNode.Word(x)) == "\"" + x && NodeToSource(AstNode.Word(x + " " + y)) == "\"" + (x + " " + y);
    assert NodeToSource(word) == Spaced("output", "\"" + x) && NodeToSource(call) == y;
    assert BodyToSource([call]) == y;
    assert BodyToSource([word, call]) == Spaced(NodeToSource(word), BodyToSource([call]));
    assert NodeToSource(Output(AstNode.Word(x + " " + y))) == Spaced("output", "\"" + (x + " " + y));
    var o: string, q: string := "output", "\"";
    assert o + " " + (q + (x + " " + y)) == (o + " " + (q + x)) + " " + y;
  }

  lemma EndlessText(name: string, a: seq<AstNode>, b: seq<AstNode>)
    requires BodyToSource(a) == BodyToSource(b)
    ensures ProceduresToSource([Endless(name, a)]) == ProceduresToSource([Endless(name, b)])
  {
    hide BodyToSource;
    assert NodeToSource(Forever(a)) == NodeToSource(Forever(b));
    assert LinesToSource([Forever(a)]) == LinesToSource([Forever(b)]);
    assert NodeToSource(Endless(name, a)) == NodeToSource(Endless(name, b));
  }

  lemma SplitIsClean(x: string, y: string, ar: Arities)
    requires CleanQuoted(x) && CleanName(y) && !IsKeyword(y) && ArityOf(ar, y) == 0
    ensures var body := [Output(AstNode.Word(x)), Call(y, [])]; CleanSeq(body, ar, true) && CanonicalSeq(body)
  {
    hide CleanQuoted, CleanName, IsKeyword, ArityOf, FitSeq, SeqToks, SeqToksAt, Fit, Toks, ToksAt;
    var text, call := AstNode.Word(x), Call(y, []);
    var word := Output(text);
    NoNodes(ar, false);
    assert Clean(text, ar, false) && After(text, ar) == ar && Canonical(text);
    assert Clean(word, ar, true) && After(word, ar) == ar && Canonical(word);
    assert Clean(call, ar, false) && After(call, ar) == ar && Canonical(call);
    FirstOf(call, [], ar, false);
    FirstOf(word, [call], ar, true);
    assert [call] + [] == [call] && [word] + [call] == [word, call];
  }

  lemma Unsigned(y: string)
    requires CleanNumber(y) && IsNegative(y)
    ensures CleanNumber(y[1..]) && !IsNegative(y[1..])
  {
  }

  // ---- Single tokens: read back as they were exactly when clean ----

  lemma ReadsBack(s: string, t: Tok, before: bool, after: bool)
    requires Emits(s, [t], before, after)
    ensures Shapes(s, before) == Some([t, EOF])
  {
    assert Boundary("") && s + "" == s;
    assert Shapes("", after) == Some([EOF]);
    assert [t] + [EOF] == [t, EOF];
  }

  lemma QuotedReadsBackIff(t: string, before: bool)
    ensures Shapes("\"" + t, before) == Some([Tok(TokenType.QuotedWord, t), EOF]) <==> CleanQuoted(t)
  {
    hide Emits, Scan, Shapes, Run;
    var s := "\"" + t;
    if CleanQuoted(t) {
      EmitsQuoted(t, before);
      ReadsBack(s, Tok(TokenType.QuotedWord, t), before, false);
    } else {
      DirtyQuoted(t, before);
      FirstShape(s, before);
    }
  }

  lemma DirtyQuoted(t: string, before: bool)
    requires !CleanQuoted(t)
    ensures var l := Scan("\"" + t, before);
      !l.Skip? && (l.Emit? ==> l.value != t)
  {
    hide Run;
    var s := "\"" + t;
    assert s[1..] == t;
    if t != "" && t[0] == '|' {
      assert |s| > 1 && s[1] == '|';
    } else {
      var k :| 0 <= k < |t| && IsQuotedWordDelimiter(t[k]);
      assert Run(QuotedText, s[1..]) <= k;
      PlainQuotedScan(s, Run(QuotedText, s[1..]));
    }
  }

  lemma FirstShape(s: string, before: bool)
    requires s != []
    ensures var l := Scan(s, before);
      && (l.Emit? && Shapes(s, before).Some? ==>
            Shapes(s, before).value != [] && Shapes(s, before).value[0] == Tok(l.kind, l.value))
      && (l.Stuck? ==> Shapes(s, before) == None)
  {
    hide Scan;
  }

  lemma NumberReadsBackIff(x: string, before: bool)
    requires CleanNumber(x)
    ensures Shapes(x, before) == Some([Tok(TokenType.Number, x), EOF]) <==> (IsNegative(x) ==> before)
  {
    hide CountDots;
    if IsNegative(x) ==> before {
      EmitsNumber(x, before);
      ReadsBack(x, Tok(TokenType.Number, x), before, false);
    } else {
      FirstShape(x, before);
    }
  }

  /** After a word, a negative number is read as a minus sign and a number. */
  lemma {:induction false} NegativeSplits(x: string)
    requires CleanNumber(x) && IsNegative(x)
    ensures Shapes(x, false) == Some([Tok(TokenType.Infix, "-"), Tok(TokenType.Number, x[1..]), EOF])
  {
    hide CountDots, Run;
    var y := x[1..];
    assert CleanNumber(y) && !IsNegative(y);
    EmitsNumber(y, true);
    ReadsBack(y, Tok(TokenType.Number, y), true, false);
    assert x[..1] == "-";
    assert Scan(x, false) == Emit(TokenType.Infix, "-", 1);
    assert [Tok(TokenType.Infix, "-")] + ([Tok(TokenType.Number, y)] + [EOF]) == [Tok(TokenType.Infix, "-"), Tok(TokenType.Number, y), EOF];
  }

  /** So a call with a negative input, as `print (-5)` builds it, cannot be read back. */
  lemma NegativeInputIsRejected(name: string, x: string, ar: Arities)
    requires CleanName(name) && !IsKeyword(name) && ArityOf(ar, name) == 1 && CleanNumber(x) && IsNegative(x)
    ensures var r := ParseSource(NodeToSource(Call(name, [AstNode.Number(x)])), ar);
      r.Err? && r.error.Syntax? && r.error.message == UnexpectedToken("-")
  {
    hide Emits, CleanName, CleanNumber, Lex, Scan, Shapes, SpecialForm, ProcedureDef;
    var s := Spaced(name, x);
    assert BodyToSource([AstNode.Number(x)]) == x;
    assert NodeToSource(Call(name, [AstNode.Number(x)])) == s;
    assert Shapes(s, true) == Some([WordTok(name), Tok(TokenType.Infix, "-"), Tok(TokenType.Number, x[1..]), EOF]) by {
      CallShapes(name, x);
    }
    ShapesOfLex(s, START, true);
    LexEndsOnce(s, START, true);
    var ts := TokensOf(s).value;
    assert ts[0].Shape() == WordTok(name) && ts[1].Shape() == Tok(TokenType.Infix, "-") by {
      assert Strip(ts)[0] == WordTok(name) && Strip(ts)[1] == Tok(TokenType.Infix, "-");
    }
    var st := State(0, ar);
    SkipsNothing(ts, st);
    var e := SyntaxAt(UnexpectedToken("-"), ts[1]);
    OperatorFails(ts, Next(st));
    assert CallArgs(ts, Next(st), ts[0], 1, []) == Fail(e, Next(st));
    assert WordExpr(ts, st) == Fail(e, Next(st));
    assert Expression(ts, st) == Fail(e, Next(st));
  }

  lemma OperatorFails(ts: seq<Token>, st: State)
    requires Within(ts, st) && ts[st.pos].kind == TokenType.Infix
    ensures Expression(ts, st) == Fail(SyntaxAt(UnexpectedToken(ts[st.pos].value), ts[st.pos]), st)
  {
  }

  lemma CallShapes(name: string, x: string)
    requires CleanName(name) && CleanNumber(x) && IsNegative(x)
    ensures Shapes(Spaced(name, x), true) == Some([WordTok(name), Tok(TokenType.Infix, "-"), Tok(TokenType.Number, x[1..]), EOF])
  {
    hide Shapes, CleanName, CleanNumber;
    EmitsWord(name, true);
    var tail := " " + x;
    assert Spaced(name, x) == name + tail && Boundary(tail);
    ShapesBlank(x, false);
    NegativeSplits(x);
    assert Shapes(name + tail, true) == Add([WordTok(name)], Shapes(tail, false));
    assert [WordTok(name)] + [Tok(TokenType.Infix, "-"), Tok(TokenType.Number, x[1..]), EOF]
        == [WordTok(name), Tok(TokenType.Infix, "-"), Tok(TokenType.Number, x[1..]), EOF];
  }
}
