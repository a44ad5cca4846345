/** When the prompt asks for more lines: which of these inputs some further line completes. */
module Prompt {
  import opened Tokens
  import opened Tokenizer
  import opened Ast
  import opened Grammar
  import opened Printable
  import opened PrintLex
  import opened PrintParse
  import opened OpenInput
  import opened Closing
  import opened Repl

  // ---- The closing tokens as text ----

  function Text(ks: seq<Tok>): string {
    if ks == [] then "" else if |ks| == 1 then ks[0].value else ks[0].value + (" " + Text(ks[1..]))
  }

  lemma {:induction false} ClosersLex(ks: seq<Tok>, before: bool)
    requires forall t <- ks :: IsCloser(t)
    ensures Shapes(Text(ks), before) == Some(ks + [EOF])
    decreases ks
  {
    hide Shapes, Emits;
    if ks == [] {
      assert ks + [EOF] == [EOF];
      NothingToLex(before);
    } else if |ks| == 1 {
      CloserLexes(ks[0], "", before);
      NothingToLex(AfterCloser(ks[0]));
      assert ks[0].value + "" == ks[0].value && [ks[0]] + [EOF] == ks + [EOF];
    } else {
      var rest := Text(ks[1..]);
      CloserLexes(ks[0], " " + rest, before);
      ShapesBlank(rest, AfterCloser(ks[0]));
      ClosersLex(ks[1..], AfterCloser(ks[0]));
      assert [ks[0]] + (ks[1..] + [EOF]) == ks + [EOF];
    }
  }

  predicate AfterCloser(t: Tok) {
    t.kind == TokenType.OpenBracket
  }

  lemma NothingToLex(before: bool)
    ensures Shapes("", before) == Some([EOF])
  {
  }

  lemma CloserLexes(t: Tok, rest: string, before: bool)
    requires IsCloser(t) && Boundary(rest)
    ensures Shapes(t.value + rest, before) == Cons(t, Shapes(rest, AfterCloser(t)))
  {
    hide Shapes;
    if t == END {
      LowerWord("end");
      EmitsWord("end", before);
    } else if t == ZERO {
      ZeroIsNumber();
      EmitsNumber("0", before);
    } else {
      ShapesSymbol(t.value[0], rest, before);
      assert t.value == [t.value[0]];
    }
  }

  lemma ZeroIsNumber()
    ensures CleanNumber("0") && !IsNegative("0")
  {
    assert IsDigit("0"[0]);
    assert CountDots("0"[1..]) == 0;
  }

  // ---- Which input can be completed ----

  /**
   * A bracket or `end` is missing, and no `foreach` around it is still reading its word.
   */
  predicate CanBeCompleted(source: string, arities: Arities) {
    match TokensOf(source)
    case Err(_) => false
    case Ok(ts) =>
      LexEndsOnce(source, START, true);
      var r := Grammar.Parse(ts, arities);
      r.Fail? && IsOpen(r.error) && Name !in Pending(ts, arities)
  }

  /** The text that completes it. */
  function ClosingText(source: string, arities: Arities): string
    requires TokensOf(source).Ok?
  {
    LexEndsOnce(source, START, true);
    Text(ClosingToks(Pending(TokensOf(source).value, arities)))
  }

  /** What such text ends up as behind the line end. */
  lemma ClosingTokensFollow(a: string, pend: seq<Frame>)
    requires TokensOf(a).Ok?
    ensures var b := Text(ClosingToks(pend));
      TokensOf(a).value != [] && TokensOf(a + "\n" + b).Ok?
    ensures var us, k := TokensOf(a + "\n" + Text(ClosingToks(pend))).value, |TokensOf(a).value| - 1;
      ClosedAt(us, k, pend) && us[k + 1 + |ClosingToks(pend)|].kind == TokenType.Eof
  {
    hide Lex, ClosingToks, Shapes;
    var ks := ClosingToks(pend);
    var b := Text(ks);
    Closers(pend);
    ClosersLex(ks, true);
    ShapesOfLex(b, START, true);
    LexingIsCompositional(a, b);
    var ts, bs := TokensOf(a).value, TokensOf(b).value;
    var us, k := TokensOf(a + "\n" + b).value, |ts| - 1;
    assert |bs| == |ks| + 1;
    forall i | 0 <= i <= |ks| ensures us[k + 1 + i].Shape() == (ks + [EOF])[i] {
      assert us[k + 1 + i] == LowerToken(bs[i], Last(ts).line);
      assert Strip(bs)[i] == bs[i].Shape();
    }
  }

  lemma ClosingTextCompletes(a: string, arities: Arities)
    requires CanBeCompleted(a, arities)
    ensures Check(a + "\n" + ClosingText(a, arities), arities).Complete?
  {
    hide Lex, Grammar.Parse, Pending, ClosingToks;
    LexEndsOnce(a, START, true);
    var ts := TokensOf(a).value;
    var pend := Pending(ts, arities);
    ClosingTokensFollow(a, pend);
    LinesContinue(a, Text(ClosingToks(pend)));
    OpenInputSettles(ts, TokensOf(a + "\n" + Text(ClosingToks(pend))).value, |ts| - 1, arities);
  }

  /** Input for which more is asked although no `CanBeCompleted`: every further line leaves it incomplete or rejected. */
  lemma NothingCompletes(a: string, b: string, arities: Arities)
    requires Check(a, arities) == NeedsMore && !CanBeCompleted(a, arities)
    ensures !Check(a + "\n" + b, arities).Complete?
  {
    hide Lex, Grammar.Parse, Pending, ClosingToks, ClosedAt;
    LexEndsOnce(a, START, true);
    OnlyOpenInputWaits(a, b, arities);
    var ts := TokensOf(a).value;
    if IsOpen(Grammar.Parse(ts, arities).error) && TokensOf(a + "\n" + b).Ok? {
      LinesContinue(a, b);
      OpenInputSettles(ts, TokensOf(a + "\n" + b).value, |ts| - 1, arities);
    }
  }

  /**
   * Of the inputs for which the prompt asks for more, further lines can complete exactly those in which a bracket or `end`
   * is missing and no `foreach` around it is still reading its word.
   */
  lemma CompletableIff(a: string, arities: Arities)
    requires Check(a, arities) == NeedsMore
    ensures (exists b: string :: Check(a + "\n" + b, arities).Complete?) <==> CanBeCompleted(a, arities)
  {
    if CanBeCompleted(a, arities) {
      ClosingTextCompletes(a, arities);
    } else {
      forall b: string ensures !Check(a + "\n" + b, arities).Complete? {
        NothingCompletes(a, b, arities);
      }
    }
  }

  // ---- The loop of the prompt ----

  function JoinLines(lines: seq<string>): string {
    if lines == [] then "" else if |lines| == 1 then lines[0] else JoinLines(lines[..|lines| - 1]) + "\n" + lines[|lines| - 1]
  }

  datatype Reply = Executes(source: string) | Waits | Refuses(error: LogoError)

  /** A line is entered: the lines that are kept after it, and what the prompt does. */
  function Entered(lines: seq<string>, input: string, arities: Arities): (seq<string>, Reply) {
    var source := JoinLines(lines + [input]);
    match Check(source, arities)
    case Complete(_) => ([], Executes(source))
    case NeedsMore => (lines + [input], Waits)
    case Rejected(error) => (lines, Refuses(error))
  }

  /** The lines typed so far while more is asked for; none when the prompt is fresh. */
  class App {
    var multiLine: seq<string>

    constructor ()
      ensures multiLine == []
    {
      multiLine := [];
    }

    method SubmitInput(input: string, arities: Arities) returns (r: Reply)
      modifies this
      ensures (multiLine, r) == Entered(old(multiLine), input, arities)
    {
      hide Check, JoinLines;
      if multiLine != [] {
        multiLine := multiLine + [input];
        var source := JoinLines(multiLine);
        var outcome := CheckInput(source, arities);
        match outcome {
          case Complete(_) =>
            multiLine := [];
            r := Executes(source);
          case NeedsMore =>
            r := Waits;
          case Rejected(error) =>
            multiLine := multiLine[..|multiLine| - 1];
            assert multiLine == old(multiLine);
            r := Refuses(error);
        }
      } else {
        OneLine(input);
        assert multiLine + [input] == [input];
        var outcome := CheckInput(input, arities);
        match outcome {
          case Complete(_) => r := Executes(input);
          case NeedsMore =>
            multiLine := [input];
            r := Waits;
          case Rejected(error) => r := Refuses(error);
        }
      }
    }
  }

  lemma OneLine(input: string)
    ensures [] + [input] == [input] && JoinLines([input]) == input
  {
  }

  /** The lines kept after several inputs, one after the other. */
  function Session(lines: seq<string>, inputs: seq<string>, arities: Arities): seq<string>
    decreases inputs
  {
    if inputs == [] then lines else Session(Entered(lines, inputs[0], arities).0, inputs[1..], arities)
  }

  /** What the prompt does with the last of several inputs. */
  function LastReply(lines: seq<string>, inputs: seq<string>, arities: Arities): Reply
    requires inputs != []
  {
    Entered(Session(lines, inputs[..|inputs| - 1], arities), inputs[|inputs| - 1], arities).1
  }

  /** Whatever is entered at a fresh prompt: the lines that are kept are ones for which more is asked. */
  lemma {:induction false} KeptLinesNeedMore(lines: seq<string>, inputs: seq<string>, arities: Arities)
    requires lines != [] ==> Check(JoinLines(lines), arities) == NeedsMore
    ensures var kept := Session(lines, inputs, arities);
      kept != [] ==> Check(JoinLines(kept), arities) == NeedsMore
    decreases inputs
  {
    hide Check, JoinLines;
    if inputs != [] {
      KeptLinesNeedMore(Entered(lines, inputs[0], arities).0, inputs[1..], arities);
    }
  }

  /** Unless one of the inputs was executed, the prompt still holds the lines it held, with more behind them. */
  lemma {:induction false} KeepsLines(lines: seq<string>, inputs: seq<string>, arities: Arities)
    requires forall k :: 0 < k <= |inputs| ==> !LastReply(lines, inputs[..k], arities).Executes?
    ensures lines <= Session(lines, inputs, arities)
    decreases |inputs|
  {
    hide Check, JoinLines, Entered;
    if inputs != [] {
      var front, last := inputs[..|inputs| - 1], inputs[|inputs| - 1];
      forall k | 0 < k <= |front| ensures !LastReply(lines, front[..k], arities).Executes? {
        assert front[..k] == inputs[..k];
      }
      KeepsLines(lines, front, arities);
      SessionSnoc(lines, front, last, arities);
      assert inputs == front + [last] && inputs[..|inputs|] == inputs;
      EnteredKeeps(Session(lines, front, arities), last, arities);
    }
  }

  lemma EnteredKeeps(lines: seq<string>, input: string, arities: Arities)
    ensures var (kept, r) := Entered(lines, input, arities); !r.Executes? ==> lines <= kept
  {
    hide Check, JoinLines;
  }

  lemma {:induction false} SessionSnoc(lines: seq<string>, inputs: seq<string>, last: string, arities: Arities)
    ensures Session(lines, inputs + [last], arities) == Entered(Session(lines, inputs, arities), last, arities).0
    decreases inputs
  {
    hide Entered;
    if inputs == [] {
      assert [] + [last] == [last];
    } else {
      assert (inputs + [last])[1..] == inputs[1..] + [last];
      SessionSnoc(Entered(lines, inputs[0], arities).0, inputs[1..], last, arities);
    }
  }

  lemma {:induction false} JoinedLines(lines: seq<string>, more: seq<string>)
    requires lines != [] && more != []
    ensures JoinLines(lines + more) == JoinLines(lines) + "\n" + JoinLines(more)
    decreases more
  {
    var all, front, last := lines + more, more[..|more| - 1], more[|more| - 1];
    assert all[|all| - 1] == last && all[..|all| - 1] == lines + front;
    if front == [] {
      assert lines + front == lines;
    } else {
      JoinedLines(lines, front);
      var a, b := JoinLines(lines), JoinLines(front);
      assert (a + "\n" + b) + "\n" + last == a + "\n" + (b + "\n" + last);
    }
  }

  /**
   * What is entered at a fresh prompt, line by line, is kept while more is asked for, and is then taken as one text, the lines
   * joined by line ends: executed as a whole, with nothing kept, or without its last line if that is in error.
   */
  lemma {:induction false} LinesTogether(inputs: seq<string>, arities: Arities)
    requires inputs != [] && forall k :: 0 < k < |inputs| ==> Check(JoinLines(inputs[..k]), arities) == NeedsMore
    ensures match Check(JoinLines(inputs), arities)
      case Complete(_) => LastReply([], inputs, arities) == Executes(JoinLines(inputs)) && Session([], inputs, arities) == []
      case NeedsMore => LastReply([], inputs, arities) == Waits && Session([], inputs, arities) == inputs
      case Rejected(e) => LastReply([], inputs, arities) == Refuses(e) && Session([], inputs, arities) == inputs[..|inputs| - 1]
    decreases |inputs|
  {
    hide Check, JoinLines, Session;
    var front, last := inputs[..|inputs| - 1], inputs[|inputs| - 1];
    assert front + [last] == inputs;
    if front == [] {
      NothingEntered(arities);
    } else {
      forall k | 0 < k < |front| ensures Check(JoinLines(front[..k]), arities) == NeedsMore {
        assert front[..k] == inputs[..k];
      }
      LinesTogether(front, arities);
    }
    assert Session([], front, arities) == front;
    SessionSnoc([], front, last, arities);
  }

  lemma NothingEntered(arities: Arities)
    ensures Session([], [], arities) == []
  {
  }

  /** Lines that no further text completes hold the prompt for ever: whatever is entered, nothing is executed any more. */
  lemma {:induction false} StuckForEver(lines: seq<string>, inputs: seq<string>, arities: Arities)
    requires lines != [] && Check(JoinLines(lines), arities) == NeedsMore && !CanBeCompleted(JoinLines(lines), arities)
    requires inputs != []
    ensures !LastReply(lines, inputs, arities).Executes?
    decreases |inputs|
  {
    hide Check, JoinLines, CanBeCompleted;
    var front, last := inputs[..|inputs| - 1], inputs[|inputs| - 1];
    forall k | 0 < k <= |front| ensures !LastReply(lines, front[..k], arities).Executes? {
      StuckForEver(lines, front[..k], arities);
    }
    KeepsLines(lines, front, arities);
    var kept := Session(lines, front, arities);
    var more := kept[|lines|..] + [last];
    assert kept + [last] == lines + more;
    JoinedLines(lines, more);
    NothingCompletes(JoinLines(lines), JoinLines(more), arities);
  }

  /**
   * The prompt that has asked for more can still come to execute something exactly if the lines can be completed; then one more
   * line does it.
   */
  lemma PromptEndsIff(lines: seq<string>, arities: Arities)
    requires lines != [] && Check(JoinLines(lines), arities) == NeedsMore
    ensures (exists inputs :: inputs != [] && LastReply(lines, inputs, arities).Executes?) <==> CanBeCompleted(JoinLines(lines), arities)
    ensures CanBeCompleted(JoinLines(lines), arities) ==>
      Entered(lines, ClosingText(JoinLines(lines), arities), arities).1.Executes?
  {
    hide Check, JoinLines, CanBeCompleted, ClosingText;
    var a := JoinLines(lines);
    if CanBeCompleted(a, arities) {
      var b := TheClosingText(a, arities);
      ClosingTextCompletes(a, arities);
      OneLine(b);
      JoinedLines(lines, [b]);
      assert [b][..0] == [] && Session(lines, [], arities) == lines;
      assert LastReply(lines, [b], arities).Executes?;
    } else {
      forall inputs: seq<string> | inputs != [] ensures !LastReply(lines, inputs, arities).Executes? {
        StuckForEver(lines, inputs, arities);
      }
    }
  }

  lemma TheClosingText(a: string, arities: Arities) returns (b: string)
    requires CanBeCompleted(a, arities)
    ensures TokensOf(a).Ok? && b == ClosingText(a, arities)
  {
    b := ClosingText(a, arities);
  }

  // ---- Input that waits in vain ----

  lemma LexesAs(a: string, ks: seq<Tok>)
    requires Shapes(a, true) == Some(ks + [EOF])
    ensures TokensOf(a).Ok? && Ended(TokensOf(a).value) && |TokensOf(a).value| == |ks| + 1
    ensures forall i :: 0 <= i < |ks| ==> TokensOf(a).value[i].Shape() == ks[i]
    ensures TokensOf(a).value[|ks|].kind == TokenType.Eof
  {
    hide Lex, Shapes;
    ShapesOfLex(a, START, true);
    LexEndsOnce(a, START, true);
    var ts := TokensOf(a).value;
    forall i | 0 <= i < |ks| ensures ts[i].Shape() == ks[i] {
      assert Strip(ts)[i] == (ks + [EOF])[i];
    }
  }

  /** The name of a procedure with inputs: the prompt asks for more, and nothing helps. */
  lemma CallWaitsInVain(p: string, b: string, arities: Arities)
    requires CleanName(p) && !IsKeyword(p) && ArityOf(arities, p) > 0
    ensures Check(p, arities) == NeedsMore && Check(p + "\n" + b, arities).Rejected?
  {
    hide Shapes, Lex, CleanName, IsFormKeyword, ArityOf;
    EmitsWord(p, true);
    assert Boundary("") && p + "" == p;
    NothingToLex(false);
    LexesAs(p, [WordTok(p)]);
    var ts, st := TokensOf(p).value, State(0, arities);
    SkipsNothing(ts, st);
    var r := CallArgs(ts, Next(st), ts[0], ArityOf(arities, p), []);
    assert r == Fail(IncompleteAt(NeedsInputs(p, ArityOf(arities, p), 0), ts[0]), Next(st));
    assert WordExpr(ts, st) == Fail(r.error, r.state);
    assert Expression(ts, st) == Fail(r.error, r.state);
    assert Program(ts, st, []) == Fail(r.error, r.state);
    OnlyOpenInputWaits(p, b, arities);
  }

  /** A parenthesis and a name, whatever the name. */
  lemma ParenthesisWaitsInVain(p: string, b: string, arities: Arities)
    requires CleanName(p)
    ensures Check("(" + p, arities) == NeedsMore && Check("(" + p + "\n" + b, arities).Rejected?
  {
    hide Shapes, Lex, CleanName;
    EmitsWord(p, true);
    assert Boundary("") && p + "" == p;
    NothingToLex(false);
    ShapesSymbol('(', p, true);
    var open := Tok(TokenType.OpenParen, "(");
    assert [open] + ([WordTok(p)] + [EOF]) == [open, WordTok(p)] + [EOF];
    LexesAs("(" + p, [open, WordTok(p)]);
    var ts, st := TokensOf("(" + p).value, State(0, arities);
    SkipsNothing(ts, st);
    var r := ParenArgs(ts, Next(Next(st)), ts[1], []);
    assert r == Fail(IncompleteAt(MissingParen, ts[1]), Next(Next(st)));
    assert ParenExpr(ts, st) == Fail(r.error, r.state);
    assert Expression(ts, st) == Fail(r.error, r.state);
    assert Program(ts, st, []) == Fail(r.error, r.state);
    OnlyOpenInputWaits("(" + p, b, arities);
  }

  lemma NameTokens()
    ensures Shapes("foreach [", true) == Some([WordTok("foreach"), OPEN] + [EOF])
  {
    hide Shapes, CleanName;
    var f := "foreach";
    LowerWord(f);
    EmitsWord(f, true);
    assert f + " [" == "foreach [" && Boundary(" [") && " [" == " " + "[" && "[" == ['['] + "";
    ShapesBlank("[", false);
    ShapesSymbol('[', "", false);
    NothingToLex(true);
    assert [WordTok(f)] + ([OPEN] + [EOF]) == [WordTok(f), OPEN] + [EOF];
  }

  lemma NameParse(ts: seq<Token>, arities: Arities)
    requires |ts| == 3 && ts[0].Shape() == WordTok("foreach") && ts[1].Shape() == OPEN && ts[2].kind == TokenType.Eof
    ensures Grammar.Parse(ts, arities) == Fail(IncompleteAt(MissingBracket, ts[2]), State(2, arities))
    ensures Name in Pending(ts, arities)
  {
    var st, e := State(0, arities), IncompleteAt(MissingBracket, ts[2]);
    SkipsNothing(ts, st);
    SkipsNothing(ts, State(2, arities));
    assert ListElements(ts, State(2, arities), []) == Fail(e, State(2, arities));
    assert ListLiteral(ts, Next(st)) == Fail(e, State(2, arities));
    assert Expression(ts, Next(st)) == Fail(e, State(2, arities));
    NameForm(ts, st, e);
    NamePending(ts, st);
  }

  lemma NameForm(ts: seq<Token>, st: State, e: LogoError)
    requires Within(ts, st) && ts[st.pos].Shape() == WordTok("foreach") && Within(ts, Next(st)) && Expression(ts, Next(st)).Fail?
    requires Expression(ts, Next(st)).error == e
    ensures Program(ts, st, []) == Fail(e, Expression(ts, Next(st)).state)
    ensures Expression(ts, st).Fail?
  {
    var r := Expression(ts, Next(st));
    assert ForEachForm(ts, Next(st)) == Fail(e, r.state);
    assert SpecialForm(ts, Next(st), "foreach") == Fail(e, r.state);
    assert WordExpr(ts, st) == Fail(e, r.state);
    assert Expression(ts, st) == Fail(e, r.state);
  }

  lemma NamePending(ts: seq<Token>, st: State)
    requires Within(ts, st) && ts[st.pos].Shape() == WordTok("foreach") && Within(ts, Next(st)) && Expression(ts, Next(st)).Fail?
    requires Expression(ts, st).Fail?
    ensures Name in PendProgram(ts, st)
  {
    hide Expression, PendExpression;
    var pend := PendForEach(ts, Next(st));
    assert pend[|pend| - 1] == Name;
    assert PendForm(ts, Next(st), "foreach") == pend;
    assert PendWord(ts, st) == pend;
    assert PendAtom(ts, st) == pend;
    AtomPends(ts, st);
  }

  lemma AtomPends(ts: seq<Token>, st: State)
    requires Within(ts, st) && Expression(ts, st).Fail?
    ensures Atom(ts, st).Fail? ==> PendProgram(ts, st) == PendAtom(ts, st)
    ensures ts[st.pos].Shape() == WordTok("foreach") && Within(ts, Next(st)) && Expression(ts, Next(st)).Fail? ==> Atom(ts, st).Fail?
  {
    assert PendProgram(ts, st) == PendExpression(ts, st);
    if ts[st.pos].Shape() == WordTok("foreach") && Within(ts, Next(st)) && Expression(ts, Next(st)).Fail? {
      assert ForEachForm(ts, Next(st)).Fail?;
      assert SpecialForm(ts, Next(st), "foreach").Fail?;
      assert WordExpr(ts, st).Fail?;
    }
  }

  /** And an open bracket where `foreach` wants its word. */
  lemma NameWaitsInVain(b: string, arities: Arities)
    ensures Check("foreach [", arities) == NeedsMore && !CanBeCompleted("foreach [", arities)
    ensures !Check("foreach [" + "\n" + b, arities).Complete?
  {
    hide Shapes, Lex, Grammar.Parse, Pending;
    NameTokens();
    LexesAs("foreach [", [WordTok("foreach"), OPEN]);
    var ts := TokensOf("foreach [").value;
    assert ts[0].Shape() == WordTok("foreach") && ts[1].Shape() == OPEN;
    NameParse(ts, arities);
    NothingCompletes("foreach [", b, arities);
  }
}
