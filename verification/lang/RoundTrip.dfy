/** Saving procedures and loading them again. */
module RoundTrip {
  import opened Tokens
  import opened Tokenizer
  import opened Ast
  import opened Grammar
  import opened Unparse
  import opened Printable
  import opened Printed
  import opened ParsedTrees
  import opened Reassociate
  import opened PrintLex
  import opened PrintParse
  import opened PrintedText
  import opened BarWeight
  import opened Spelling

  /** Reading a source text: lex it, then parse the tokens. */
  function ParseSource(source: string, arities: Arities): Result<seq<AstNode>> {
    match TokensOf(source)
    case Err(error) => Err(error)
    case Ok(ts) =>
      LexEndsOnce(source, START, true);
      Outcome(Grammar.Parse(ts, arities))
  }

  // ---- A file of procedures, as tokens ----

  function FileToks(procs: seq<AstNode>): seq<Tok> {
    if procs == [] then []
    else if |procs| == 1 then Toks(procs[0])
    else Toks(procs[0]) + [LINE] + ([LINE] + FileToks(procs[1..]))
  }

  /** The tokens of the printed file. */
  function FileToksAt(procs: seq<AstNode>): seq<Tok> {
    if procs == [] then []
    else if |procs| == 1 then ToksAt(procs[0], true)
    else ToksAt(procs[0], true) + [LINE] + ([LINE] + FileToksAt(procs[1..]))
  }

  /** Procedures whose words, names, operators and numbers the lexer can produce. */
  predicate FitProcs(procs: seq<AstNode>) {
    (forall p <- procs :: p.ProcDef?) && FitSeq(procs)
  }

  lemma {:induction false} EmitsFile(procs: seq<AstNode>)
    requires FitProcs(procs)
    ensures Emits(JoinProcedures(procs), FileToksAt(procs), true, procs == [])
    decreases procs
  {
    hide Emits, Fit, ToksAt, NodeToSource;
    if procs == [] {
      EmitsNothing(true);
    } else {
      var rest := procs[1..];
      EmitsNode(procs[0], true);
      EmitsFile(rest);
      if rest != [] {
        EmitsNothing(true);
        EmitsLined("", [], JoinProcedures(rest), FileToksAt(rest), true, true, false);
        assert [] + [LINE] + FileToksAt(rest) == [LINE] + FileToksAt(rest);
        EmitsLined(NodeToSource(procs[0]), ToksAt(procs[0], true), Lined("", JoinProcedures(rest)), [LINE] + FileToksAt(rest),
                   true, false, false);
      }
    }
  }

  /** The tokens of the text that `save` writes. */
  lemma LexesFile(procs: seq<AstNode>)
    requires FitProcs(procs)
    ensures TokensOf(ProceduresToSource(procs)).Ok?
    ensures Strip(TokensOf(ProceduresToSource(procs)).value) == FileToksAt(procs) + [LINE, EOF]
  {
    hide FitSeq, Lex, FileToksAt, JoinProcedures;
    EmitsFile(procs);
    var text := JoinProcedures(procs);
    assert ProceduresToSource(procs) == text + "\n";
    assert Boundary("\n") && "\n" == ['\n'] + "";
    ShapesSymbol('\n', "", procs == []);
    assert Shapes("", true) == Some([EOF]);
    assert Shapes(text + "\n", true) == Add(FileToksAt(procs), Some([LINE] + [EOF]));
    assert [LINE] + [EOF] == [LINE, EOF];
    ShapesOfLex(text + "\n", START, true);
  }

  /** Clean procedures are fit, and their printed tokens are those of their trees. */
  lemma {:induction false} CleanProcsAre(procs: seq<AstNode>, ar: Arities)
    ensures CleanProcs(procs, ar) <==> FitProcs(procs) && SignsLines(procs) && BuiltSeq(procs, ar)
    decreases procs
  {
    hide Clean, Fit, Signs, Built, After;
    if procs != [] {
      CleanIs(procs[0], ar, true);
      CleanProcsAre(procs[1..], After(procs[0], ar));
      assert forall p <- procs :: p == procs[0] || p in procs[1..];
    }
  }

  lemma {:induction false} TellsFile(procs: seq<AstNode>)
    requires FitSeq(procs)
    ensures Told(FileToks(procs), FileToksAt(procs), SignsLines(procs))
    decreases procs
  {
    hide Told, Fit, Signs, Toks, ToksAt;
    if procs == [] {
      ToldSame([]);
    } else {
      var first, at, rest := Toks(procs[0]), ToksAt(procs[0], true), procs[1..];
      TellsNode(procs[0], true);
      TellsFile(rest);
      ToldSame([LINE]);
      ToldJoin(first, at, Signs(procs[0], true), [LINE], [LINE], true);
      ToldJoin([LINE], [LINE], true, FileToks(rest), FileToksAt(rest), SignsLines(rest));
      ToldJoin(first + [LINE], at + [LINE], Signs(procs[0], true), [LINE] + FileToks(rest), [LINE] + FileToksAt(rest), SignsLines(rest));
    }
  }

  lemma {:induction false} CountFile(mark: Mark, procs: seq<AstNode>)
    ensures Count(mark, FileToks(procs)) == Count(mark, SeqToks(procs))
    decreases procs
  {
    hide Toks;
    if procs != [] {
      var first, rest := Toks(procs[0]), procs[1..];
      CountFile(mark, rest);
      assert first + [] == first;
      CountAppend(mark, first, SeqToks(rest));
      CountAppend(mark, first, [LINE]);
      CountAppend(mark, [LINE], FileToks(rest));
      CountAppend(mark, first + [LINE], [LINE] + FileToks(rest));
      CountOne(mark, LINE);
    }
  }

  lemma LexesClean(procs: seq<AstNode>, ar: Arities)
    requires CleanProcs(procs, ar)
    ensures forall p <- procs :: p.ProcDef?
    ensures TokensOf(ProceduresToSource(procs)).Ok?
    ensures Strip(TokensOf(ProceduresToSource(procs)).value) == FileToks(procs) + [LINE, EOF]
  {
    hide CleanProcs, FitSeq, BuiltSeq, SignsLines, FileToks, FileToksAt, ProceduresToSource, Lex, SeqToks;
    CleanProcsAre(procs, ar);
    LexesFile(procs);
    TellsFile(procs);
  }

  // ---- Parsing the file ----

  /** The only procedure of a file. */
  lemma EndsFile(first: AstNode, ts: seq<Token>, pos: nat)
    requires At(ts, pos, FileToks([first]) + [LINE])
    ensures FileToks([first]) == Toks(first)
    ensures At(ts, pos, Toks(first)) && pos + |Toks(first)| + 1 < |ts| && ts[pos + |Toks(first)|].Shape() == LINE
  {
    hide Toks, At;
    AtSplit(ts, pos, Toks(first), [LINE]);
    AtFirst(ts, pos + |Toks(first)|, LINE);
  }

  lemma Regroup<T>(a: seq<T>, b: seq<T>, c: seq<T>)
    ensures a + b + c == a + (b + c)
  {
  }

  lemma FileToksOf(procs: seq<AstNode>)
    requires |procs| > 1
    ensures FileToks(procs) + [LINE] == Toks(procs[0]) + ([LINE] + ([LINE] + (FileToks(procs[1..]) + [LINE])))
  {
    hide Toks, FileToks;
    var a, b := Toks(procs[0]), FileToks(procs[1..]);
    FileToksStep(procs);
    Regroup(a + [LINE], [LINE] + b, [LINE]);
    Regroup([LINE], b, [LINE]);
    Regroup(a, [LINE], [LINE] + (b + [LINE]));
  }

  lemma FileToksStep(procs: seq<AstNode>)
    requires |procs| > 1
    ensures FileToks(procs) == Toks(procs[0]) + [LINE] + ([LINE] + FileToks(procs[1..]))
  {
    hide Toks;
  }

  /** The tokens of a file are those of its first procedure and those of the rest, with a blank line between them. */
  lemma SplitsFile(procs: seq<AstNode>, ts: seq<Token>, pos: nat)
    requires |procs| > 1 && At(ts, pos, FileToks(procs) + [LINE])
    ensures var next := pos + |Toks(procs[0])|;
      && At(ts, pos, Toks(procs[0])) && next + 2 < |ts| && ts[next].Shape() == LINE && ts[next + 1].Shape() == LINE
      && At(ts, next + 2, FileToks(procs[1..]) + [LINE])
    ensures |FileToks(procs)| == |Toks(procs[0])| + 2 + |FileToks(procs[1..])|
  {
    hide Toks, At, FileToks;
    var first, rest := Toks(procs[0]), FileToks(procs[1..]) + [LINE];
    FileToksOf(procs);
    assert |FileToks(procs) + [LINE]| == |first| + 2 + |rest|;
    AtSplit(ts, pos, first, [LINE] + ([LINE] + rest));
    AtSplit(ts, pos + |first|, [LINE], [LINE] + rest);
    AtSplit(ts, pos + |first| + 1, [LINE], rest);
    AtFirst(ts, pos + |first|, LINE);
    AtFirst(ts, pos + |first| + 1, LINE);
  }

  lemma {:induction false} ParsesFile(procs: seq<AstNode>, ts: seq<Token>, st: State, done: seq<AstNode>)
    requires procs != [] && Ended(ts) && At(ts, st.pos, FileToks(procs) + [LINE])
    requires ts[st.pos + |FileToks(procs)| + 1].kind == TokenType.Eof
    requires CleanProcs(procs, st.arities) && CanonicalSeq(procs)
    ensures Program(ts, st, done).Done? && Program(ts, st, done).value == done + procs
    decreases procs
  {
    hide Expression, Toks, Clean, Canonical, After, At, FileToks;
    var rest := procs[1..];
    var st1 := Moved(st, Toks(procs[0]), After(procs[0], st.arities));
    if rest == [] {
      assert procs == [procs[0]];
      EndsFile(procs[0], ts, st.pos);
      StartsNode(ts, st.pos, procs[0]);
      ParsesWhole(procs[0], ts, st, true);
      SkipsOne(ts, st1);
      assert done + [procs[0]] == done + procs;
    } else {
      SplitsFile(procs, ts, st.pos);
      StartsNode(ts, st.pos, procs[0]);
      ParsesWhole(procs[0], ts, st, true);
      FileStarts(ts, st1.pos + 2, rest);
      SkipsOne(ts, Next(st1));
      ParsesFile(rest, ts, Next(Next(st1)), done + [procs[0]]);
      assert done + [procs[0]] + rest == done + procs;
    }
  }

  lemma FileStarts(ts: seq<Token>, pos: nat, procs: seq<AstNode>)
    requires procs != [] && At(ts, pos, FileToks(procs) + [LINE])
    ensures ts[pos].kind != TokenType.Newline && ts[pos].kind != TokenType.Eof
  {
    hide Toks, At;
    AtSplit(ts, pos, FileToks(procs), [LINE]);
    if |procs| > 1 {
      AtSplit(ts, pos, Toks(procs[0]) + [LINE], [LINE] + FileToks(procs[1..]));
      AtSplit(ts, pos, Toks(procs[0]), [LINE]);
    }
    StartsNode(ts, pos, procs[0]);
  }

  lemma ReloadsCanonical(procs: seq<AstNode>, ar: Arities, ts: seq<Token>)
    requires CleanProcs(procs, ar) && CanonicalSeq(procs)
    requires Ended(ts) && Strip(ts) == FileToks(procs) + [LINE, EOF]
    ensures Outcome(Grammar.Parse(ts, ar)) == Ok(procs)
  {
    hide CleanProcs, CanonicalSeq;
    var ks := FileToks(procs) + [LINE];
    assert FileToks(procs) + [LINE, EOF] == ks + [EOF];
    assert |ts| == |ks| + 1 && ts[|ks|].Shape() == EOF;
    forall i | 0 <= i < |ks| ensures ts[0 + i].Shape() == ks[i] {
      assert ts[i].Shape() == Strip(ts)[i];
    }
    assert At(ts, 0, ks);
    if procs == [] {
      AtFirst(ts, 0, LINE);
      SkipsOne(ts, State(0, ar));
    } else {
      FileStarts(ts, 0, procs);
      SkipsNothing(ts, State(0, ar));
      ParsesFile(procs, ts, State(0, ar), []);
      assert [] + procs == procs;
    }
  }

  // ---- The theorems ----

  lemma {:induction false} ReassocProcs(procs: seq<AstNode>, ar: Arities)
    requires CleanProcs(procs, ar)
    ensures CleanProcs(ReassocSeq(procs), ar) && FileToks(ReassocSeq(procs)) == FileToks(procs)
    decreases procs
  {
    hide Clean, Toks, After;
    if procs != [] {
      ReassocClean(procs[0], ar, true);
      ReassocToks(procs[0]);
      ReassocProcs(procs[1..], After(procs[0], ar));
      assert ReassocSeq(procs)[1..] == ReassocSeq(procs[1..]);
    }
  }

  /** Loading what `save` wrote gives the saved procedures, regrouped where parentheses would have been needed. */
  lemma SavedProceduresReload(procs: seq<AstNode>, ar: Arities)
    requires CleanProcs(procs, ar)
    ensures forall p <- procs :: p.ProcDef?
    ensures ParseSource(ProceduresToSource(procs), ar) == Ok(ReassocSeq(procs))
  {
    hide CleanProcs, Grammar.Parse, CanonicalSeq, Lex, ReassocSeq, FileToks, ProceduresToSource;
    LexesClean(procs, ar);
    ReassocProcs(procs, ar);
    ReassocSeqCanonical(procs);
    LexEndsOnce(ProceduresToSource(procs), START, true);
    ReloadsCanonical(ReassocSeq(procs), ar, TokensOf(ProceduresToSource(procs)).value);
  }

  lemma {:induction false} CountInStrip(mark: Mark, ts: seq<Token>, i: nat)
    requires i <= |ts|
    ensures CountIn(mark, ts, i) == Count(mark, Strip(ts)[..i])
    decreases i
  {
    if i > 0 {
      CountInStrip(mark, ts, i - 1);
      assert Strip(ts)[..i] == Strip(ts)[..i - 1] + [ts[i - 1].Shape()];
      CountAppend(mark, Strip(ts)[..i - 1], [ts[i - 1].Shape()]);
      CountOne(mark, ts[i - 1].Shape());
    }
  }

  /** What is loaded as it was saved was clean. */
  lemma ReloadedIsClean(procs: seq<AstNode>, ar: Arities)
    requires FitProcs(procs) && ParseSource(ProceduresToSource(procs), ar) == Ok(procs)
    ensures CleanProcs(procs, ar)
  {
    hide FitSeq, SignsLines, BuiltSeq, Grammar.Parse, Lex, FileToks, FileToksAt, ProceduresToSource, SeqToks, AfterSeq;
    LexesFile(procs);
    LexEndsOnce(ProceduresToSource(procs), START, true);
    var ts := TokensOf(ProceduresToSource(procs)).value;
    var n := |ts| - 1;
    ParseReads(ts, ar);
    assert Grammar.Parse(ts, ar).state.pos == n;
    var ks := FileToksAt(procs);
    assert ks + [LINE, EOF] == ks + [LINE] + [EOF] && Strip(ts)[..n] == ks + [LINE];
    TellsFile(procs);
    CountFile(Opening, procs);
    CountFile(Negative, procs);
    CountsFile(ts, n, ks, Opening);
    CountsFile(ts, n, ks, Negative);
    CleanProcsAre(procs, ar);
  }

  lemma CountsFile(ts: seq<Token>, n: nat, ks: seq<Tok>, mark: Mark)
    requires n <= |ts| && Strip(ts)[..n] == ks + [LINE]
    ensures CountIn(mark, ts, n) == Count(mark, ks) && CountIn(mark, ts, 0) == 0
  {
    CountInStrip(mark, ts, n);
    CountAppend(mark, ks, [LINE]);
    CountOne(mark, LINE);
  }

  // ---- What is loaded as it was saved can be written down ----

  lemma {:induction false} FileIsLight(procs: seq<AstNode>)
    requires forall p <- procs :: p.ProcDef?
    ensures Light(JoinProcedures(procs), FileToks(procs))
    decreases procs
  {
    hide Light, NodeToSource, Toks;
    if procs == [] {
      LightNothing();
    } else {
      var first, rest := NodeToSource(procs[0]), procs[1..];
      NodeIsLight(procs[0]);
      if rest != [] {
        FileIsLight(rest);
        LightNothing();
        LightWithLine("", JoinProcedures(rest), [], FileToks(rest));
        assert [] + [LINE] + FileToks(rest) == [LINE] + FileToks(rest);
        LightWithLine(first, Lined("", JoinProcedures(rest)), Toks(procs[0]), [LINE] + FileToks(rest));
      }
    }
  }

  lemma SavedIsLight(procs: seq<AstNode>)
    requires forall p <- procs :: p.ProcDef?
    ensures Light(ProceduresToSource(procs), SeqToks(procs))
  {
    hide JoinProcedures, FileToks, SeqToks;
    var text := JoinProcedures(procs);
    FileIsLight(procs);
    NoBars("\n");
    WeightJoin(text, "\n");
    CountFile(Led, procs);
    CountFile(Bars, procs);
  }

  /**
   * The bars of the text are those of the tree, and the tree has no more than the tokens, and these no more than the text: so
   * no word stood in bars, and no quoted word starts with one.
   */
  lemma ReloadedIsFit(procs: seq<AstNode>, ar: Arities)
    requires (forall p <- procs :: p.ProcDef?) && ParseSource(ProceduresToSource(procs), ar) == Ok(procs)
    ensures FitProcs(procs)
  {
    hide Grammar.Parse, Lex, ProceduresToSource, SeqToks, AfterSeq, BuiltSeq, AllTreeFit, AllLexFit, LexFit, Weight, FitSeq;
    var text := ProceduresToSource(procs);
    LexEndsOnce(text, START, true);
    ShapesOfLex(text, START, true);
    var ts := TokensOf(text).value;
    WeighsText(text, true);
    SavedIsLight(procs);
    ParseReads(ts, ar);
    var n := Grammar.Parse(ts, ar).state.pos;
    CountInGrows(Bars, ts, n);
    CountInStrip(Bars, ts, |ts|);
    assert Strip(ts)[..|ts|] == Strip(ts);
    assert CountIn(Bars, ts, 0) == 0;
    assert AllLexed(ts) by {
      forall t | t in ts ensures LexFit(t.Shape()) {
        var i :| 0 <= i < |ts| && ts[i] == t;
        assert Strip(ts)[i] == t.Shape();
      }
    }
    NoneLed(SeqToks(procs));
    FitSeqIs(procs);
  }

  lemma {:induction false} CountInGrows(mark: Mark, ts: seq<Token>, i: nat)
    requires i <= |ts|
    ensures CountIn(mark, ts, i) <= CountIn(mark, ts, |ts|)
    decreases |ts| - i
  {
    if i < |ts| {
      CountInGrows(mark, ts, i + 1);
    }
  }

  /**
   * Whatever the procedures: loading what `save` wrote gives back exactly them if and only if they are clean where they
   * stand in the file (every name and word one that can be written down, calls after the definitions that give them their inputs,
   * negative numbers where they may stand) and no operator needs parentheses.
   */
  lemma SavingIsFaithfulIff(procs: seq<AstNode>, ar: Arities)
    requires forall p <- procs :: p.ProcDef?
    ensures ParseSource(ProceduresToSource(procs), ar) == Ok(procs) <==> CleanProcs(procs, ar) && CanonicalSeq(procs)
  {
    hide FitSeq, CleanProcs, Grammar.Parse, CanonicalSeq, Lex, ReassocSeq, FileToks, ProceduresToSource;
    if ParseSource(ProceduresToSource(procs), ar) == Ok(procs) {
      ReloadedIsFit(procs, ar);
      ReloadedIsClean(procs, ar);
    }
    if CleanProcs(procs, ar) {
      SavedProceduresReload(procs, ar);
      ReassocSeqCanonical(procs);
      if CanonicalSeq(procs) {
        LexesClean(procs, ar);
        LexEndsOnce(ProceduresToSource(procs), START, true);
        ReloadsCanonical(procs, ar, TokensOf(ProceduresToSource(procs)).value);
      }
    }
  }

  /** What loading gives back is stable: saving it writes the same text, and loading that gives the same procedures. */
  lemma SavingTwiceIsStable(procs: seq<AstNode>, ar: Arities)
    requires CleanProcs(procs, ar)
    ensures (forall p <- procs :: p.ProcDef?) && (forall p <- ReassocSeq(procs) :: p.ProcDef?)
    ensures ParseSource(ProceduresToSource(procs), ar) == Ok(ReassocSeq(procs))
    ensures ProceduresToSource(ReassocSeq(procs)) == ProceduresToSource(procs)
  {
    hide CleanProcs, Grammar.Parse, ReassocSeq, JoinProcedures, Lex;
    SavedProceduresReload(procs, ar);
    ReassocFileText(procs);
  }

  // ---- Saved text that is loaded as another program ----

  /** Other procedures with the same printed tokens, if they are clean and need no parentheses, are what is loaded. */
  lemma LoadedInstead(saved: seq<AstNode>, loaded: seq<AstNode>, ar: Arities)
    requires FitProcs(saved) && CleanProcs(loaded, ar) && CanonicalSeq(loaded) && FileToksAt(saved) == FileToks(loaded)
    ensures ParseSource(ProceduresToSource(saved), ar) == Ok(loaded)
  {
    hide CleanProcs, CanonicalSeq, Grammar.Parse, Lex, FileToks, FileToksAt, ProceduresToSource, FitSeq;
    LexesFile(saved);
    LexEndsOnce(ProceduresToSource(saved), START, true);
    ReloadsCanonical(loaded, ar, TokensOf(ProceduresToSource(saved)).value);
  }
}
