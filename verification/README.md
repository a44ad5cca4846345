# BrickLogo, verified

A Dafny model of the parts of BrickLogo in which something can go wrong without anyone noticing: a Logo front
end, a hardware layer that remembers what it last sent, and a set of LEGO wire protocols. Each directory models
one part and proves what it is relied on for.

- `lang/`: the lexer, the parser and the printer that `save` uses. The lexer and the parser are imperative and
  are proved equal to recursive definitions; about these it is proved that loading what was saved gives back the
  saved procedures (and exactly when), that errors are final, which input the prompt can still
  complete, and that lexing goes line by line.
- `hal/`: the port manager, with its wishes, records and flash timers, against a controller that sends everything
  every time; the scheduler thread under every interleaving; batched sensor reading.
- `rcx/`: firmware upload to the RCX as an alternating-bit protocol over a link that loses requests and replies,
  its framing, and the assembly of S-Record files.
- `net/`: replication of variables between a host and its clients as a state machine, and the binary codec.
- `dfu/`: what an STM32 download leaves in flash, cell by cell.
- `spike/`: the COBS variant, frame splitting and the running checksum of the SPIKE upload.
- `iface/`: the resynchronising frame parser of the BrickInterface and the masked outputs of Interface A.
- `common/`: bytes.

Classes stand for the objects that the program updates in place, and their methods for its methods: every
method is proved against a function on values, and the theorems are about these functions. Concurrency is modelled by
steps that interleave freely, each step being what happens under one lock or in one read or write.

Beside the theorems about runs, round trips and refinement, every part says outright what its basic steps do, in terms of inputs and
outputs and not of the functions that compute them: `Lexemes` (characters to tokens), `Readings` (tokens to trees and errors),
`CommandLaws` (commands to wishes and motors), `Connections` (writes to queues), `Regions` (regions to erased cells), `SrecText` and
`Utf8` (bytes to records and messages).

Five findings are stated as theorems. What `save` writes need not be what is loaded.
The printer adds no parentheses, so a saved `x * (y + z)` is loaded as `x * y + z` (`LostParentheses`). It writes no bars, so a word with
a blank in it comes back as a shorter word and a call (`BarredWordSplits`). Procedures are saved
in the order of a hash map and loaded with the arities of the session, so a call may stand before the definition that gives it
its inputs, and loses them (`CallBeforeDefinition`). A negative input is printed without the parentheses that made it an input: as
the only input it is refused (`NegativeInputIsRejected`), as the second of two it becomes a subtraction and the next statement an
input (`NegativeInputSwallows`). `SavingIsFaithfulIff` says, for all procedures, exactly when saving is faithful.
The prompt asks for more lines also where no line can help: behind the name of a procedure with inputs, behind a parenthesis and a name,
and in a bracket where `foreach` wants its word (`CallWaitsInVain`, `ParenthesisWaitsInVain`, `NameWaitsInVain`);
such a prompt executes nothing any more (`StuckForEver`),
and `PromptEndsIff` says exactly where a further line helps. A write made on a client while it is offline is undone there by
the snapshot on reconnection, while the host receives it (`OfflineWriteIsLost`, `SnapshotKeepsOwnIff`). An S1
line of three bytes aborts the parser, although its length was checked (`ThreeByteLineAborts`), and so does a COBS code
byte below 2 (`AbortsIff`). A SPIKE upload in chunks that are no multiple of four hashes other bytes than were announced, except in the
cases of `PaddingSplitsIff`, and may yet end with the announced checksum (`ChecksumsSplitIff`).

"Fit" trees are those whose names, words, operators and numbers the lexer can produce one by one. A tree is "clean" where it stands
if it is fit and the parser can build it there: calls with as many inputs as the arity known at that place, numbers negative only
where the lexer takes them as one token, raw elements in lists, procedure bodies that start with neither `[` nor `end`.

## Model

| member | source | states |
|---|---|---|
| `Tokenizer.Tokenize` | crates/bricklogo-lang/src/tokenizer.rs:26-305 | The one-pass lexer, with its index, line and column, returns for every text exactly the tokens, or the first error with its position, that cutting off one lexeme after another gives. |
| `Tokenizer.Run` | crates/bricklogo-lang/src/tokenizer.rs:277-281 | A run of characters of a class is the longest prefix in the class: everything in it belongs, and the character behind it, if there is one, does not. |
| `Tokenizer.Lex` | crates/bricklogo-lang/src/tokenizer.rs:26-305 | Whatever the text, a token list is never empty and ends in the end-of-file token. |
| `Tokenizer.LexEndsOnce` | crates/bricklogo-lang/src/tokenizer.rs:298-304 | Every token list ends in an end-of-file token, and holds none in any other place. |
| `Tokenizer.LexInfix` | crates/bricklogo-lang/src/tokenizer.rs:113-178 | Operators, one or two characters long; a minus sign before a digit is left to the numbers where a negative number may stand. |
| `Tokenizer.LexQuoted` | crates/bricklogo-lang/src/tokenizer.rs:197-244 | Quoted words, plain or in bars; a word in bars may cross lines, is placed on the line of its closing bar, and is an error if the bar is missing. |
| `Tokenizer.LexVariable` | crates/bricklogo-lang/src/tokenizer.rs:246-271 | A variable reference, or the error for a colon without a name. |
| `Tokenizer.LexWord` | crates/bricklogo-lang/src/tokenizer.rs:180-195 | Numbers and bare words take the longest run. |
| `Repl.ScanBeforeLine` | crates/bricklogo-lang/src/tokenizer.rs:33-305 | A lexeme does not depend on what stands behind the line end that follows it. |
| `Repl.LexLower` | crates/bricklogo-lang/src/tokenizer.rs:27-31 | Starting further down moves every token, and the position of an error, down by the same number of lines and changes nothing else. |
| `Repl.LexingIsCompositional` | crates/bricklogo-lang/src/tokenizer.rs:26-305 | If `a` lexes, `a`, a line end and `b` lex to the tokens of `a` without their end, the line end, and the tokens (or error) of `b` moved down; negative numbers and words in bars included. |
| `Lexemes.OneWord` | crates/bricklogo-lang/src/tokenizer.rs:273-289 | A text of word characters that starts no number is one word, its 26 capital letters made small, code 32 higher, and every other character as it was typed; then the end. |
| `Lexemes.OneVariable` | crates/bricklogo-lang/src/tokenizer.rs:246-271 | The same for a colon and a name. |
| `Lexemes.LexesWord` | crates/bricklogo-lang/src/tokenizer.rs:273-289 | The same wherever a word stands, in front of anything that is no word character: kind, spelling, line, column, and where the next lexeme starts. |
| `Lexemes.LexesVariable` | crates/bricklogo-lang/src/tokenizer.rs:246-271 | The same for a variable: quotes and colons belong to its name, operators and brackets end it. |
| `Lexemes.ColonAlone` | crates/bricklogo-lang/src/tokenizer.rs:256-262 | A colon without a name is an error behind the colon. |
| `Lexemes.LexesNumber` | crates/bricklogo-lang/src/tokenizer.rs:180-195 | A number is the run of figures and points, kept as typed. |
| `Lexemes.LexesNegative` | crates/bricklogo-lang/src/tokenizer.rs:115-144 | Where a negative number may stand, a minus sign in front of a figure belongs to the number. |
| `Lexemes.LexesOperator` | crates/bricklogo-lang/src/tokenizer.rs:113-178 | Each of the seven operator characters is a token by itself, unless it is half of a pair or the sign of a number. |
| `Lexemes.LexesPair` | crates/bricklogo-lang/src/tokenizer.rs:146-166 | `>=`, `<=` and `<>` are one token. |
| `Lexemes.LexesBracket` | crates/bricklogo-lang/src/tokenizer.rs:65-111 | The four brackets and parentheses, and that a negative number may follow the opening ones only. |
| `Lexemes.LexesBlank` | crates/bricklogo-lang/src/tokenizer.rs:44-49 | Blank, tab and carriage return are passed over, take one column and change nothing else. |
| `Lexemes.LexesLineEnd` | crates/bricklogo-lang/src/tokenizer.rs:51-63 | A line end is a token; the next column is 1 of the next line, and a negative number may follow. |
| `Lexemes.LexesComment` | crates/bricklogo-lang/src/tokenizer.rs:36-42 | A comment reaches up to the line end, is no token and, as in the code, does not count as columns. |
| `Lexemes.LexesQuoted` | crates/bricklogo-lang/src/tokenizer.rs:230-242 | A quoted word keeps its capitals, and operators and colons belong to it. |
| `Lexemes.LexesBarred` | crates/bricklogo-lang/src/tokenizer.rs:201-229 | A word in bars may hold everything but a bar; its token has the column of the quote and the line of the closing bar. |
| `Lexemes.MissingBarIs` | crates/bricklogo-lang/src/tokenizer.rs:215-221 | A missing bar is an error at the end of the text. |
| `Lexemes.EndLine` | crates/bricklogo-lang/src/tokenizer.rs:298-303 | The end token of every text stands on the line that its line ends make. |
| `Grammar.Parse` | crates/bricklogo-lang/src/parser.rs:26-36 | For every token list ending in an end-of-file token: the position stays inside the list, success means the end was reached, an incomplete input is reported only at the end, and only a number token that is no number aborts. |
| `Grammar.Expression` | crates/bricklogo-lang/src/parser.rs:38-50 | Every expression that parses takes at least one token, and the position never moves back or past the end, which is what makes all the mutual recursion terminate. |
| `Grammar.CallArgs` | crates/bricklogo-lang/src/parser.rs:91-128 | The inputs of a call: on success exactly as many nodes as the arity asks for. |
| `ParserClass.Parser.Parse` | crates/bricklogo-lang/src/parser.rs:26-36 | The loop over statements computes the grammar function of a whole input, arities of procedures defined on the way included. |
| `ParserClass.Parser.ParseExpression` | crates/bricklogo-lang/src/parser.rs:38-50 | Operators bind alike and group to the left: result and new position are those of the grammar. |
| `ParserClass.Parser.ParseAtom` | crates/bricklogo-lang/src/parser.rs:52-76 | Result and new state are those of the grammar rule for atoms. |
| `ParserClass.Parser.ParseWordExpr` | crates/bricklogo-lang/src/parser.rs:78-128 | Keywords, then calls with as many inputs as the known arity. The end of the input before the last input is reported as incomplete; a line end before it is a syntax error. |
| `ParserClass.Parser.ParseSpecialForm` | crates/bricklogo-lang/src/parser.rs:175-255 | The forms with counts, conditions and blocks follow their grammar rules. |
| `ParserClass.Parser.ParseProcedureDef` | crates/bricklogo-lang/src/parser.rs:130-173 | A definition registers the arity of its name before its body is read, so that recursive calls parse. |
| `ParserClass.Parser.ParseForeach` | crates/bricklogo-lang/src/parser.rs:226-243 | `foreach` takes an expression, a list and a block. The expression must come out as a word literal; anything else is the runtime error, also a bare word other than `true` and `false`, since it is read as a call. |
| `ParserClass.Parser.ParseList` | crates/bricklogo-lang/src/parser.rs:258-275 | `[...]` as data. |
| `ParserClass.Parser.ParseRawAtom` | crates/bricklogo-lang/src/parser.rs:278-304 | The elements of a list: numbers, quoted and bare words, variables and sub-lists; every other token, operators included, is refused. |
| `ParserClass.Parser.ParseListBody` | crates/bricklogo-lang/src/parser.rs:307-324 | `[...]` as code. |
| `ParserClass.Parser.ParseParenExpr` | crates/bricklogo-lang/src/parser.rs:326-348 | A word after the parenthesis takes all that follows as inputs; anything else is read as an expression and the parentheses are dropped. |
| `ParserClass.Parser.ExpectToken` | crates/bricklogo-lang/src/parser.rs:362-372 | The expected token is taken, or the syntax error names what stands there. |
| `ParserClass.Parser.SkipNewlines` | crates/bricklogo-lang/src/parser.rs:374-379 | Stops at the first token that is no line end. |
| `Prefix.SameParse` | crates/bricklogo-lang/src/parser.rs:26-384 | The outcome of a parse, error and position included, depends only on the tokens up to where it stopped. |
| `Prefix.ErrorsArePermanent` | crates/bricklogo-lang/src/parser.rs:38-348 | An error found before the end of what was read is final: every continuation, on the same line or another, gives the same error at the same place. So is the abort on a malformed number, even if it is the last token. |
| `Prefix.IncompleteMeansAllRead` | crates/bricklogo-lang/src/parser.rs:38-348 | Success and a request for more happen only after every token before the end has been consumed. |
| `Prefix.ErrorsAtTheEndMayGoAway` | crates/bricklogo-lang/src/parser.rs:38-50 | The restriction is needed: for a variable and an operator, the syntax error at the end-of-file token goes away when a variable follows on the same line. Further lines are another matter (`CompletableIff`). |
| `Prefix.WellFormedNumbersNeverAbort` | crates/bricklogo-lang/src/parser.rs:54-60 | With well-formed number lexemes no parse aborts. |
| `Repl.CheckInput` | crates/bricklogo-lang/src/check.rs:13-24 | Complete, incomplete or in error, as the lexer and the parser say. |
| `Repl.FurtherLinesKeepTheError` | crates/bricklogo-tui/src/app.rs:320-330 | An error before the end of the typed text, or a malformed number at its end, stays with its position whatever lines are typed after it; a later line can only add a lexical error, which is reported instead. |
| `Repl.MoreIsAskedForAtTheEnd` | crates/bricklogo-tui/src/app.rs:320-330 | More lines are asked for only when the parser has used up everything typed so far. |
| `OpenInput.OnlyOpenInputGoesOn` | crates/bricklogo-lang/src/parser.rs:38-379 | Whatever the parser finds wrong or missing, at the very end of the input too, stays a plain error when a line end and anything else follow, unless what is missing is the closing bracket of a list or block or the `end` of a definition. Inputs of a call and closing parentheses, for which more is asked, are among the lost cases. |
| `Repl.OnlyOpenInputWaits` | crates/bricklogo-lang/src/check.rs:13-24 | The same at the prompt: unless a bracket or a definition is open, the typed text is rejected with every further line, also where the prompt has just asked for more. |
| `OpenInput.OpenDefinitionCloses` | crates/bricklogo-lang/src/parser.rs:159-173 | An example: `to` and a name, without parameters and statements, is completed by `end` on the next line. |
| `Closing.OpenInputSettles` | crates/bricklogo-lang/src/parser.rs:38-348 | Input that stops for want of a bracket or `end`, continued behind a line end in any way: while a `foreach` around the end is still reading its word, every continuation fails; else the closing tokens, innermost construct first (brackets, `end`, missing inputs, parentheses, missing blocks), complete it. |
| `Prompt.CompletableIff` | crates/bricklogo-tui/src/app.rs:320-330 | Of all inputs for which the prompt asks for more, some further text completes exactly those in which a bracket or `end` is missing and no `foreach` around the end is still reading its word. |
| `Prompt.ClosingTextCompletes` | crates/bricklogo-lang/src/check.rs:13-24 | For these the text is given: one line of closing tokens. |
| `Prompt.App.SubmitInput` | crates/bricklogo-tui/src/app.rs:308-371 | A line is added to the kept ones and checked with them: executed as a whole, kept while more is asked for, or dropped again with its error. |
| `Prompt.KeptLinesNeedMore` | crates/bricklogo-tui/src/app.rs:315-329 | After any inputs to a fresh prompt, the lines that are kept are ones for which more is asked. |
| `Prompt.LinesTogether` | crates/bricklogo-tui/src/app.rs:308-371 | Lines entered at a fresh prompt are kept while more is asked for and then taken as one text, joined by line ends: executed as a whole with nothing kept, or without the last line if that is in error. |
| `Prompt.JoinedLines` | crates/bricklogo-tui/src/app.rs:315-316 | The text of several lines is that of the first ones, a line end, and that of the others. |
| `Prompt.StuckForEver` | crates/bricklogo-tui/src/app.rs:315-329 | Kept lines that no text completes hold the prompt: whatever is entered, in however many lines, nothing is executed any more. |
| `Prompt.PromptEndsIff` | crates/bricklogo-tui/src/app.rs:315-329 | A prompt that has asked for more can come to execute something exactly if a bracket or `end` is missing and no `foreach` around the end is reading its word, and then one more line does it. |
| `Prompt.CallWaitsInVain` | crates/bricklogo-lang/src/parser.rs:96-114 | The name of any procedure with inputs, typed alone: the prompt asks for more, and every further text is rejected. |
| `Prompt.ParenthesisWaitsInVain` | crates/bricklogo-lang/src/parser.rs:326-348 | The same for a parenthesis and any name. |
| `Prompt.NameWaitsInVain` | crates/bricklogo-lang/src/parser.rs:226-233 | For `foreach [` too the prompt asks for more, and no further text completes it. |
| `OpenInput.OpenNameNeverCloses` | crates/bricklogo-lang/src/parser.rs:226-233 | Where `foreach` wants its word, every continuation of a bracket fails. |
| `Lexemes.NumberIff` | crates/bricklogo-lang/src/parser.rs:54-60 | A lexeme, with or without a minus sign, is taken for a number exactly if it is figures, or a point between figures of which one side may be missing. |
| `Readings.TruthWords` | crates/bricklogo-lang/src/parser.rs:99-100 | The bare words `true` and `false` are read to the node and position of the same words in quotes. |
| `Readings.OutputWords` | crates/bricklogo-lang/src/parser.rs:94-97 | `op` is read to what `output` is read to: the expression behind it as the answer, or its error. |
| `Readings.ListWords` | crates/bricklogo-lang/src/parser.rs:293-296 | In a data list every bare word, keywords included, is read like the same word in quotes. |
| `Readings.InlineDefinition` | crates/bricklogo-lang/src/parser.rs:151-156 | A definition whose body is a block in brackets, parameters before it, is read to the same tree as the long form. |
| `Readings.SpreadBlock` | crates/bricklogo-lang/src/parser.rs:307-324 | A block with any number of line ends behind the bracket and each statement is read to the same statements as on one line. |
| `Readings.SpreadProgram` | crates/bricklogo-lang/src/parser.rs:26-36 | So it is for the statements of a whole input, on one line or many. |
| `Readings.SpreadDefinition` | crates/bricklogo-lang/src/parser.rs:158-166 | And for the statements of a definition up to its `end`. |
| `Readings.SpreadList` | crates/bricklogo-lang/src/parser.rs:258-275 | And for the elements of a data list. |
| `Readings.CallSays` | crates/bricklogo-lang/src/parser.rs:104-118 | A call with too few inputs: what the error says (name, how many are needed, how many there are), where it stands, and that it asks for more at the end only. |
| `Readings.DefinitionSays` | crates/bricklogo-lang/src/parser.rs:168-172 | A definition without `end` is reported at its `to`, with its name, and its arity is known from then on. |
| `Readings.NameMissing` | crates/bricklogo-lang/src/parser.rs:131-137 | `to` without a name is reported at `to`. |
| `Readings.BracketSays` | crates/bricklogo-lang/src/parser.rs:312-318 | A list or block that is open is reported where the input ends. |
| `Readings.ParenthesisSays` | crates/bricklogo-lang/src/parser.rs:332-339 | A parenthesis that is open is reported at the name behind it. |
| `Readings.WantedSays` | crates/bricklogo-lang/src/parser.rs:362-372 | Where a block or a parenthesis is wanted, the error names what is wanted and what stands there. |
| `Readings.UnexpectedSays` | crates/bricklogo-lang/src/parser.rs:298-302 | What no expression starts with, and what may not stand in a list, is named and placed. |
| `Readings.MalformedSays` | crates/bricklogo-lang/src/parser.rs:54-60 | A number lexeme that is no number aborts. |
| `PrintLex.EmitsNode` | crates/bricklogo-lang/src/unparse.rs:3-128 | The printed form of every fit tree lexes, in front of anything the printer may put behind it, to its tokens where it stands: a negative number is one token at the start of a line, behind a bracket or behind an operator, and elsewhere a minus sign and a number. |
| `PrintLex.EmitsProcedure` | crates/bricklogo-lang/src/unparse.rs:137-158 | The printed definition of a fit procedure lexes to header, body lines and `end`. |
| `PrintParse.ParsesExpression` | crates/bricklogo-lang/src/parser.rs:38-50 | The tokens of a tree that needs no parentheses parse back to that tree, with the arities its procedures define. |
| `PrintParse.ParsesProcDef` | crates/bricklogo-lang/src/parser.rs:130-173 | The tokens of a printed definition parse back to the definition. |
| `RoundTrip.LexesFile` | crates/bricklogo-lang/src/unparse.rs:160-166 | The text that `save` writes for any fit procedures lexes to their tokens, two line ends between procedures. |
| `RoundTrip.SavedProceduresReload` | crates/bricklogo-lang/src/unparse.rs:137-166 | Loading what `save` wrote succeeds for every list of clean procedures, whatever arities are known, and gives them back, operators regrouped the way text without parentheses groups. |
| `RoundTrip.SavingIsFaithfulIff` | crates/bricklogo-lang/src/evaluator.rs:463-503 | For all lists of procedures, whatever their words, order and the known arities: loading what was saved gives back exactly them if and only if they are clean where they stand in the file and no operator needs parentheses. |
| `RoundTrip.ReloadedIsFit` | crates/bricklogo-lang/src/evaluator.rs:463-503 | What is loaded as it was saved consists of names, words, numbers and operators that can be written without bars. |
| `Spelling.WeighsText` | crates/bricklogo-lang/src/tokenizer.rs:197-244 | For every text that lexes: its tokens hold no more bars than the text (a bar behind a quote weighing half), and if just as many, no word stood in bars and every token but a malformed number is fit. |
| `Spelling.NodeIsLight` | crates/bricklogo-lang/src/unparse.rs:3-128 | The printed text of any tree holds no more bars than its tokens, and less for each quoted word that starts with one. |
| `Spelling.FitIs` | crates/bricklogo-lang/src/unparse.rs:3-128 | A tree is fit if its tokens are. |
| `ParsedTrees.ParseReads` | crates/bricklogo-lang/src/parser.rs:26-348 | Of every tree that the parser returns: its negative numbers are the negative number tokens it was read from, it has no more brackets, parentheses and bars than were read, its tokens are fit if those read are, and if it has just as many brackets, every call has as many inputs as the arity known where it stands. |
| `ParsedTrees.CleanIs` | crates/bricklogo-lang/src/parser.rs:91-128 | A tree is clean where it stands exactly if it is fit, its negative numbers stand where the lexer takes them as one token, and the parser can build it with the arities known there. |
| `Printed.TellsNode` | crates/bricklogo-lang/src/tokenizer.rs:115-127 | The tokens of the printed text are those of the tree exactly if no negative number of it stands where the lexer splits it; otherwise they hold fewer negative numbers. |
| `RoundTrip.SavingTwiceIsStable` | crates/bricklogo-lang/src/unparse.rs:160-166 | What loading gave back is saved to the very same text, and so loaded to the same procedures: a second round changes nothing. |
| `RoundTrip.LoadedInstead` | crates/bricklogo-lang/src/evaluator.rs:499-503 | Of all procedures whose tokens are those of the saved text, the clean ones without need of parentheses are what is loaded. |
| `PrintedText.ValueTexts` | crates/bricklogo-lang/src/unparse.rs:5-53 | The printed text of values, operators, parentheses and calls, for all parts. |
| `PrintedText.FormTexts` | crates/bricklogo-lang/src/unparse.rs:59-126 | The printed text of every form, for all parts. |
| `PrintedText.BodyJoins` | crates/bricklogo-lang/src/unparse.rs:130-135 | The nodes of a body stand in their order with one blank between. |
| `PrintedText.DefinitionText` | crates/bricklogo-lang/src/unparse.rs:137-158 | The layout of a definition: header, statements behind two blanks each on its line, `end`. |
| `PrintedText.FileText` | crates/bricklogo-lang/src/unparse.rs:160-166 | The layout of a file: an empty line between definitions, a line end behind the last. |
| `PrintedText.ReassocFileText` | crates/bricklogo-lang/src/unparse.rs:160-166 | Regrouping does not change the printed text of a file. |
| `PrintedText.ReassocText` | crates/bricklogo-lang/src/unparse.rs:3-128 | The same for every tree, character by character. |
| `Reassociate.ReassocToks` | crates/bricklogo-lang/src/unparse.rs:22-25 | Regrouping does not change the printed tokens. |
| `Reassociate.ReassocCanonical` | crates/bricklogo-lang/src/parser.rs:38-50 | What the parser makes of printed text needs no parentheses any more. |
| `Reassociate.ReassocClean` | crates/bricklogo-lang/src/unparse.rs:3-128 | Regrouping keeps every other condition of a clean tree. |
| `PrintLimits.ParenthesesVanish` | crates/bricklogo-lang/src/parser.rs:326-348 | Around anything that does not start with a word, parentheses change how the input is read and leave no trace in the tree. |
| `PrintLimits.RightOperandRegroups` | crates/bricklogo-lang/src/unparse.rs:22-25 | A saved `output x op1 (y op2 z)` is loaded as `output (x op1 y) op2 z`, for all operands and operators that need no regrouping themselves. |
| `PrintLimits.LostParentheses` | crates/bricklogo-lang/src/unparse.rs:22-25 | A saved `output x * (y + z)` is loaded as `output x * y + z`, for all numbers. |
| `PrintLimits.QuotedReadsBackIff` | crates/bricklogo-lang/src/unparse.rs:12-12 | A printed quoted word reads back exactly when it has no delimiter in it and does not start with a bar, since the printer writes no bars. |
| `PrintLimits.BarredWordIs` | crates/bricklogo-lang/src/tokenizer.rs:201-229 | Any word without a bar in it, blanks and brackets included, is one token when it stands in bars. |
| `PrintLimits.BarredWordSplits` | crates/bricklogo-lang/src/unparse.rs:12-12 | Saved and loaded, a word that was written in bars with a blank in it is a shorter word and a call of the rest. |
| `PrintLimits.NumberReadsBackIff` | crates/bricklogo-lang/src/tokenizer.rs:115-127 | A printed number reads back as one token exactly when it is not negative or stands where a negative number may. |
| `PrintLimits.NegativeSplits` | crates/bricklogo-lang/src/tokenizer.rs:115-127 | Elsewhere a negative number reads as a minus sign and a number. |
| `PrintLimits.NegativeInputIsRejected` | crates/bricklogo-lang/src/unparse.rs:3-128 | A call with one input, a negative number, which the parser can build, is printed to text that the parser refuses. |
| `PrintLimits.NegativeInputSwallows` | crates/bricklogo-lang/src/unparse.rs:3-128 | With two inputs nothing is refused: `s 3 -5` and a statement behind it are loaded as `s` applied to `3 - 5` and that statement, for all names, numbers and known arities. |
| `PrintLimits.CallBeforeDefinition` | crates/bricklogo-lang/src/evaluator.rs:499-503 | A call that is saved before the definition of its procedure is loaded in a new session without its inputs, which become statements; nothing is reported. |
| `PortLaws.StepKeeps` | crates/bricklogo-hal/src/port_manager.rs:610-1029 | Every command, visit of a flash task and loss of a device keeps the agreement of records, hardware, wishes, timers and tasks. |
| `PortLaws.ReachableInv` | crates/bricklogo-hal/src/port_manager.rs:269-1029 | The same for every sequence of them. |
| `PortLaws.HardwareIsAsDesired` | crates/bricklogo-hal/src/port_manager.rs:508-537 | Then every connected output that does not flash does what the program wants, a record of it equals the wish, and without a record it stands still. |
| `PortLaws.OneFlashTaskEach` | crates/bricklogo-hal/src/port_manager.rs:936-1007 | No port ever has two flash tasks whose flags are not set. |
| `PortLaws.KeyInjective` | crates/bricklogo-hal/src/port_manager.rs:610-612 | The key of a flash timer names one port, because outputs have no colon in their names. |
| `PortLaws.CancelKeeps` | crates/bricklogo-hal/src/port_manager.rs:610-624 | Cancelling a flash drops the record together with stopping the port, so the cache stays true of the hardware, and touches no other port. |
| `PortLaws.StartKeeps` | crates/bricklogo-hal/src/port_manager.rs:545-569 | After the wishes of a selection have been set to running, a batch start restores the agreement everywhere, though it skips what was sent before. |
| `PortLaws.StopKeeps` | crates/bricklogo-hal/src/port_manager.rs:574-608 | The same for a batch stop, which stops only what was sent running. |
| `PortLaws.SyncKeeps` | crates/bricklogo-hal/src/port_manager.rs:325-402 | The same for synchronising, whatever was changed on the selection, and also for ports that flash. |
| `PortLaws.FlashKeeps` | crates/bricklogo-hal/src/port_manager.rs:936-1007 | Flashing cancels what flashed before, keeps the wishes, and makes exactly the selected ports flash. |
| `PortLaws.TickKeeps` | crates/bricklogo-hal/src/port_manager.rs:974-1004 | A visit of a flash task touches its own port and task only. |
| `PortLaws.AllOffKeeps` | crates/bricklogo-hal/src/port_manager.rs:1009-1029 | Turning everything off sets the flag of every task, forgets every record and stops every port that could be moving. |
| `NaiveController.AgreesWithNaive` | crates/bricklogo-hal/src/port_manager.rs:269-1029 | After any sequence of commands from fresh devices, the hardware of every connected output that does not flash, all wishes, and which ports flash are those of a controller that has no records and sends every selected port every time. |
| `NaiveController.NaiveObeys` | crates/bricklogo-hal/src/port_manager.rs:796-1029 | That controller does what is wanted of it: each of its steps leaves the ports that do not flash doing what the program wants. |
| `NaiveController.ReversedByCount` | crates/bricklogo-hal/src/port_manager.rs:672-680 | Reversing toggles a port once for every time it is named: it ends reversed exactly when the selection names it an odd number of times. |
| `NaiveController.OnTwiceSendsOnce` | crates/bricklogo-hal/src/port_manager.rs:503-522 | Turning on what has just been turned on changes nothing at all: no port of the selection needs a send. |
| `PortLaws.OffStaysOff` | crates/bricklogo-hal/src/port_manager.rs:811-824 | A port that was turned off stays still however often flash tasks are visited afterwards, also tasks that were made for it. |
| `PortLaws.FlashShowsTask` | crates/bricklogo-hal/src/port_manager.rs:936-1007 | After a flash has begun and however often flash tasks are visited, its ports flash, and each motor is driven or stands still as its one task stands for, at the direction and power wanted. |
| `CommandLaws.DottedName` | crates/bricklogo-hal/src/port_manager.rs:224-239 | A name with a dot is the port behind the first dot of the device before it, whichever device is active; if there is no such device, that is the error. |
| `CommandLaws.PlainName` | crates/bricklogo-hal/src/port_manager.rs:240-245 | A name without a dot is a port of the active device, or an error if there is none. |
| `CommandLaws.ResolvedInOrder` | crates/bricklogo-hal/src/port_manager.rs:628-634 | Names are resolved one by one, in their order, to the ports that they are by themselves, and the first that does not resolve is reported. |
| `CommandLaws.RefusedFirst` | crates/bricklogo-hal/src/port_manager.rs:796-809 | The first selected port whose device is gone or that is no output is reported. |
| `CommandLaws.TooMuchFirst` | crates/bricklogo-hal/src/port_manager.rs:688-709 | The first device that cannot go so high is reported, with its limit and the level. |
| `CommandLaws.WishAfter` | crates/bricklogo-hal/src/port_manager.rs:796-1007 | What is wanted of every port after every command: changed as the command says for the ports that it names, unchanged for all others. |
| `CommandLaws.OnDrives` | crates/bricklogo-hal/src/port_manager.rs:796-809 | Turned on, a port runs at the direction and power wanted before, and does not flash. |
| `CommandLaws.OffStops` | crates/bricklogo-hal/src/port_manager.rs:811-824 | Turned off, it stands still and does not flash. |
| `CommandLaws.MoveStops` | crates/bricklogo-hal/src/port_manager.rs:826-934 | After a timed run or a rotation it stands still and does not flash. |
| `CommandLaws.DirectionTurns` | crates/bricklogo-hal/src/port_manager.rs:654-670 | A running port turns in the direction given, at the power it had; one that stands still stays still. |
| `CommandLaws.ReverseTurns` | crates/bricklogo-hal/src/port_manager.rs:672-680 | A running port turns the other way if it is named an odd number of times, and else as before. |
| `CommandLaws.PowerSets` | crates/bricklogo-hal/src/port_manager.rs:682-718 | A running port goes to the level, and stops at level zero. |
| `CommandLaws.SyncedIsDone` | crates/bricklogo-hal/src/port_manager.rs:269-317 | What has been synchronised need not be synchronised again: the record of it is the wish. |
| `CommandLaws.FirstOnIsHalf` | crates/bricklogo-hal/src/port_manager.rs:636-650 | On a fresh device the first `on` runs a port forwards at half of what the device can do. |
| `CommandLaws.FlashDrives` | crates/bricklogo-hal/src/port_manager.rs:936-972 | A port that begins to flash is driven at the direction and power wanted. |
| `CommandLaws.DueVisitToggles` | crates/bricklogo-hal/src/port_manager.rs:974-1004 | A visit of a task that is due stops its port if it was on, else drives it as wanted now, and turns the task over. |
| `CommandLaws.VisitRetires` | crates/bricklogo-hal/src/port_manager.rs:974-1004 | A cancelled task is gone after its next visit, and one that is due when its device is lost; a visit before its time does nothing. |
| `CommandLaws.OnlyNamedPorts` | crates/bricklogo-hal/src/port_manager.rs:796-1007 | A command moves, stops and changes the wishes of no port that it does not name. |
| `CommandLaws.OnlyOwnPort` | crates/bricklogo-hal/src/port_manager.rs:974-1004 | A visit of a flash task moves no port but its own. |
| `CommandLaws.AllOffStops` | crates/bricklogo-hal/src/port_manager.rs:1009-1029 | After turning everything off no connected port moves or flashes, and none is wanted to run. |
| `PortManager.PortManager.On` | crates/bricklogo-hal/src/port_manager.rs:796-809 | Refused with the first error before anything changes, else exactly the step of turning on; the invariant holds after it. |
| `PortManager.PortManager.Off` | crates/bricklogo-hal/src/port_manager.rs:811-824 | The same for turning off. |
| `PortManager.PortManager.Move` | crates/bricklogo-hal/src/port_manager.rs:826-934 | Timed runs and rotations: each device drives its ports and leaves them standing, and this is what gets recorded. |
| `PortManager.PortManager.SetDirection` | crates/bricklogo-hal/src/port_manager.rs:654-670 | Each port in turn is turned to the direction and synchronised; a selection that does not resolve does nothing. |
| `PortManager.PortManager.ReverseDirection` | crates/bricklogo-hal/src/port_manager.rs:672-680 | All wishes first, then one synchronisation. |
| `PortManager.PortManager.SetPower` | crates/bricklogo-hal/src/port_manager.rs:682-718 | No change at all if any selected device cannot go that high; level zero also ends running. |
| `PortManager.PortManager.Flash` | crates/bricklogo-hal/src/port_manager.rs:936-1007 | Each port in turn: cancel, start at its direction and power, new flag, timer and task. |
| `PortManager.PortManager.FlashTick` | crates/bricklogo-hal/src/port_manager.rs:974-1004 | One call of a flash task: retired if cancelled or its device is gone, else toggled if due, with the direction and power wanted now. |
| `PortManager.PortManager.AllOff` | crates/bricklogo-hal/src/port_manager.rs:1009-1029 | All flags set, all timers forgotten, all ports of connected devices stopped in any order. |
| `PortManager.PortManager.EnsurePortStates` | crates/bricklogo-hal/src/port_manager.rs:636-650 | Entries for the named ports, which changes no wish. |
| `PortManager.PortManager.CancelFlash` | crates/bricklogo-hal/src/port_manager.rs:610-624 | The flag set, the timer and the record gone, the port stopped if its device is connected. |
| `PortManager.PortManager.BatchStart` | crates/bricklogo-hal/src/port_manager.rs:545-569 | Grouping by device and sending one batch per device, in any order of devices, leaves hardware and records as if every port that needs it were started by itself. |
| `PortManager.PortManager.BatchStop` | crates/bricklogo-hal/src/port_manager.rs:574-608 | The same for stopping the ports that were sent running; all ports are recorded. |
| `PortManager.PortManager.SyncPort` | crates/bricklogo-hal/src/port_manager.rs:269-317 | One port: nothing if the record says so already, else start, stop or neither, and record. |
| `PortManager.PortManager.SyncPorts` | crates/bricklogo-hal/src/port_manager.rs:325-402 | The plan of starts, stops and records per device, carried out device by device, has the effect of synchronising the ports one by one. |
| `PortManager.PortManager.GroupByDevice` | crates/bricklogo-hal/src/port_manager.rs:405-429 | Every port is in the group of its device, with the state wanted of it, and nothing else is. |
| `PortManager.PortManager.StartGroups` | crates/bricklogo-hal/src/port_manager.rs:545-569 | One batch for each device, in any order, drives exactly the grouped ports. |
| `PortManager.PortManager.ResolvePorts` | crates/bricklogo-hal/src/port_manager.rs:628-634 | All ports, or the first name that does not resolve. |
| `PortManager.PortManager.CheckPower` | crates/bricklogo-hal/src/port_manager.rs:688-709 | Checking each device once finds the first objection that checking every port would. |
| `Ports.Resolve` | crates/bricklogo-hal/src/port_manager.rs:224-245 | A port belongs to the device before the first dot, or to the active one; the device of a resolved port exists. |
| `SensorRead.ReadSensor` | crates/bricklogo-hal/src/port_manager.rs:1033-1081 | The first port that may not be read refuses the command; one port answers for itself; several give the list in the order of the selection, or the failure met first. |
| `SensorRead.ReadSeveral` | crates/bricklogo-hal/src/port_manager.rs:1055-1080 | Grouping, one batch per device and scattering give each port its own value, repeats included; a failure is that of the first failing port of the device that comes up first. |
| `SensorRead.ReadableIff` | crates/bricklogo-hal/src/port_manager.rs:1040-1047 | A port may be read exactly if its device is there and connected and takes it for a sensor; else the first of these that fails is reported. |
| `SensorRead.ValueIs` | crates/bricklogo-hal/src/port_manager.rs:1076-1079 | Each port gives its own value, a port without one the word `false`. |
| `SensorRead.GroupPositions` | crates/bricklogo-hal/src/port_manager.rs:1058-1065 | Devices in the order in which they come up, each with all its positions in ascending order. |
| `SensorRead.Scatter` | crates/bricklogo-hal/src/port_manager.rs:1072-1074 | Values go to the positions they were read for, all others stay. |
| `SensorRead.ReadSensors` | crates/bricklogo-hal/src/adapter.rs:128-134 | Reading in turn: every value, or the first fault. |
| `Scheduler.StepKeeps` | crates/bricklogo-hal/src/scheduler.rs:59-142 | Every registration, deregistration, critical section of a loop and call of a task keeps the invariant: at most one loop, told by `thread_running`; work pending means a loop; ids ascending; nothing lost or doubled. |
| `Scheduler.ReachableInv` | crates/bricklogo-hal/src/scheduler.rs:59-142 | The same under every interleaving. |
| `Scheduler.AlwaysInv` | crates/bricklogo-hal/src/scheduler.rs:59-142 | So every state that any interleaving reaches from the empty scheduler has it. |
| `Scheduler.IdsCount` | crates/bricklogo-hal/src/scheduler.rs:59-84 | Slots and tasks are numbered through in the order of registration. |
| `Scheduler.RunKeeps` | crates/bricklogo-hal/src/scheduler.rs:120-120 | In particular when a task retires while others are taken out of the list and new ones are being registered. |
| `Scheduler.MergeKeeps` | crates/bricklogo-hal/src/scheduler.rs:122-134 | And when the kept tasks are put before those registered meanwhile. |
| `Scheduler.LeavesOnlyWhenDone` | crates/bricklogo-hal/src/scheduler.rs:127-133 | `thread_running` goes down only when everything ever registered is gone. |
| `Scheduler.RetiresOnlyItself` | crates/bricklogo-hal/src/scheduler.rs:74-77 | A pending task stops being pending only by a call in which it says so. |
| `Scheduler.RoundCallsEachOnce` | crates/bricklogo-hal/src/scheduler.rs:116-120 | A round calls each task that it took exactly once, in order of registration. |
| `Scheduler.TicksEachOnce` | crates/bricklogo-hal/src/scheduler.rs:97-106 | A pass over the slots ticks every registered live slot exactly once, and no other. |
| `Scheduler.WaitLoop` | crates/bricklogo-hal/src/scheduler.rs:93-142 | Each step of the loop that does not call a pending task brings its call nearer. |
| `Scheduler.WaitRegistration` | crates/bricklogo-hal/src/scheduler.rs:59-91 | Registrations and deregistrations do not delay it. |
| `Scheduler.CalledAgain` | crates/bricklogo-hal/src/scheduler.rs:93-142 | So in every interleaving a pending task has been called again once the loop has made more than its number of waiting steps. |
| `Scheduler.WaitIsBounded` | crates/bricklogo-hal/src/scheduler.rs:93-142 | That number is at most twice the number of pending tasks plus two. |
| `Scheduler.LoopCanStep` | crates/bricklogo-hal/src/scheduler.rs:86-142 | A loop can step exactly while `thread_running` holds, and then only the one spawned last can. |
| `Scheduler.Shared.RegisterSlot` | crates/bricklogo-hal/src/scheduler.rs:59-66 | A new id, the slot at the end, a loop if there is none. |
| `Scheduler.Shared.RegisterTask` | crates/bricklogo-hal/src/scheduler.rs:78-84 | The same for a task. |
| `Scheduler.Shared.DeregisterSlot` | crates/bricklogo-hal/src/scheduler.rs:69-72 | The slot is gone, the order kept. |
| `Scheduler.Shared.ReapAndTick` | crates/bricklogo-hal/src/scheduler.rs:97-106 | Dead slots are removed, every survivor is ticked once, in order. |
| `Scheduler.Shared.TakeTasks` | crates/bricklogo-hal/src/scheduler.rs:116-119 | The list is taken out and left empty. |
| `Scheduler.Shared.CallTask` | crates/bricklogo-hal/src/scheduler.rs:120-120 | The next task is called and kept only if it says so. |
| `Scheduler.Shared.MergeTasks` | crates/bricklogo-hal/src/scheduler.rs:122-137 | Kept tasks first, then those added during the tick; the loop leaves only if both lists are empty. |
| `RcxFirmware.UploadFirmware` | crates/rust-rcx/src/firmware.rs:12-83 | On success the brick is as if every command had reached it once, in order, and it refused none; on failure as if a first part of them had; and if among any ten attempts one gets through and nothing is refused, the upload succeeds. |
| `RcxFirmware.ExactlyOnceIff` | crates/rust-rcx/src/constants.rs:31-36 | A brick that skips a repeated opcode byte executes delete, start, every block and unlock exactly once each if and only if the byte it remembers from before is not that of delete. |
| `RcxFirmware.ExecutesEachOnce` | crates/rust-rcx/src/firmware.rs:12-83 | The same for every first part of the commands, with the byte that is then remembered. |
| `RcxFirmware.BrokenOffLogIsPrefix` | crates/rust-rcx/src/firmware.rs:12-83 | What a broken-off upload has executed is a first part of what a complete one executes. |
| `RcxFirmware.ToggleAlternates` | crates/rust-rcx/src/firmware.rs:17-76 | The toggle bit alternates over the whole upload, unlock included. |
| `RcxFirmware.NextIsNew` | crates/rust-rcx/src/constants.rs:31-36 | No command can be taken for a retransmission of the one before it. |
| `RcxFirmware.BlocksMakeUpTheData` | crates/rust-rcx/src/firmware.rs:40-66 | The blocks cut the image into consecutive pieces that join to it, and there are as many as the size says. |
| `RcxFirmware.BlockHeaders` | crates/rust-rcx/src/protocol.rs:172-187 | Every block carries its number (zero for the last), its length, its checksum and its toggle. |
| `RcxFirmware.SendWithRetry` | crates/rust-rcx/src/firmware.rs:85-104 | Success exactly when some attempt gets through both ways; then the command was executed once, else at most once. |
| `RcxFirmware.TransferBlocks` | crates/rust-rcx/src/firmware.rs:40-66 | The loop over offset, block number and toggle sends the blocks in order and stops at the first failure. |
| `RcxFirmware.SendCommand` | crates/rust-rcx/src/firmware.rs:17-76 | One command: what the brick is like after it, whether it got through or not. |
| `RcxProtocol.FrameMessage` | crates/rust-rcx/src/protocol.rs:4-16 | Header, every byte with its complement, and the sum with its complement. |
| `RcxProtocol.ParseReply` | crates/rust-rcx/src/protocol.rs:20-55 | The reply in a stream with echo and noise, or nothing. |
| `RcxProtocol.FindHeader` | crates/rust-rcx/src/protocol.rs:57-67 | The first header, or none. |
| `RcxProtocol.FirstHeader` | crates/rust-rcx/src/protocol.rs:57-67 | Behind noise that holds no header, the first header is that of the frame. |
| `RcxProtocol.FrameReadsBackIff` | crates/rust-rcx/src/protocol.rs:4-55 | Behind any noise without a header, a frame is read back exactly when it carries something. |
| `RcxProtocol.OpIsBitwiseOr` | crates/rust-rcx/src/protocol.rs:73-75 | Setting the toggle is the machine's bitwise or, for every opcode byte. |
| `RcxProtocol.CmdTransferData` | crates/rust-rcx/src/protocol.rs:172-187 | The frame of a block: opcode with toggle, number, length, data, checksum. |
| `RcxProtocol.CmdStartFirmwareDownload` | crates/rust-rcx/src/protocol.rs:159-170 | The frame that announces address and checksum. |
| `RcxProtocol.FrameBytes` | crates/rust-rcx/src/protocol.rs:4-16 | Every byte of a frame by its place: 55 FF 00, each byte and its complement, the sum of all bytes modulo 256 and its complement. |
| `RcxProtocol.CommandBytes` | crates/rust-rcx/src/protocol.rs:152-194 | Every byte of the four upload commands: opcodes, keys, and addresses, checksums, numbers and lengths low byte first. |
| `RcxFirmware.AcceptedIff` | crates/rust-rcx/src/firmware.rs:41-44 | A reply refuses exactly if its second byte is there and not zero. |
| `RcxFirmware.ArrivesIff` | crates/rust-rcx/src/firmware.rs:94-103 | An attempt gets through exactly if neither request nor reply is lost. |
| `Srec.ParseSrec` | crates/rust-rcx/src/srec.rs:16-92 | The first bad line is reported. Good lines: too large an image is refused; otherwise, unless a record runs over the greatest end, the parse succeeds, the image spans exactly the records, every byte is that of the last record covering it or zero, and its checksum covers exactly the bytes below 0xCC00. A slice is out of range exactly for a line of three bytes before any other bad line or, in good lines, for a record that runs over. |
| `Srec.CopyRecords` | crates/rust-rcx/src/srec.rs:74-78 | Copying the records in order leaves at each address the byte of the last record that covers it, and fails exactly if a record reaches past the image. |
| `Srec.Sum16IsTheSum` | crates/rust-rcx/src/srec.rs:80-84 | The wrapping fold is the plain sum of the covered bytes modulo 2^16. |
| `Srec.DecodeLine` | crates/rust-rcx/src/srec.rs:22-61 | One line: skipped, a record, an entry point or one of the errors. |
| `Srec.DecodeHexLine` | crates/rust-rcx/src/srec.rs:94-105 | Odd length, bad digits, or the bytes. |
| `Srec.ThreeByteLineAborts` | crates/rust-rcx/src/srec.rs:25-42 | The lines whose slicing aborts are exactly those of eight characters that start with `S1` and hold three bytes with a good sum: an address byte or the checksum is missing, which the length check lets through. |
| `Srec.NoDataIsAccepted` | crates/rust-rcx/src/srec.rs:37-46 | A record without data, four bytes, is accepted, for every address. |
| `Srec.ShortRecordsFit` | crates/rust-rcx/src/srec.rs:64-78 | No record below 64 KiB runs over. |
| `SrecText.DigitsAre` | crates/rust-rcx/src/srec.rs:99-101 | The digits and their values, capital and small letters. |
| `SrecText.NoOtherDigits` | crates/rust-rcx/src/srec.rs:99-101 | No other character is a digit. |
| `SrecText.SignedByte` | crates/rust-rcx/src/srec.rs:100-100 | A plus sign and one digit are taken for a byte too, as the integer parser of the standard library does. |
| `SrecText.HexReadsBack` | crates/rust-rcx/src/srec.rs:94-105 | The hex text of any bytes reads back to them. |
| `SrecText.DataReadsBack` | crates/rust-rcx/src/srec.rs:33-51 | A data record written for any address and data, count, address high byte first and checksum, reads back to them, or is an overflow exactly if it reaches 64 KiB. |
| `SrecText.EntryReadsBack` | crates/rust-rcx/src/srec.rs:52-58 | An end record reads back to its entry point. |
| `SrecText.ShortEntry` | crates/rust-rcx/src/srec.rs:52-58 | An end record of three bytes gives the entry point too. |
| `SrecText.OtherLines` | crates/rust-rcx/src/srec.rs:26-59 | Lines of any other kind are passed over, lines without the S refused. |
| `SrecText.WrongByteIsNoticed` | crates/rust-rcx/src/srec.rs:34-35 | One wrong byte anywhere in a record is noticed. |
| `SrecText.RecordsJoin` | crates/rust-rcx/src/srec.rs:22-51 | The records of joined texts are those of the parts, in order. |
| `SrecText.OneLineRecords` | crates/rust-rcx/src/srec.rs:33-50 | The records of one written line are its record. |
| `SrecText.ByteAtLast` | crates/rust-rcx/src/srec.rs:74-78 | The byte at an address is that of the last record over it. |
| `SrecText.ByteAtNone` | crates/rust-rcx/src/srec.rs:74-74 | It is zero where there is no record. |
| `SrecText.EntryPointLast` | crates/rust-rcx/src/srec.rs:56-56 | The entry point is that of the last line that gives one. |
| `SrecText.EndWraps` | crates/rust-rcx/src/srec.rs:44-44 | Where the end of a record is computed its length is cut to 16 bits. |
| `Replication.StepKeeps` | crates/bricklogo-net/src/host.rs:43-68 | Every step of host or client keeps the invariant: variables travel only on paths from their owner, and wire, queue and pending broadcasts applied in order lead to the host's value. |
| `Replication.ReachableInv` | crates/bricklogo-net/src/host.rs:178-242 | The same in every state of every interleaving. |
| `Replication.EventuallyAgrees` | crates/bricklogo-net/src/client.rs:33-41 | With one writer for each variable, a registered client whose snapshot is on its way or applied will have the host's value of every host variable it does not write, once what is on its way is applied. |
| `Replication.QuietAgrees` | crates/bricklogo-net/src/client.rs:123-132 | When nothing is on its way, it has that value. |
| `Convergence.DeliveryUsesUpWork` | crates/bricklogo-net/src/host.rs:231-241 | Every delivery lowers a bound on the deliveries still to come. |
| `Convergence.DeliveriesEnd` | crates/bricklogo-net/src/host.rs:178-242 | So without new writes and connections deliveries end, in whatever order they happen. |
| `Convergence.ReceivingDoesNotEcho` | crates/bricklogo-net/src/client.rs:123-132 | Reading a message never creates traffic to the host. |
| `Convergence.StuckIsQuiet` | crates/bricklogo-net/src/client.rs:96-120 | When no delivery is possible any more, nothing is on its way. |
| `Convergence.Converges` | crates/bricklogo-net/src/host.rs:178-242 | From any state of a run, once deliveries have ended every registered and snapshotted client agrees with the host. |
| `Convergence.ReachableSnapshots` | crates/bricklogo-net/src/host.rs:179-200 | In every state of every run each connection has at most one snapshot, asked for, on its way or applied, and while it is on its way its values of the client's own variables are the host's. |
| `Convergence.LiveKeepsOwn` | crates/bricklogo-lang/src/evaluator.rs:335-351 | Over any stretch of any run in which a client stays live, what the host will hold of the client's own variable stays what the client holds. |
| `Convergence.SnapshotKeepsOwnIff` | crates/bricklogo-net/src/client.rs:68-78 | In every run, applying the snapshot leaves client and host agreeing on the client's own variable exactly if: where the host has the variable, no write of another value waits to be sent; where it has not, the last write that waits to be sent is the client's value. |
| `Convergence.OwnVariablesArrive` | crates/bricklogo-lang/src/evaluator.rs:335-351 | If so, and while the connection lasts, the host has the client's value of it whenever nothing is on its way. |
| `Convergence.OfflineWriteIsLost` | crates/bricklogo-net/src/client.rs:29-41 | A run from the beginning, for all names and values: a write made before the client joins is lost to its writer when the snapshot arrives, and reaches the host. |
| `Connections.OfferedAt` | crates/bricklogo-net/src/host.rs:45-55 | A registered client with fewer than 256 messages waiting gets the message behind them and stays registered, one with 256 is dropped; nothing else of it changes. |
| `Connections.BroadcastReaches` | crates/bricklogo-net/src/host.rs:58-68 | So it is for every client when the host writes. |
| `Connections.RelayReaches` | crates/bricklogo-net/src/host.rs:43-56 | And for every client but the sender when a client has written. |
| `Connections.StaysRegistered` | crates/bricklogo-net/src/host.rs:165-245 | Over any run: a client that has joined, does not leave, does not give up waiting for its snapshot and never has 256 messages waiting is registered. |
| `Connections.RequestIsAnswered` | crates/bricklogo-net/src/host.rs:197-200 | A request is answered with all that the host holds, behind what has been sent. |
| `Connections.SnapshotApplies` | crates/bricklogo-net/src/client.rs:29-41 | A client that gets its snapshot has every value of it and keeps all others. |
| `Connections.ReachableAsked` | crates/bricklogo-net/src/client.rs:68-78 | In every run a connected client has had its request answered or it is the first thing the host will read. |
| `Connections.GivesUpIff` | crates/bricklogo-net/src/client.rs:72-78 | A client gives up exactly if it waits for its snapshot and something else comes. |
| `Connections.ConnectedConverge` | crates/bricklogo-net/src/host.rs:165-245 | Convergence with no condition on what the host has noted: once deliveries have ended, every client that has joined and stayed connected without ever 256 messages waiting agrees with the host on every host variable that it does not write. |
| `Nodes.HostNode.SetGlobal` | crates/bricklogo-lang/src/evaluator.rs:335-351 | A write of the value that is there already changes nothing and is not broadcast. |
| `Nodes.HostNode.Broadcast` | crates/bricklogo-net/src/host.rs:83-94 | One local write is offered to every client. |
| `Nodes.HostNode.BroadcastToOthers` | crates/bricklogo-net/src/host.rs:43-56 | Everyone but the sender gets the message; a full queue drops its client. |
| `Nodes.HostNode.BroadcastToAll` | crates/bricklogo-net/src/host.rs:58-68 | Everyone gets the message; a full queue drops its client. |
| `Nodes.HostNode.StoreChanges` | crates/bricklogo-net/src/host.rs:201-211 | Exactly the entries that change something are stored and passed on. |
| `Nodes.HostNode.Receive` | crates/bricklogo-net/src/host.rs:179-220 | One message of a client, as the step of the host. |
| `Nodes.HostNode.Relay` | crates/bricklogo-net/src/host.rs:212-217 | The changes go to the others, unless there are none. |
| `Nodes.HostNode.DrainQueue` | crates/bricklogo-net/src/host.rs:231-241 | All that was put aside is sent, in order. |
| `Nodes.ClientNode.SetGlobal` | crates/bricklogo-lang/src/evaluator.rs:335-351 | The same on a client: the write waits to be sent. |
| `Nodes.ClientNode.ApplySnapshot` | crates/bricklogo-net/src/client.rs:29-41 | Merging adds and replaces, and never removes. |
| `Nodes.ClientNode.HandleIncoming` | crates/bricklogo-net/src/client.rs:123-132 | Sets and snapshots are merged alike, anything else ignored. |
| `Nodes.DrainIsSteps` | crates/bricklogo-net/src/host.rs:231-241 | Draining a queue is one step of the machine for every message in it. |
| `WireRoundTrip.DecodesToItselfIff` | crates/bricklogo-net/src/protocol.rs:93-182 | A message with a payload below 2^32 bytes decodes to itself exactly when its strings, lists and maps have 16-bit sizes, for every order in which maps are enumerated and every depth. |
| `WireRoundTrip.DecodesWithoutLength` | crates/bricklogo-net/src/protocol.rs:129-145 | Below 2^24 bytes the payload decodes identically without the length in front, since its opcode is not zero. |
| `WireRoundTrip.DecodedIsSized` | crates/bricklogo-net/src/protocol.rs:224-284 | Whatever bytes arrive, what is decoded has 16-bit sizes. |
| `WireRoundTrip.ReadsValue` | crates/bricklogo-net/src/protocol.rs:196-273 | A written value is read back wherever it stands, nested lists included. |
| `WireRoundTrip.ReadsPayload` | crates/bricklogo-net/src/protocol.rs:93-182 | The same for every kind of message. |
| `Utf8.ValidUtf8Iff` | crates/bricklogo-net/src/protocol.rs:238-239 | Bytes are taken for a string exactly if they are the UTF-8 (section 3 of RFC 3629) of some characters. |
| `Utf8.ValueBytesAre` | crates/bricklogo-net/src/protocol.rs:186-214 | The bytes of values: the tags, and lengths high byte first. |
| `Utf8.GreetingBytes` | crates/bricklogo-net/src/protocol.rs:95-111 | The bytes of the messages without variables: opcodes, flags and password. |
| `Utf8.FlagsAre` | crates/bricklogo-net/src/protocol.rs:155-168 | Of the flags of a greeting only the two lowest bits count: the first says that a password follows, the second is the protocol. |
| `Utf8.VariableBytes` | crates/bricklogo-net/src/protocol.rs:112-119 | The bytes of a message with a variable: opcode, number, name and value. |
| `Utf8.LengthBytes` | crates/bricklogo-net/src/protocol.rs:121-126 | The four bytes in front are the length of the payload, highest byte first. |
| `Utf8.ErrorsAre` | crates/bricklogo-net/src/protocol.rs:129-181 | What is reported for unknown opcodes and tags, missing bytes and bad strings. |
| `Codec.EncodeBinary` | crates/bricklogo-net/src/protocol.rs:93-127 | The bytes are length and payload with the map in some order of its entries, and they decode to the message whenever its sizes fit. |
| `Codec.DecodeBinary` | crates/bricklogo-net/src/protocol.rs:129-182 | For every byte string, the message or the error that the format says. |
| `Codec.Buffer.WriteValue` | crates/bricklogo-net/src/protocol.rs:196-214 | A value is appended: tag, then number, text or items. |
| `Codec.Buffer.WriteVars` | crates/bricklogo-net/src/protocol.rs:216-222 | A map is appended: size, then every entry once. |
| `Codec.ReadValueAt` | crates/bricklogo-net/src/protocol.rs:244-273 | A value at a position, or the error. |
| `Codec.ReadVarsAt` | crates/bricklogo-net/src/protocol.rs:275-284 | A map at a position; a repeated key keeps its last value. |
| `Layout.PagesIn` | crates/rust-stm32dfu/src/dfu.rs:155-171 | The nested loops over regions, ranges and sectors find the starts of exactly the overlapping writable sectors, in order, addresses saturating. |
| `Layout.PagesAre` | crates/rust-stm32dfu/src/dfu.rs:163-165 | A page is listed exactly when a writable sector that overlaps the range starts there. |
| `Download.DfuDevice.Download` | crates/rust-stm32dfu/src/dfu.rs:313-378 | On success the device has carried out the plan (erase, write, leave) and on failure a first part of it; it fails only if a request did. |
| `Download.DfuDevice.CollectPages` | crates/rust-stm32dfu/src/dfu.rs:334-343 | The pages of all elements, each once, in order of first need. |
| `Download.DfuDevice.WriteElement` | crates/rust-stm32dfu/src/dfu.rs:358-376 | Every chunk is preceded by its own address. |
| `FlashContents.FlashAfterDownload` | crates/rust-stm32dfu/src/dfu.rs:334-378 | After a download, at every address: an element's byte, written once, or nothing written; every cell of a needed sector erased once, every other cell never, and unwritten cells erased or untouched accordingly. |
| `FlashContents.ErasesExactlyTouched` | crates/rust-stm32dfu/src/dfu.rs:334-348 | The erased pages are the starts of the touched writable sectors, without repetition; no read-only sector is among them. |
| `FlashContents.ErasesComeFirst` | crates/rust-stm32dfu/src/dfu.rs:345-378 | Nothing is erased once writing has begun. |
| `FlashContents.WrittenCellsAreErased` | crates/rust-stm32dfu/src/dfu.rs:334-343 | Elements inside writable sectors are written to erased cells only. |
| `FlashContents.WritesDo` | crates/rust-stm32dfu/src/dfu.rs:358-376 | Each byte of disjoint elements is written exactly once, at its own address. |
| `FlashContents.ErasesDo` | crates/rust-stm32dfu/src/dfu.rs:345-348 | Each cell of a page is erased exactly once, no other cell at all. |
| `FlashContents.OverlapIsSharing` | crates/rust-stm32dfu/src/dfu.rs:163-165 | For an element with data the overlap test means sharing an address. |
| `FlashContents.EmptyElementErases` | crates/rust-stm32dfu/src/dfu.rs:336-343 | An element without data still erases the sector that its address lies inside of. |
| `Regions.SectorsAre` | crates/rust-stm32dfu/src/dfu.rs:155-171 | The sectors of a layout, told from its regions: sector `n` of a range lies at the start of the region plus the ranges before it plus `n` sizes, addresses cut off at the greatest 32-bit number, and is writable exactly if its range is. |
| `Regions.PagesFromRegions` | crates/rust-stm32dfu/src/dfu.rs:155-171 | So a page is erased for an element exactly if it is the address of a sector of a writable range that overlaps it. |
| `Regions.LayoutIsProper` | crates/rust-stm32dfu/src/dfu.rs:155-171 | The sectors of regions that lie apart do not overlap. |
| `Regions.ReadOnlyIsKept` | crates/rust-stm32dfu/src/dfu.rs:334-378 | In such a layout no cell of a read-only range is ever erased, whatever is downloaded. |
| `Regions.WritableIsErasedIff` | crates/rust-stm32dfu/src/dfu.rs:334-348 | A cell of a writable range is erased, once, exactly if its sector overlaps an element. |
| `FlashContents.PieceIs` | crates/rust-stm32dfu/src/dfu.rs:358-376 | Every piece of an element: its own address, the next bytes up to the chunk size in block 2, and nothing behind the last. |
| `FlashContents.UntilIs` | crates/rust-stm32dfu/src/dfu.rs:336-341 | An element reaches to its end, or to the greatest 32-bit number. |
| `Cobs.Encode` | crates/rust-spike/src/cobs.rs:28-56 | The loop that patches the code of each block computes the block by block encoding. |
| `Cobs.Decode` | crates/rust-spike/src/cobs.rs:60-95 | For every byte string, the decoded bytes or the abort. |
| `Cobs.AbortsIff` | crates/rust-spike/src/cobs.rs:67-74 | Decoding overflows exactly if one of the bytes that stand where a block's code is read is below 2, and fails in no other way. |
| `Cobs.EncodeDecode` | crates/rust-spike/src/cobs.rs:28-95 | Decoding undoes encoding for every byte string. |
| `Cobs.EncodedIsClean` | crates/rust-spike/src/cobs.rs:28-56 | No encoded byte is below 3, and at most one byte is added for every 84, plus one. |
| `Cobs.LastBlock` | crates/rust-spike/src/cobs.rs:28-56 | A last block: its length and three, and the bytes. |
| `Cobs.EndedBlock` | crates/rust-spike/src/cobs.rs:28-56 | A block that ends with 0, 1 or 2: 84 for each unit, its length and three, and the bytes. |
| `Cobs.FullBlock` | crates/rust-spike/src/cobs.rs:28-56 | A block of 84 plain bytes: FF, and the bytes. |
| `Cobs.PackedIsDelimited` | crates/rust-spike/src/cobs.rs:99-106 | A packed message holds no 0x01, and 0x02 only as its last byte. |
| `Cobs.PackUnpack` | crates/rust-spike/src/cobs.rs:99-129 | Unpacking undoes packing, with the delimiter, without it, and behind a priority marker. |
| `Cobs.Pack` | crates/rust-spike/src/cobs.rs:99-106 | Encoding, the exclusive or over every byte in place, the delimiter. |
| `Cobs.Unpack` | crates/rust-spike/src/cobs.rs:111-129 | Stripping the marker and the delimiter, the exclusive or, decoding. |
| `Cobs.Xor3IsXor` | crates/rust-spike/src/cobs.rs:98-106 | Flipping the two low bits is the machine's exclusive or with 3. |
| `FrameReader.ReadUntil` | crates/rust-spike/src/firmware.rs:138-170 | However the bytes arrive, the first wanted message of the whole stream is returned and all before it dropped, unless a frame before it has stopped the program. The frames behind it are those of what has not arrived yet and what was left of the last arrival, which goes away with the buffer. |
| `FrameReader.PopFrames` | crates/rust-spike/src/firmware.rs:146-161 | Taking frames off the buffer changes neither which frame ends the reading nor which frames stand behind it. |
| `FrameReader.FramesAppend` | crates/rust-spike/src/firmware.rs:146-168 | Frames do not depend on how the stream is cut into arrivals. |
| `FrameReader.SplittingRecovers` | crates/rust-spike/src/firmware.rs:147-152 | Concatenated packed messages split into one frame each, in order, and each unpacks to its message. |
| `FrameReader.FirstWantedIs` | crates/rust-spike/src/firmware.rs:146-168 | The answer for every sequence of frames: a message is found exactly if its frame is wanted and before it none is wanted or has a code byte below 2; the program stops exactly if a frame has such a byte and before it none is wanted or has one; otherwise time runs out. |
| `FrameReader.UnpackingAbortsIff` | crates/rust-spike/src/cobs.rs:111-129 | Unpacking a frame overflows exactly if, stripped and flipped, it has a code byte below 2. |
| `FrameReader.AnyArrivalFindsTheFirstWanted` | crates/rust-spike/src/firmware.rs:138-170 | So however the hub's messages arrive, the first wanted one is found, none exactly if none is wanted, and decoding never stops the program. |
| `FrameReader.ReadTwice` | crates/rust-spike/src/firmware.rs:138-170 | Two calls in a row over one stream: the second finds the first message it wants among the frames of what the first has not read. |
| `FrameReader.SecondCallSeesIff` | crates/rust-spike/src/firmware.rs:144-144 | The frames that the second call sees are all those behind the first answer exactly if nothing was left in the buffer of the first, or what was left and what comes hold no complete frame. |
| `SpikeUpload.UploadFirmware` | crates/rust-spike/src/firmware.rs:34-120 | The announced checksum, the chunks sent and the outcome, for every answer of the hub, resume offset past the end included. |
| `SpikeUpload.SendChunks` | crates/rust-spike/src/firmware.rs:91-108 | A first part of the planned chunks, all of it on success, up to the first rejected one otherwise. |
| `SpikeUpload.ChunksAreTheSuffix` | crates/rust-spike/src/firmware.rs:91-108 | The chunks join to the part of the image that the hub does not have. |
| `SpikeUpload.CrcAppend` | crates/rust-spike/src/atlantis.rs:284-295 | Continuing a CRC-32 (section 8 of RFC 1952) gives the checksum of the whole. |
| `SpikeUpload.ChunkSizeIs` | crates/rust-spike/src/firmware.rs:81-81 | At least 64 bytes are sent at a time. |
| `SpikeUpload.CheckValue` | crates/rust-spike/src/atlantis.rs:269-282 | The check value of CRC-32, that of the figures 1 to 9. |
| `SpikeUpload.Crc32Padded` | crates/rust-spike/src/atlantis.rs:269-282 | The checksum of the data padded with zeros to a multiple of four bytes. |
| `SpikeUpload.Hasher.Update` | crates/rust-spike/src/atlantis.rs:289-293 | The byte-wise loop continues the checksum. |
| `SpikeUpload.RunningCrcIsPrefixCrc` | crates/rust-spike/src/firmware.rs:83-108 | With sizes and offsets that are multiples of four, each chunk carries the padded checksum of everything up to its end. |
| `SpikeUpload.UploadChecksumsAgree` | crates/rust-spike/src/firmware.rs:81-110 | And the last one carries the checksum announced for the whole image. |
| `SpikeUpload.PaddingSplitsIff` | crates/rust-spike/src/atlantis.rs:269-295 | What is hashed for two chunks, each padded, is the padded whole exactly if the first chunk is a multiple of four long, or the second is nothing but zeros and is itself a multiple of four long or so long that its padding makes up for that of the first. |
| `SpikeUpload.ChecksumsSplitIff` | crates/rust-spike/src/firmware.rs:81-110 | Wherever chunk by chunk as many bytes are hashed as for the whole, the checksums agree exactly if the first chunk is a multiple of four long or the second leads the empty register to zero. |
| `SpikeUpload.UnalignedChecksumsCanAgree` | crates/rust-spike/src/firmware.rs:81-110 | So an unaligned upload can end with the announced checksum though other bytes were hashed: behind any chunk one byte longer than a multiple of four, the eight bytes of the polynomial do it. |
| `BrickFrame.BuildFrame` | crates/rust-brickinterface/src/protocol.rs:6-20 | Start byte, length, sequence number, command, payload, exclusive or. |
| `BrickFrame.FrameBytes` | crates/rust-brickinterface/src/protocol.rs:6-20 | Every byte of a frame by its place. |
| `BrickFrame.FrameExamples` | crates/rust-brickinterface/src/protocol.rs:6-20 | The checksum of two frames, which is the exclusive or of all bytes behind the start byte. |
| `BrickFrame.TryParseFrame` | crates/rust-brickinterface/src/protocol.rs:30-65 | The first complete valid frame and the position behind it, or none; bad lengths and checksums are skipped byte by byte. |
| `BrickFrame.ParseIsStable` | crates/rust-brickinterface/src/protocol.rs:30-65 | A frame that was found stays found, at the same place, whatever arrives after it. |
| `BrickFrame.DrainAppend` | crates/rust-brickinterface/src/device.rs:38-54 | Extracting and draining as bytes arrive gives the frames of one-shot parsing, for every cut of every stream, junk included. |
| `BrickFrame.BuiltReadsBackIff` | crates/rust-brickinterface/src/protocol.rs:6-65 | A built frame is read back exactly when its payload is at most 40 bytes. |
| `BrickFrame.DrainsBuilt` | crates/rust-brickinterface/src/protocol.rs:6-65 | A stream of such frames drains to exactly these frames. |
| `BrickFrame.FoundBehindJunkIff` | crates/rust-brickinterface/src/protocol.rs:30-65 | Resynchronising: behind arbitrary junk and in front of anything, a built frame is found at its place if and only if no start byte of the junk begins a candidate that is complete with a good checksum or still waits for bytes. |
| `BrickFrame.SkipsJunk` | crates/rust-brickinterface/src/protocol.rs:34-41 | In particular junk without a start byte is passed over. |
| `Connection.Conn.RecvFrame` | crates/rust-brickinterface/src/device.rs:38-54 | The next frame of everything that is buffered or arrives; none only if there is none. |
| `Connection.Conn.RecvReply` | crates/rust-brickinterface/src/device.rs:59-71 | The next frame that is no event; a burst report passed on the way ends the pending burst. |
| `Connection.FirstReply` | crates/rust-brickinterface/src/device.rs:59-71 | The reply is the first frame whose sequence number is not zero. |
| `Connection.BurstEndIff` | crates/rust-brickinterface/src/device.rs:63-67 | The end of a burst is noticed exactly if it is among the events in front of the reply. |
| `Connection.Conn.NextSeq` | crates/rust-brickinterface/src/device.rs:26-34 | Sequence numbers run round without ever being zero. |
| `InterfaceA.InterfaceAAdapter.StartPorts` | crates/bricklogo-hal/src/adapters/interfacea_adapter.rs:114-138 | All known ports: one frame, after which the six outputs are what the commands one after the other would have left, duplicates and overlapping pairs included; an unknown port: nothing is sent. |
| `InterfaceA.InterfaceAAdapter.StopPorts` | crates/bricklogo-hal/src/adapters/interfacea_adapter.rs:140-156 | The same for stopping. |
| `InterfaceA.InterfaceAAdapter.StartPort` | crates/bricklogo-hal/src/adapters/interfacea_adapter.rs:85-97 | A pair drives one output and stops the other, a single output takes the duty. |
| `InterfaceA.InterfaceAAdapter.StopPort` | crates/bricklogo-hal/src/adapters/interfacea_adapter.rs:99-107 | A pair or a single output takes duty zero. |
| `InterfaceA.FigureNames` | crates/bricklogo-hal/src/adapters/interfacea_adapter.rs:11-13 | The figures 0 to 5, behind any zeros and one plus sign, name the six outputs. |
| `InterfaceA.OnlyFiguresName` | crates/bricklogo-hal/src/adapters/interfacea_adapter.rs:11-13 | Nothing else names a single output. |
| `InterfaceA.PairsAre` | crates/bricklogo-hal/src/adapters/interfacea_adapter.rs:15-25 | Which two outputs each pair drives, which of them in which direction, and that stopping stops both. |
| `InterfaceA.SingleIs` | crates/bricklogo-hal/src/adapters/interfacea_adapter.rs:85-107 | A single output takes the power whatever the direction, and no other output changes. |
| `InterfaceA.MaskedSelected` | crates/rust-brickinterface/src/device.rs:147-158 | Duties packed in ascending bit order go to exactly the outputs whose bits are set. |
| `InterfaceA.SetBit` | crates/bricklogo-hal/src/adapters/interfacea_adapter.rs:117-131 | Setting a bit of the mask selects that output and no other. |

## Left out

- Real input and output: serial lines, USB, HID, Bluetooth, WebSockets, files, gzip, clocks, sleeps and timeouts. A
  transport is a sequence of arrivals, an outcome chosen per attempt, or a fate chosen per request; a timeout is the end of the arrivals.
- Prompt.App.SubmitInput: the input is the line as it is after trimming, and not empty; the words that the prompt handles itself, breaking off
  an input, and input while the evaluator is busy are left out, so the known arities stay the same while more is asked for.
- The terminal interface, command line, completion, help and configuration, and the evaluator apart from `set_global`.
- Floating point: a Logo number is the lexeme it was written with in the language part, and eight opaque bytes in the codec.
- Case folding is that of ASCII letters; the lexer's character classes are those of the source on all characters.
- Source positions of call nodes, which the evaluator uses for error messages; token positions are modelled.
- Running what was loaded, which is what defines the procedures and replaces those of the same name.
- JSON encoding, SHA-1, passwords and the choice between JSON and binary; the UTF-8 check follows section 4 of RFC 3629.
- Replication.StepKeeps: leaving empties both directions of a connection at once. A late message of an old connection that is delivered after
  the client has joined again, and two handlers of one client relaying out of order, do not occur in the model.
- Replication of NaN: values are compared by equality, and in the source a NaN differs from itself, so writing it again is broadcast again.
- Replication with several writers of one variable: relays exclude the sender, so values can differ for good.
- The gap in `set_global` between changing the map and sending on the channel, when several threads of one node write the same variable.
- RcxFirmware.UploadFirmware: progress reports are left out, and the result codes of the brick are arbitrary but fixed for each executed command.
- RCX replies that arrive in parts over several reads; the other RCX commands, which only build a frame.
- S-Record text beyond ASCII, where byte and character positions differ.
- Download.DfuDevice.Download: status polling, the clean-up of a stale state before the download and the status after leaving are folded
  into the fate of each request; progress reports are left out. The text of a sector layout and of a DfuSe file is not parsed here.
- Cobs.Decode: overflow checks are taken to be on, so that subtracting from a code byte below 2 stops the program; without them it wraps
  round and what is decoded then is not modelled.
- Prefix.ErrorsAtTheEndMayGoAway: one family of inputs that another token on the same line repairs. Which errors at the end other tokens on
  the same line can repair is said only for malformed numbers (none can, `ErrorsArePermanent`); for further lines it is said of all.
- SpikeUpload.ChecksumsSplitIff: says nothing of chunks whose padding adds four bytes to those of the whole.
- SPIKE messages other than the upload's, and the reading of info responses; `read_until` gives back the unpacked message and the
  predicate decides on it.
- Infrared bursts of the BrickInterface beyond the note that one has ended.
- Adapter failure in the port manager: adapters are taken to succeed. A batch that fails half-way records nothing, so the agreement of
  records and hardware does not outlive a failure.
- PortLaws.StepKeeps: a command that selects a port of a lost device is taken to succeed for the other ports of its selection and to leave the
  lost one alone. In the source such a batch returns an error before it records anything, also for the ports whose devices were reached.
- Ports of one device that share hardware (a pair and its single outputs on Interface A) are taken to be independent in the port manager.
- The moment between the check of a flash task's flag and its taking of the lock: a visit of a flash task is one step.
- Threads for parallel-safe adapters: the batches of different devices are sent in an arbitrary order instead.
- PortManager.PortManager.Move: timed runs and rotations leave out how far or how long the motor moves; what counts is that it stands still after.
- Adding, removing and activating devices, the list of most recently used ones, colours, counters and zero positions; a device can be lost.
- A slot or a task of the scheduler that panics; slots and tasks are named by their ids, and whether they live or retire is arbitrary.
- Scheduler.CalledAgain: bounds the steps of the loop, not time; that the loop thread is given turns is up to the machine.
- One-shot command builders, device tables and mode maps: they only build a frame or look up a constant.
