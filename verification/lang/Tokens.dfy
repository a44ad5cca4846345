/** Tokens and errors shared by the tokenizer, the parser and the printer. */
module Tokens {

  datatype TokenType =
    | Word | Number | QuotedWord | Variable
    | OpenBracket | CloseBracket | OpenParen | CloseParen
    | Infix | Newline | Eof

  datatype Token = Token(kind: TokenType, value: string, line: nat, col: nat) {
    /** The token without its source position. */
    function Shape(): Tok {
      Tok(kind, value)
    }
  }

  datatype Tok = Tok(kind: TokenType, value: string)

  /** What an error reports, with the values that its text is formatted from. */
  datatype Message =
    | MissingBar
    | ExpectedVariableName
    | UnexpectedCharacter(ch: char)
    | UnexpectedToken(value: string)
    | UnexpectedInList(value: string)
    | Expected(kind: TokenType, value: string)
    | NeedsInputs(name: string, arity: nat, got: nat)
    | ExpectedProcedureName
    | MissingEnd(name: string)
    | MissingBracket
    | MissingParen
    | ForeachNeedsName

  /** `Panicked` stands for the `unwrap` that aborts on a malformed number such as `1.2.3`. */
  datatype LogoError =
    | Syntax(message: Message, line: nat, col: nat)
    | Incomplete(message: Message, line: nat, col: nat)
    | Runtime(message: Message)
    | Panicked(lexeme: string)

  datatype Option<+T> = None | Some(value: T)

  datatype Result<+T> = Ok(value: T) | Err(error: LogoError) {
    predicate IsFailure() {
      Err?
    }
    function PropagateFailure<U>(): Result<U>
      requires Err?
    {
      Err(error)
    }
    function Extract(): T
      requires Ok?
    {
      value
    }
  }

  predicate IsDigit(c: char) {
    '0' <= c <= '9'
  }

  function LowerChar(c: char): char {
    if 'A' <= c <= 'Z' then ((c as int) + 32) as char else c
  }

  function ToLower(s: string): (r: string)
    ensures |r| == |s|
  {
    seq(|s|, i requires 0 <= i < |s| => LowerChar(s[i]))
  }

  function CountDots(s: string): nat {
    if s == [] then 0 else (if s[0] == '.' then 1 else 0) + CountDots(s[1..])
  }

  /** The digit-and-dot lexemes that parse as a floating point number: at least one digit, at most one dot. */
  predicate IsUnsignedNumber(s: string) {
    (exists i :: 0 <= i < |s| && IsDigit(s[i])) &&
    (forall i :: 0 <= i < |s| ==> IsDigit(s[i]) || s[i] == '.') &&
    CountDots(s) <= 1
  }

  predicate IsNumber(s: string) {
    IsUnsignedNumber(if s != [] && s[0] == '-' then s[1..] else s)
  }
}
