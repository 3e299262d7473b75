/** The one-token-lookahead recursive-descent parser of `src/parser.rs`, for the
    grammar `Program -> Literal`, `Literal -> NUMBER | IDENTIFIER`. Each panic of
    the source becomes an `Error`. */
module Parser {
  import opened Results
  import opened Chars
  import opened Token

  datatype LiteralValue = NumberLiteral(n: i32) | StringLiteral(text: string)

  datatype Literal = Literal(value: LiteralValue)

  /** The AST root: exactly one literal. */
  datatype Program = Program(body: Literal)

  /** The `Parser` struct: the loaded text, the tokenizer, and the one-slot lookahead. */
  datatype State = State(input: string, tokenizer: Tokenizer, lookahead: Option<TokenValue>)

  /** Why a parse aborts. */
  datatype Error =
    | NoLookahead                                               // `unwrap` of an empty lookahead in `literal`
    | UnexpectedEndOfInput(expected: string)                    // `eat` with no lookahead
    | UnexpectedTokenType(expected: string, actual: TokenValue) // `eat` with a lookahead of the other kind
    | InvalidInt(kind: IntErrorKind)                            // `unwrap` of a failed `parse::<i32>` in the tokenizer

  /** A value produced by a parser routine together with the state it leaves. */
  datatype Parsed<+T> = Parsed(value: T, state: State)

  const NUMBER: string := "NUMBER"
  const IDENTIFIER: string := "IDENTIFIER"

  function New(): (p: State)
    ensures p.input == [] && p.tokenizer == Token.New() && p.lookahead.None?
  {
    State([], Token.New(), None)
  }

  /** The token type names `eat` accepts for each kind of token. */
  function KindMatches(token: TokenValue, tokenType: string): (b: bool)
    ensures b ==> tokenType == NUMBER || tokenType == IDENTIFIER
    ensures tokenType == NUMBER ==> (b <==> token.Int?)
    ensures tokenType == IDENTIFIER ==> (b <==> token.Str?)
  {
    match token
    case Int(_) => tokenType == NUMBER
    case Str(_) => tokenType == IDENTIFIER
  }

  /** `eat`: with no lookahead it fails. Otherwise it first moves the lookahead to
      the tokenizer's next token and only then checks the kind of the token it
      held, returning that token when the kind matches. */
  function Eat(p: State, tokenType: string, alpha: Alphabetic): (r: Result<Parsed<TokenValue>, Error>)
    ensures p.lookahead.None? ==> r == Err(UnexpectedEndOfInput(tokenType))
    ensures p.lookahead.Some? && GetNext(p.tokenizer, alpha).Err? ==>
              r == Err(InvalidInt(GetNext(p.tokenizer, alpha).error))
    ensures p.lookahead.Some? && GetNext(p.tokenizer, alpha).Ok? ==>
              (r.Ok? <==> KindMatches(p.lookahead.value, tokenType))
    ensures r.Ok? ==>
              && r.value.value == p.lookahead.value
              && r.value.state.input == p.input
              && Ok(Step(r.value.state.lookahead, r.value.state.tokenizer)) == GetNext(p.tokenizer, alpha)
    ensures p.lookahead.Some? && GetNext(p.tokenizer, alpha).Ok? && !KindMatches(p.lookahead.value, tokenType) ==>
              r == Err(UnexpectedTokenType(tokenType, p.lookahead.value))
    ensures r.Err? && r.error.UnexpectedTokenType? ==>
              r.error == UnexpectedTokenType(tokenType, p.lookahead.value) && !KindMatches(p.lookahead.value, tokenType)
  {
    match p.lookahead
    case None => Err(UnexpectedEndOfInput(tokenType))
    case Some(token) =>
      match GetNext(p.tokenizer, alpha)
      case Err(e) => Err(InvalidInt(e))
      case Ok(step) =>
        var advanced := p.(tokenizer := step.next, lookahead := step.token);
        if KindMatches(token, tokenType) then Ok(Parsed(token, advanced))
        else Err(UnexpectedTokenType(tokenType, token))
  }

  /** The literal a token stands for. */
  function LiteralOf(token: TokenValue): (lit: Literal) {
    match token
    case Int(n) => Literal(NumberLiteral(n))
    case Str(s) => Literal(StringLiteral(s))
  }

  /** `literal`: the lookahead must be present; its kind picks the alternative,
      which `eat`s it with the matching token type. */
  function LiteralRule(p: State, alpha: Alphabetic): (r: Result<Parsed<Literal>, Error>)
    ensures p.lookahead.None? ==> r == Err(NoLookahead)
    ensures p.lookahead.Some? ==>
              match GetNext(p.tokenizer, alpha)
              case Err(e) => r == Err(InvalidInt(e))
              case Ok(step) =>
                r == Ok(Parsed(LiteralOf(p.lookahead.value), p.(tokenizer := step.next, lookahead := step.token)))
  {
    match p.lookahead
    case None => Err(NoLookahead)
    case Some(Int(n)) =>
      (match Eat(p, NUMBER, alpha)
       case Err(e) => Err(e)
       case Ok(eaten) => Ok(Parsed(Literal(NumberLiteral(n)), eaten.state)))
    case Some(Str(s)) =>
      match Eat(p, IDENTIFIER, alpha)
      case Err(e) => Err(e)
      case Ok(eaten) => Ok(Parsed(Literal(StringLiteral(s)), eaten.state))
  }

  /** `program`: a program whose body is one literal. */
  function ProgramRule(p: State, alpha: Alphabetic): (r: Result<Parsed<Program>, Error>)
    ensures p.lookahead.None? ==> r == Err(NoLookahead)
    ensures p.lookahead.Some? && GetNext(p.tokenizer, alpha).Err? ==>
              r == Err(InvalidInt(GetNext(p.tokenizer, alpha).error))
    ensures p.lookahead.Some? && GetNext(p.tokenizer, alpha).Ok? ==> r.Ok?
    ensures r.Ok? ==>
              && p.lookahead.Some? && r.value.value.body == LiteralOf(p.lookahead.value)
              && r.value.state.input == p.input
              && Ok(Step(r.value.state.lookahead, r.value.state.tokenizer)) == GetNext(p.tokenizer, alpha)
  {
    match LiteralRule(p, alpha)
    case Err(e) => Err(e)
    case Ok(lit) => Ok(Parsed(Program(lit.value), lit.state))
  }

  /** `parse`: load the text into the parser and the tokenizer, prime the
      lookahead with the first token, and run `program`. The result is decided
      by the first token scanned from the cursor the tokenizer already had: no
      token is a failure, an overflowing number is a failure, and otherwise the
      program is that token's literal and the lookahead is left on the token
      after it, whose scan never fails. */
  function Parse(p: State, input: string, alpha: Alphabetic): (r: Result<Parsed<Program>, Error>)
    ensures r.Ok? ==> r.value.state.input == input && r.value.state.tokenizer.input == input
    ensures r.Err? ==> r.error == NoLookahead || r.error.InvalidInt?
    ensures var first := GetNext(Tokenizer(input, p.tokenizer.cursor), alpha);
            first.Err? ==> r == Err(InvalidInt(first.error))
    ensures var first := GetNext(Tokenizer(input, p.tokenizer.cursor), alpha);
            first.Ok? && first.value.token.None? ==> r == Err(NoLookahead)
    ensures var first := GetNext(Tokenizer(input, p.tokenizer.cursor), alpha);
            first.Ok? && first.value.token.Some? ==>
              && GetNext(first.value.next, alpha).Ok?
              && r == Ok(Parsed(Program(LiteralOf(first.value.token.value)),
                                State(input, GetNext(first.value.next, alpha).value.next,
                                      GetNext(first.value.next, alpha).value.token)))
  {
    var loaded := p.(input := input, tokenizer := Init(p.tokenizer, input));
    match GetNext(loaded.tokenizer, alpha)
    case Err(e) => Err(InvalidInt(e))
    case Ok(step) =>
      FollowingScan(loaded.tokenizer, alpha);
      ProgramRule(loaded.(tokenizer := step.next, lookahead := step.token), alpha)
  }

  /** The program of a parse result, without the parser state it leaves. */
  function Outcome(r: Result<Parsed<Program>, Error>): (o: Result<Program, Error>) {
    match r
    case Ok(parsed) => Ok(parsed.value)
    case Err(e) => Err(e)
  }

  /** What a parse yields depends on the earlier state only through the
      tokenizer's cursor: the input and the lookahead are replaced. */
  lemma ParseDependsOnlyOnCursor(p: State, q: State, input: string, alpha: Alphabetic)
    requires p.tokenizer.cursor == q.tokenizer.cursor
    ensures Parse(p, input, alpha) == Parse(q, input, alpha)
  {
  }

  /** A parse fails for want of a first token exactly when the cursor is already
      at or past the end of the text, or the character there starts no token. */
  lemma ParseFailsWithoutFirstToken(p: State, input: string, alpha: Alphabetic)
    ensures Parse(p, input, alpha) == Err(NoLookahead) <==>
            p.tokenizer.cursor >= |input| || StartsNoToken(input[p.tokenizer.cursor], alpha)
  {
    NoTokenIffStuck(Tokenizer(input, p.tokenizer.cursor), alpha);
  }

  /** On a fresh parser, text that starts with a run of digits parses to a
      number literal holding that run's value, or fails with an overflow when
      the value does not fit in `i32`. */
  lemma FreshParseNumber(input: string, e: nat, alpha: Alphabetic)
    requires 0 < e && IsMaximalRun(input, 0, e, true, alpha)
    ensures AllDigits(input[..e])
    ensures DecimalValue(input[..e]) <= I32Max ==>
              Outcome(Parse(New(), input, alpha)) == Ok(Program(Literal(NumberLiteral(DecimalValue(input[..e]) as i32))))
    ensures DecimalValue(input[..e]) > I32Max ==>
              Parse(New(), input, alpha) == Err(InvalidInt(PosOverflow))
  {
    MaximalRunUnique(input, 0, e, TokenEnd(input, 0, alpha), true, alpha);
  }

  /** On a fresh parser, text that starts with an identifier parses to a string
      literal holding exactly that identifier. */
  lemma FreshParseIdentifier(input: string, e: nat, alpha: Alphabetic)
    requires 0 < e && IsMaximalRun(input, 0, e, false, alpha)
    ensures Outcome(Parse(New(), input, alpha)) == Ok(Program(Literal(StringLiteral(input[..e]))))
  {
    AlphabeticExcludesDigitsAndUnderscore(alpha, input[0]);
    MaximalRunUnique(input, 0, e, TokenEnd(input, 0, alpha), false, alpha);
  }

  /** Only the first token matters: text after it never changes the outcome. */
  lemma TrailingInputIgnored(p: State, input: string, rest: string, alpha: Alphabetic)
    requires TokenEnd(input + rest, p.tokenizer.cursor, alpha) <= |input|
    ensures Outcome(Parse(p, input + rest, alpha)) == Outcome(Parse(p, input, alpha))
  {
    TrailingTextIgnored(Tokenizer(input, p.tokenizer.cursor), rest, alpha);
  }

  /** `eat` moves the lookahead before it checks the kind, so when that move
      fails the failure reported is the tokenizer's, not the kind mismatch. */
  lemma EatAdvancesBeforeKindCheck(p: State, tokenType: string, alpha: Alphabetic)
    requires p.lookahead.Some? && !KindMatches(p.lookahead.value, tokenType)
    requires GetNext(p.tokenizer, alpha).Err?
    ensures Eat(p, tokenType, alpha) == Err(InvalidInt(GetNext(p.tokenizer, alpha).error))
  {
  }
}
