# parser-rs in Dafny

A model of the whole of `parser-rs`: a greedy tokenizer feeding a
one-token-lookahead recursive-descent parser for the grammar

    Program -> Literal
    Literal -> NUMBER | IDENTIFIER

The tokenizer (`src/token.rs`) looks at the character under its cursor once to
pick a class: an ASCII decimal digit starts a number, anything else an
identifier. It then takes the longest run that class admits (digits only for a
number; letters or `_`, and digits once the run is non-empty, for an
identifier) and emits `Int` of the run's value or `Str` of its text. An empty
run, or an exhausted input, yields no token. The parser (`src/parser.rs`) loads
the text, primes its lookahead with the first token, and turns it into a
`Program` holding one `Literal`.

Files, one module each:

- `results.dfy` (`Results`): `Option` and `Result`. Every panic of the source
  becomes an `Err`.
- `chars.dfy` (`Chars`): `is_digit(10)`, an abstract `is_alphabetic`, `i32`,
  and `parse::<i32>` of a digit run.
- `token.dfy` (`Token`): the tokenizer state, `new`, `init`, `has_more`,
  `get_next` (as a function, and as the source's loop proved equal to it).
- `parser.dfy` (`Parser`): the AST, the parser state, `new`, `eat`, `literal`,
  `program`, `parse`, and the properties of a whole parse.
- `scenarios.dfy` (`Scenarios`): concrete inputs, including the one `src/main.rs`
  parses and the re-use of one parser.

Modelling choices:

- The input is a `string` (a sequence of characters) and the cursor counts
  characters. The source counts UTF-8 bytes; on ASCII text the two agree.
- `char::is_alphabetic` is a parameter of type `Alphabetic`: any
  `char -> bool` that, on ASCII, holds exactly for the letters. So it is
  false for digits, `_` and blanks, and open on the rest of Unicode.
- `parse::<i32>()` of a digit run is its base-10 value when that is at most
  2^31-1, and the error `PosOverflow` otherwise. The tokenizer `unwrap`s it, so
  the model's parser reports `InvalidInt(PosOverflow)`.
- The states are immutable records threaded through pure functions. Each
  parser routine returns the value it built together with the new state.

Three behaviours of the code that a reader might not expect:

- `Tokenizer::init` replaces the text but not the cursor
  (`src/token.rs:38-40`). A second `parse` on the same parser continues from
  the old cursor, so it is not reset to a clean start (`Scenarios.ReuseKeepsCursor`).
- On empty text, and on text whose first character starts no token (such as a
  blank), `parse` fails at the `unwrap` of the lookahead in `literal`
  (`src/parser.rs:91`), not at `eat`'s end-of-input check. The model calls
  this `NoLookahead`, distinct from `eat`'s `UnexpectedEndOfInput`.
- `eat` moves the lookahead to the next token before it checks the kind of the
  token it holds (`src/parser.rs:116-131`). A failure of that move therefore
  takes precedence over a kind mismatch. From `parse` the mismatch can never
  happen: `literal` always asks for the kind it just saw.

## Model

| member | source | states |
|---|---|---|
| Chars.AlphabeticExcludesDigitsAndUnderscore | src/token.rs:62-63 | `is_alphabetic` is false for digits, `_` and the blank, so an identifier's first character is a letter or `_` only through the class test |
| Chars.ParseI32 | src/token.rs:75-76 | a non-empty digit run parses to its base-10 value exactly when that value is at most 2^31-1, and fails with an overflow otherwise; it never wraps |
| Chars.ParseI32Spelling | src/token.rs:75-76 | parsing the decimal spelling of any non-negative `i32` gives that number back (round trip) |
| Chars.SpellingRoundTrip | src/token.rs:75-76 | the decimal spelling of a natural number is a non-empty digit string whose base-10 value is the number |
| Chars.OverflowIsPermanent | src/token.rs:75-76 | once a digit run overflows, every longer run that starts with it overflows too |
| Chars.LeadingZeroIgnored | src/token.rs:75-76 | a leading zero does not change the parsed value |
| Chars.DecimalValueGrows | src/token.rs:75-76 | appending digits never decreases the value of a digit string |
| Token.New | src/token.rs:31-36 | a new tokenizer has no text and its cursor at 0 |
| Token.Init | src/token.rs:38-40 | `init` sets the text and keeps the cursor as it was |
| Token.HasMore | src/token.rs:42-44 | true exactly when a character remains at the cursor; a cursor left past the end of a shorter text counts as exhausted, and a cursor at 0 has more exactly when the text is non-empty |
| Token.Extends | src/token.rs:59-63 | the loop's class test: a number takes exactly digits; an identifier's first character must be a letter or `_` (so never a digit); later characters may be letters, `_` or digits |
| Token.RunEnd | src/token.rs:56-70 | the scan loop stops at the end of the input or at the first character the class rule rejects, having accepted every character before it |
| Token.MaximalRunUnique | src/token.rs:56-70 | there is only one maximal run of a class at a given position, so the scan's stopping point is determined |
| Token.GetNext | src/token.rs:46-84 | at the end of the input: no token, state unchanged; otherwise the cursor moves forward over exactly the maximal run of the first character's class and stays within the input; `Int` exactly when the first character is a digit, with the run's value; `Str` with exactly the run's text; no token only when the cursor did not move; failure only when the digit run's value exceeds 2^31-1 |
| Token.IntTokenShape | src/token.rs:54-61 | a number token is a non-empty run of digits followed by a non-digit or the end of the input |
| Token.StrTokenShape | src/token.rs:62-70 | an identifier token starts with a letter or `_`, continues with letters, `_` or digits, and is followed by a character that is none of these or by the end of the input |
| Token.NoTokenIffStuck | src/token.rs:46-84 | `get_next` returns nothing and leaves the state unchanged if and only if the input is exhausted or its next character is neither a digit, a letter nor `_`; then every later call does the same |
| Token.FollowingScan | src/token.rs:56-70 | right after a token the next call cannot fail and cannot yield a number; right after an identifier it yields nothing |
| Token.RunEndPrefix | src/token.rs:56-70 | a run that stops inside a text stops at the same place when more text is appended |
| Token.TrailingTextIgnored | src/token.rs:46-84 | text appended after the token at the cursor changes neither the token nor the new cursor |
| Token.ScanNext | src/token.rs:46-84 | the character-by-character loop of `get_next` computes the same step as `Token.GetNext` |
| Parser.New | src/parser.rs:49-55 | a new parser has no text, no lookahead and a new tokenizer |
| Parser.KindMatches | src/parser.rs:124-126 | an `Int` matches exactly `"NUMBER"`, a `Str` exactly `"IDENTIFIER"`, and no other type name matches anything |
| Parser.Eat | src/parser.rs:108-132 | with no lookahead `eat` fails with end of input; when the tokenizer's next step overflows it fails with that overflow, whatever the kind; otherwise it succeeds exactly when the lookahead's kind matches the requested type, returns the old lookahead, and leaves the lookahead and tokenizer at the tokenizer's next step; a kind failure names the requested type and the token |
| Parser.LiteralRule | src/parser.rs:90-106 | with no lookahead `literal` fails at the `unwrap`; with one it fails only when the tokenizer's next step overflows, and otherwise yields the literal of the lookahead token and leaves the lookahead and tokenizer at the tokenizer's next step |
| Parser.ProgramRule | src/parser.rs:79-83 | fails at the `unwrap` without a lookahead, with the overflow when the next step overflows, and otherwise succeeds with a program whose body is the literal of the lookahead token, the lookahead moved to the next token |
| Parser.Parse | src/parser.rs:60-106 | the result is decided by the first token scanned from the tokenizer's existing cursor: none gives `NoLookahead`, an overflow gives `InvalidInt`, a token gives the program of its literal, with the parser and tokenizer holding the given text and the lookahead on the following token, whose scan never fails; a kind mismatch or `eat`'s end of input never occurs |
| Parser.ParseDependsOnlyOnCursor | src/parser.rs:60-67 | two parsers whose tokenizers share a cursor parse any text identically; earlier text and lookahead leave no trace |
| Parser.ParseFailsWithoutFirstToken | src/parser.rs:60-91 | `parse` fails with `NoLookahead` if and only if the cursor is at or past the end of the text or the character there starts no token |
| Parser.FreshParseNumber | src/parser.rs:60-98 | on a new parser, text starting with a maximal digit run parses to the number literal of that run's value, or fails with an overflow when the value exceeds 2^31-1 |
| Parser.FreshParseIdentifier | src/parser.rs:60-104 | on a new parser, text starting with a maximal identifier run parses to the string literal of exactly that run |
| Parser.TrailingInputIgnored | src/parser.rs:60-122 | appending text after the first token never changes the outcome of `parse` |
| Parser.EatAdvancesBeforeKindCheck | src/parser.rs:116-131 | when the lookahead's kind mismatches and moving to the next token fails, `eat` reports the tokenizer's failure, because the move happens first |
| Scenarios.PrintExample | src/main.rs:9 | `"print 123"` on a new parser gives `StringLiteral("print")`; the rest is ignored |
| Scenarios.NumberExample | src/parser.rs:92-98 | `"123"` gives `NumberLiteral(123)` |
| Scenarios.IdentifierWithDigitsExample | src/token.rs:62-66 | `"foo123"` gives `StringLiteral("foo123")` |
| Scenarios.EmptyInputExample | src/parser.rs:91 | `""` fails at the lookahead `unwrap` (`NoLookahead`) |
| Scenarios.LeadingBlankExample | src/token.rs:72-83 | `" 42"` fails with `NoLookahead`: blanks are not skipped |
| Scenarios.OverflowExample | src/token.rs:76 | `"2147483647"` gives that number; `"2147483648"` fails with an overflow |
| Scenarios.PrintLeavesCursorAtEnd | src/parser.rs:60-70 | parsing `"print"` leaves the tokenizer's cursor at 5 and no lookahead |
| Scenarios.ReuseKeepsCursor | src/token.rs:38-40 | after `"print"`, the same parser fails on `"123"` and parses `"print123"` to `NumberLiteral(123)`, because the cursor stays at 5 |

## Left out

- `src/main.rs`: it only constructs a parser, parses a fixed string and prints; its input appears as `Scenarios.PrintExample`.
- The `Display` and `Debug` implementations (`src/token.rs:21-28`, `src/parser.rs:24-43`): presentation only.
- `ParsedToken.token_type` (`src/token.rs:14-19`): never read, and determined by the `TokenValue` variant. `get_next` yields the value directly.
- Panic messages: failures are the `Error` variants, without text. A panic ends the process, so the parser state after a failure is not modelled.
- Unicode: `is_alphabetic` is abstract outside ASCII, and the cursor counts characters rather than UTF-8 bytes. The source's panic when a re-used byte cursor falls inside a multi-byte character of the new text cannot occur in the model, and a cursor carried over from non-ASCII text points elsewhere in the next text than the source's: after `parse("é")` the source's cursor is 2 and the model's is 1, so a following `parse("ab")` fails with no lookahead in the source but gives `StringLiteral("b")` in the model.
- The `ParseIntError` kinds other than positive overflow (empty, invalid digit, negative overflow): a non-empty run of ASCII digits cannot produce them.
