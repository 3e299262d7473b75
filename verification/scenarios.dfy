/** Concrete runs of the parser: the demonstration input of `src/main.rs`, a
    number, an identifier with digits, empty input, a leading blank, the `i32`
    boundary, and what re-using one parser does. */
module Scenarios {
  import opened Results
  import opened Chars
  import opened Token
  import opened Parser

  /** The demonstration input: the identifier is the whole result, the rest of
      the text is never looked at. */
  lemma PrintExample(alpha: Alphabetic)
    ensures Outcome(Parse(Parser.New(), "print 123", alpha)) == Ok(Program(Literal(StringLiteral("print"))))
  {
    var input := "print 123";
    forall k | 0 <= k < 5 ensures alpha(input[k]) {
      assert input[k] as int < 128;
    }
    AlphabeticExcludesDigitsAndUnderscore(alpha, ' ');
    assert IsMaximalRun(input, 0, 5, false, alpha);
    FreshParseIdentifier(input, 5, alpha);
    assert input[..5] == "print";
  }

  lemma NumberExample(alpha: Alphabetic)
    ensures Outcome(Parse(Parser.New(), "123", alpha)) == Ok(Program(Literal(NumberLiteral(123))))
  {
    var input := "123";
    assert IsMaximalRun(input, 0, 3, true, alpha);
    FreshParseNumber(input, 3, alpha);
    assert input[..3] == input;
    Value123();
  }

  lemma Value123()
    ensures DecimalValue("123") == 123
  {
    assert "123"[..2] == "12";
    assert "12"[..1] == "1";
    assert "1"[..0] == "";
  }

  /** An identifier may carry digits after its first character. */
  lemma IdentifierWithDigitsExample(alpha: Alphabetic)
    ensures Outcome(Parse(Parser.New(), "foo123", alpha)) == Ok(Program(Literal(StringLiteral("foo123"))))
  {
    var input := "foo123";
    forall k | 0 <= k < 3 ensures alpha(input[k]) {
      assert input[k] as int < 128;
    }
    assert IsMaximalRun(input, 0, 6, false, alpha);
    FreshParseIdentifier(input, 6, alpha);
    assert input[..6] == input;
  }

  /** Empty text fails at the lookahead `unwrap` in `literal`, before `eat`. */
  lemma EmptyInputExample(alpha: Alphabetic)
    ensures Parse(Parser.New(), "", alpha) == Err(NoLookahead)
  {
    ParseFailsWithoutFirstToken(Parser.New(), "", alpha);
  }

  /** White space is not skipped: a leading blank leaves no first token. */
  lemma LeadingBlankExample(alpha: Alphabetic)
    ensures Parse(Parser.New(), " 42", alpha) == Err(NoLookahead)
  {
    AlphabeticExcludesDigitsAndUnderscore(alpha, ' ');
    ParseFailsWithoutFirstToken(Parser.New(), " 42", alpha);
  }

  lemma ValueI32Max()
    ensures DecimalValue("214748364") == 214748364
  {
    assert "214748364"[..8] == "21474836";
    assert "21474836"[..7] == "2147483";
    assert "2147483"[..6] == "214748";
    assert "214748"[..5] == "21474";
    assert "21474"[..4] == "2147";
    assert "2147"[..3] == "214";
    assert "214"[..2] == "21";
    assert "21"[..1] == "2";
    assert "2"[..0] == "";
  }

  /** The largest `i32` parses; one more overflows instead of wrapping. */
  lemma OverflowExample(alpha: Alphabetic)
    ensures Outcome(Parse(Parser.New(), "2147483647", alpha)) == Ok(Program(Literal(NumberLiteral(0x7FFF_FFFF))))
    ensures Parse(Parser.New(), "2147483648", alpha) == Err(InvalidInt(PosOverflow))
  {
    var max := "2147483647";
    var over := "2147483648";
    assert IsMaximalRun(max, 0, 10, true, alpha);
    assert IsMaximalRun(over, 0, 10, true, alpha);
    assert max[..10] == max;
    assert over[..10] == over;
    ValueI32Max();
    assert max[..9] == "214748364";
    assert over[..9] == "214748364";
    FreshParseNumber(max, 10, alpha);
    FreshParseNumber(over, 10, alpha);
  }

  /** Parsing "print" on a fresh parser leaves the cursor at the end of the text. */
  lemma PrintLeavesCursorAtEnd(alpha: Alphabetic)
    ensures Parse(Parser.New(), "print", alpha) ==
            Ok(Parsed(Program(Literal(StringLiteral("print"))), State("print", Tokenizer("print", 5), None)))
  {
    var input := "print";
    forall k | 0 <= k < 5 ensures alpha(input[k]) {
      assert input[k] as int < 128;
    }
    assert IsMaximalRun(input, 0, 5, false, alpha);
    assert TokenEnd(input, 0, alpha) == 5 by {
      MaximalRunUnique(input, 0, 5, TokenEnd(input, 0, alpha), false, alpha);
    }
    assert input[0..5] == input;
  }

  /** Re-using a parser: `parse` replaces the text but the tokenizer keeps its
      cursor, so the second parse starts scanning where the first one stopped. */
  lemma ReuseKeepsCursor(alpha: Alphabetic)
    ensures var first := Parse(Parser.New(), "print", alpha);
            && first.Ok?
            && first.value.state.tokenizer.cursor == 5
            && Parse(first.value.state, "123", alpha) == Err(NoLookahead)
            && Outcome(Parse(first.value.state, "print123", alpha)) == Ok(Program(Literal(NumberLiteral(123))))
  {
    PrintLeavesCursorAtEnd(alpha);
    var used := State("print", Tokenizer("print", 5), None);
    ParseFailsWithoutFirstToken(used, "123", alpha);
    var again := "print123";
    assert IsMaximalRun(again, 5, 8, true, alpha);
    assert TokenEnd(again, 5, alpha) == 8 by {
      MaximalRunUnique(again, 5, 8, TokenEnd(again, 5, alpha), true, alpha);
    }
    assert again[5..8] == "123";
    Value123();
  }
}
