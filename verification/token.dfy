/** The greedy two-class scanner of `src/token.rs`. The input is a sequence of
    characters and the cursor an index into it, counted in characters. */
module Token {
  import opened Results
  import opened Chars

  /** The payload of a token: a parsed integer or identifier text. */
  datatype TokenValue = Int(n: i32) | Str(text: string)

  /** The tokenizer state: the text being scanned and the cursor into it. */
  datatype Tokenizer = Tokenizer(input: string, cursor: nat)

  /** One call of `get_next`: the token it produced, if any, and the new state. */
  datatype Step = Step(token: Option<TokenValue>, next: Tokenizer)

  function New(): (t: Tokenizer)
    ensures t.input == [] && t.cursor == 0
  {
    Tokenizer([], 0)
  }

  /** Replaces the input. The cursor is kept as it was, not reset to 0. */
  function Init(t: Tokenizer, input: string): (r: Tokenizer)
    ensures r.input == input
    ensures r.cursor == t.cursor
  {
    t.(input := input)
  }

  /** `has_more`: a character remains at the cursor. A cursor left past the
      end of a shorter text by `Init` counts as exhausted. */
  function HasMore(t: Tokenizer): (b: bool)
    ensures b <==> t.cursor < |t.input|
    ensures t.cursor == 0 ==> (b <==> t.input != [])
  {
    t.cursor < |t.input|
  }

  /** Whether `c` extends the current run. The class is fixed by the run's first
      character; `started` says that at least one character was already taken,
      which is when an identifier may take digits. */
  function Extends(isNumber: bool, started: bool, c: char, alpha: Alphabetic): (b: bool)
    ensures isNumber ==> (b <==> IsDigit(c))
    ensures !isNumber && !started ==> (b <==> alpha(c) || c == '_') && (b ==> !IsDigit(c))
    ensures !isNumber && started ==> (b <==> alpha(c) || c == '_' || IsDigit(c))
  {
    AlphabeticExcludesDigitsAndUnderscore(alpha, c);
    if isNumber then IsDigit(c) else alpha(c) || c == '_' || (started && IsDigit(c))
  }

  /** `input[start..end]` is the longest run of the given class starting at `start`. */
  ghost predicate IsMaximalRun(input: string, start: nat, end: nat, isNumber: bool, alpha: Alphabetic) {
    && start <= end <= |input|
    && (forall k | start <= k < end :: Extends(isNumber, k > start, input[k], alpha))
    && (end == |input| || !Extends(isNumber, end > start, input[end], alpha))
  }

  /** A class has at most one maximal run at a given position. */
  lemma MaximalRunUnique(input: string, start: nat, e1: nat, e2: nat, isNumber: bool, alpha: Alphabetic)
    requires IsMaximalRun(input, start, e1, isNumber, alpha)
    requires IsMaximalRun(input, start, e2, isNumber, alpha)
    ensures e1 == e2
  {
  }

  /** Where the run of the given class that began at `start` and has reached `j` stops. */
  function RunEnd(input: string, start: nat, j: nat, isNumber: bool, alpha: Alphabetic): (e: nat)
    requires start <= j <= |input|
    ensures j <= e <= |input|
    ensures forall k | j <= k < e :: Extends(isNumber, k > start, input[k], alpha)
    ensures e == |input| || !Extends(isNumber, e > start, input[e], alpha)
    decreases |input| - j
  {
    if j < |input| && Extends(isNumber, j > start, input[j], alpha) then
      RunEnd(input, start, j + 1, isNumber, alpha)
    else
      j
  }

  /** Where the token scanned from cursor `c` ends (`|input|` when there is none to scan). */
  ghost function TokenEnd(input: string, c: nat, alpha: Alphabetic): (e: nat)
    ensures e <= |input|
    ensures c <= |input| ==> c <= e
    ensures c < |input| ==> IsMaximalRun(input, c, e, IsDigit(input[c]), alpha)
  {
    if c < |input| then RunEnd(input, c, c, IsDigit(input[c]), alpha) else |input|
  }

  /** `token` is what the run `input[from..to]` stands for: a run that starts
      with a digit is a number holding its value, any other run is its own text. */
  predicate Denotes(token: TokenValue, input: string, from: nat, to: nat) {
    && from < to <= |input|
    && match token
       case Int(n) => IsDigit(input[from]) && AllDigits(input[from..to]) && n as int == DecimalValue(input[from..to])
       case Str(text) => !IsDigit(input[from]) && text == input[from..to]
  }

  /** `get_next`: at the end of the input, no token and no change. Otherwise the
      first character fixes the class, the cursor moves past the maximal run of
      that class, and a non-empty run becomes a token: `Int` of its value (an
      error if that overflows `i32`) or `Str` of its text. An empty run yields
      no token. */
  function GetNext(t: Tokenizer, alpha: Alphabetic): (r: Result<Step, IntErrorKind>)
    ensures !HasMore(t) ==> r == Ok(Step(None, t))
    ensures r.Ok? ==> r.value.next.input == t.input && t.cursor <= r.value.next.cursor
    ensures HasMore(t) && r.Ok? ==>
              IsMaximalRun(t.input, t.cursor, r.value.next.cursor, IsDigit(t.input[t.cursor]), alpha)
    ensures r.Ok? && r.value.token.None? ==> r.value.next == t
    ensures r.Ok? && r.value.token.Some? ==> Denotes(r.value.token.value, t.input, t.cursor, r.value.next.cursor)
    ensures r.Err? ==>
              && HasMore(t) && IsDigit(t.input[t.cursor])
              && AllDigits(t.input[t.cursor..TokenEnd(t.input, t.cursor, alpha)])
              && DecimalValue(t.input[t.cursor..TokenEnd(t.input, t.cursor, alpha)]) > I32Max
  {
    if !HasMore(t) then
      Ok(Step(None, t))
    else
      var isNumber := IsDigit(t.input[t.cursor]);
      var end := RunEnd(t.input, t.cursor, t.cursor, isNumber, alpha);
      var run := t.input[t.cursor..end];
      var next := t.(cursor := end);
      if |run| == 0 then
        Ok(Step(None, next))
      else if isNumber then
        match ParseI32(run)
        case Ok(n) => Ok(Step(Some(Int(n)), next))
        case Err(e) => Err(e)
      else
        Ok(Step(Some(Str(run)), next))
  }

  /** A character that begins neither a number nor an identifier. */
  predicate StartsNoToken(c: char, alpha: Alphabetic) {
    !IsDigit(c) && !alpha(c) && c != '_'
  }

  /** A numeric token is the maximal run of digits at the cursor. */
  lemma IntTokenShape(t: Tokenizer, alpha: Alphabetic)
    requires GetNext(t, alpha).Ok? && GetNext(t, alpha).value.token.Some?
    requires GetNext(t, alpha).value.token.value.Int?
    ensures var e := GetNext(t, alpha).value.next.cursor;
            && t.cursor < e <= |t.input|
            && (forall k | t.cursor <= k < e :: IsDigit(t.input[k]))
            && (e == |t.input| || !IsDigit(t.input[e]))
  {
  }

  /** An identifier token starts with a letter or `_`, continues with letters,
      `_` or digits, and stops at the first character that is none of these. */
  lemma StrTokenShape(t: Tokenizer, alpha: Alphabetic)
    requires GetNext(t, alpha).Ok? && GetNext(t, alpha).value.token.Some?
    requires GetNext(t, alpha).value.token.value.Str?
    ensures var e := GetNext(t, alpha).value.next.cursor;
            && t.cursor < e <= |t.input|
            && (alpha(t.input[t.cursor]) || t.input[t.cursor] == '_')
            && (forall k | t.cursor < k < e :: alpha(t.input[k]) || t.input[k] == '_' || IsDigit(t.input[k]))
            && (e == |t.input| || !(alpha(t.input[e]) || t.input[e] == '_' || IsDigit(t.input[e])))
  {
    var e := GetNext(t, alpha).value.next.cursor;
    assert Extends(false, false, t.input[t.cursor], alpha);
    assert forall k | t.cursor < k < e :: Extends(false, true, t.input[k], alpha);
  }

  /** `get_next` leaves the state alone and yields nothing exactly when the input
      is exhausted or its next character starts neither class; in that state
      every later call does the same. */
  lemma NoTokenIffStuck(t: Tokenizer, alpha: Alphabetic)
    ensures GetNext(t, alpha) == Ok(Step(None, t)) <==>
            !HasMore(t) || StartsNoToken(t.input[t.cursor], alpha)
  {
    if HasMore(t) {
      var c := t.input[t.cursor];
      var e := RunEnd(t.input, t.cursor, t.cursor, IsDigit(c), alpha);
      if !StartsNoToken(c, alpha) {
        assert Extends(IsDigit(c), false, c, alpha);
        assert t.cursor < e;
      }
    }
  }

  /** After a token, the next call cannot fail and cannot yield a number: a
      number is followed by a non-digit, and an identifier by a character that
      starts no token at all. */
  lemma FollowingScan(t: Tokenizer, alpha: Alphabetic)
    requires GetNext(t, alpha).Ok?
    ensures var t1 := GetNext(t, alpha).value.next;
            GetNext(t, alpha).value.token.Some? ==>
            && GetNext(t1, alpha).Ok?
            && (GetNext(t1, alpha).value.token.None? || GetNext(t1, alpha).value.token.value.Str?)
            && (GetNext(t, alpha).value.token.value.Str? ==> GetNext(t1, alpha) == Ok(Step(None, t1)))
  {
    var t1 := GetNext(t, alpha).value.next;
    if GetNext(t, alpha).value.token.Some? && HasMore(t1) {
      var isNumber := IsDigit(t.input[t.cursor]);
      var c := t1.input[t1.cursor];
      assert !Extends(isNumber, true, c, alpha);
      if !isNumber {
        NoTokenIffStuck(t1, alpha);
      }
    }
  }

  /** A run that stops inside `input` stops at the same place in `input + rest`. */
  lemma {:induction false} RunEndPrefix(input: string, rest: string, start: nat, j: nat, isNumber: bool, alpha: Alphabetic)
    requires start <= j <= |input|
    requires RunEnd(input + rest, start, j, isNumber, alpha) <= |input|
    ensures RunEnd(input, start, j, isNumber, alpha) == RunEnd(input + rest, start, j, isNumber, alpha)
    decreases |input| - j
  {
    if j < |input| {
      assert (input + rest)[j] == input[j];
      if Extends(isNumber, j > start, input[j], alpha) {
        RunEndPrefix(input, rest, start, j + 1, isNumber, alpha);
      }
    }
  }

  /** Text appended after the end of the token at the cursor does not change
      what `get_next` yields or where it leaves the cursor. */
  lemma TrailingTextIgnored(t: Tokenizer, rest: string, alpha: Alphabetic)
    requires TokenEnd(t.input + rest, t.cursor, alpha) <= |t.input|
    ensures var a := GetNext(t, alpha);
            var b := GetNext(Tokenizer(t.input + rest, t.cursor), alpha);
            && a.Ok? == b.Ok?
            && (a.Ok? ==> a.value.token == b.value.token && a.value.next.cursor == b.value.next.cursor)
            && (a.Err? ==> a.error == b.error)
  {
    var long := t.input + rest;
    if t.cursor < |t.input| {
      assert long[t.cursor] == t.input[t.cursor];
      RunEndPrefix(t.input, rest, t.cursor, t.cursor, IsDigit(t.input[t.cursor]), alpha);
      var e := RunEnd(t.input, t.cursor, t.cursor, IsDigit(t.input[t.cursor]), alpha);
      assert long[t.cursor..e] == t.input[t.cursor..e];
    }
  }

  /** Taking one admitted character does not change where the run stops. */
  lemma RunEndStep(input: string, start: nat, j: nat, isNumber: bool, alpha: Alphabetic)
    requires start <= j < |input|
    requires Extends(isNumber, j > start, input[j], alpha)
    ensures RunEnd(input, start, j + 1, isNumber, alpha) == RunEnd(input, start, j, isNumber, alpha)
  {
  }

  /** A run that has reached `j` and cannot take `input[j]` stops at `j`; a
      number run taken so far is all digits. */
  lemma RunStopsHere(input: string, start: nat, j: nat, isNumber: bool, alpha: Alphabetic)
    requires start <= j <= |input|
    requires RunEnd(input, start, j, isNumber, alpha) == RunEnd(input, start, start, isNumber, alpha)
    requires j == |input| || !Extends(isNumber, j > start, input[j], alpha)
    ensures j == RunEnd(input, start, start, isNumber, alpha)
    ensures isNumber ==> AllDigits(input[start..j])
  {
    var e := RunEnd(input, start, start, isNumber, alpha);
    assert e == j;
    if isNumber {
      forall i | 0 <= i < j - start
        ensures IsDigit(input[start..j][i])
      {
        assert Extends(isNumber, start + i > start, input[start + i], alpha);
      }
    }
  }

  /** The loop of `get_next` as written: take characters one at a time while the
      class rule admits them. It computes the same step as `GetNext`. */
  method ScanNext(t: Tokenizer, alpha: Alphabetic) returns (r: Result<Step, IntErrorKind>)
    ensures r == GetNext(t, alpha)
  {
    if !HasMore(t) {
      return Ok(Step(None, t));
    }
    var input := t.input;
    var isNumber := IsDigit(input[t.cursor]);
    var run: string := [];
    var cursor := t.cursor;
    while cursor < |input|
      invariant t.cursor <= cursor <= |input|
      invariant run == input[t.cursor..cursor]
      invariant RunEnd(input, t.cursor, cursor, isNumber, alpha) == RunEnd(input, t.cursor, t.cursor, isNumber, alpha)
      decreases |input| - cursor
    {
      var c := input[cursor];
      var admitted := if isNumber then IsDigit(c) else alpha(c) || c == '_' || (|run| > 0 && IsDigit(c));
      if !admitted {
        break;
      }
      RunEndStep(input, t.cursor, cursor, isNumber, alpha);
      run := run + [c];
      cursor := cursor + 1;
    }
    RunStopsHere(input, t.cursor, cursor, isNumber, alpha);
    var next := t.(cursor := cursor);
    if |run| > 0 {
      if isNumber {
        var n := ParseI32(run);
        match n
        case Ok(v) => r := Ok(Step(Some(Int(v)), next));
        case Err(e) => r := Err(e);
      } else {
        r := Ok(Step(Some(Str(run)), next));
      }
    } else {
      r := Ok(Step(None, next));
    }
  }
}
