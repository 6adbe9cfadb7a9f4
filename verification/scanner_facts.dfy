/**
 * What the scanner promises: end of file is sticky, integers are maximal digit
 * runs, operators are single characters, a text scans without error exactly
 * when every character is whitespace, a digit, `+` or `-`, and the token texts
 * together are the text with its whitespace removed.
 */
module ScannerFacts {
  import opened Wrappers
  import opened JavaText
  import opened ArithmeticScanner

  // ---------------------------------------------------------------- one call

  /** Once end of file has been returned, every further call returns it again and leaves the cursor alone. */
  lemma EofIsSticky(s: Scanner)
    requires NextToken(s).result == Success(EofToken)
    ensures NextToken(NextToken(s).after) == NextToken(s)
  {
  }

  /**
   * An integer token is the whole digit run at the first non-whitespace
   * character: it is non-empty, all digits, and no digit follows it.
   */
  lemma IntegerIsMaximalRun(s: Scanner)
    requires NextToken(s).result.Success? && NextToken(s).result.value.kind == Integer
    ensures var q, e := SkipWhitespace(s.text, s.position), NextToken(s).after.position;
      && q < e <= |s.text|
      && NextToken(s).result.value.value == Some(s.text[q..e])
      && AllDigits(s.text[q..e])
      && (e == |s.text| || !IsDigit(s.text[e]))
  {
    var q := SkipWhitespace(s.text, s.position);
    var e := NextToken(s).after.position;
    assert forall k | 0 <= k < e - q :: s.text[q..e][k] == s.text[q + k];
  }

  /** An operator token is the one character `+` or `-` at the first non-whitespace character. */
  lemma OperatorIsOneCharacter(s: Scanner)
    requires NextToken(s).result.Success? && NextToken(s).result.value.kind == Operator
    ensures var q := SkipWhitespace(s.text, s.position);
      && q < |s.text| && IsOperatorChar(s.text[q])
      && NextToken(s).result.value.value == Some([s.text[q]])
      && NextToken(s).after.position == q + 1
  {
  }

  /** A successful call passes over allowed characters only. */
  lemma PassesAllowed(s: Scanner)
    requires NextToken(s).result.Success?
    ensures forall k | s.position <= k < NextToken(s).after.position && k < |s.text| :: Allowed(s.text[k])
  {
  }

  // ---------------------------------------------------------------- the whole text

  /** A text scans to the end without error exactly when every character from the cursor on is allowed. */
  lemma {:induction false} ScansIffAllowed(s: Scanner)
    requires s.position <= |s.text|
    ensures TokensFrom(s).Success? <==> forall k | s.position <= k < |s.text| :: Allowed(s.text[k])
    decreases |s.text| - s.position
  {
    var step := NextToken(s);
    if step.result.Success? {
      PassesAllowed(s);
      if step.result.value.kind != Eof {
        ScansIffAllowed(step.after);
      }
    }
  }

  /** The non-whitespace characters of the text from p on. */
  function Visible(text: string, p: nat): string
    decreases |text| - p
  {
    if p >= |text| then ""
    else (if IsWhitespace(text[p]) then "" else [text[p]]) + Visible(text, p + 1)
  }

  /** The texts of the tokens, in order; end of file contributes nothing. */
  function Values(toks: seq<ScanToken>): string
    decreases |toks|
  {
    if |toks| == 0 then ""
    else (if toks[0].value.Some? then toks[0].value.value else "") + Values(toks[1..])
  }

  lemma {:induction false} VisibleSkipsWhitespace(text: string, p: nat)
    ensures Visible(text, p) == Visible(text, SkipWhitespace(text, p))
    decreases |text| - p
  {
    if p < |text| && IsWhitespace(text[p]) {
      VisibleSkipsWhitespace(text, p + 1);
    }
  }

  lemma {:induction false} VisibleOfRun(text: string, p: nat, e: nat)
    requires p <= e <= |text| && forall k | p <= k < e :: !IsWhitespace(text[k])
    ensures Visible(text, p) == text[p..e] + Visible(text, e)
    decreases e - p
  {
    if p < e {
      VisibleOfRun(text, p + 1, e);
      var run, rest := text[p + 1..e], Visible(text, e);
      assert Visible(text, p) == [text[p]] + (run + rest);
      assert text[p..e] == [text[p]] + run;
      assert [text[p]] + (run + rest) == ([text[p]] + run) + rest;
    }
  }

  lemma ValuesOfCons(t: ScanToken, rest: seq<ScanToken>)
    ensures Values([t] + rest) == (if t.value.Some? then t.value.value else "") + Values(rest)
  {
    assert ([t] + rest)[1..] == rest;
  }

  /** The characters one successful call reads, followed by what remains visible after it. */
  lemma StepIsVisible(s: Scanner)
    requires s.position <= |s.text| && NextToken(s).result.Success? && NextToken(s).result.value.kind != Eof
    ensures Visible(s.text, s.position) == NextToken(s).result.value.value.value + Visible(s.text, NextToken(s).after.position)
  {
    var q := SkipWhitespace(s.text, s.position);
    VisibleSkipsWhitespace(s.text, s.position);
    VisibleOfRun(s.text, q, NextToken(s).after.position);
  }

  /** Scanning loses nothing but whitespace: the token texts in order are the text with its whitespace removed. */
  lemma {:induction false} ValuesAreVisibleText(s: Scanner)
    requires s.position <= |s.text| && TokensFrom(s).Success?
    ensures Values(TokensFrom(s).value) == Visible(s.text, s.position)
    decreases |s.text| - s.position
  {
    var step := NextToken(s);
    var t := step.result.value;
    if t.kind == Eof {
      VisibleSkipsWhitespace(s.text, s.position);
      assert Values([t]) == "";
    } else {
      ValuesAreVisibleText(step.after);
      ValuesOfCons(t, TokensFrom(step.after).value);
      StepIsVisible(s);
    }
  }

  /** The whole text, from a fresh scanner. */
  lemma TokenizeText(text: string)
    ensures Tokenize(text).Success? <==> forall k | 0 <= k < |text| :: Allowed(text[k])
    ensures Tokenize(text).Success? ==> Values(Tokenize(text).value) == Visible(text, 0)
    ensures Tokenize(text).Failure? ==> Tokenize(text).error == |text|
  {
    ScansIffAllowed(Init(text));
    if Tokenize(text).Success? {
      ValuesAreVisibleText(Init(text));
    }
  }

  // ---------------------------------------------------------------- examples

  /** ` 12+3` gives 12, +, 3 and end of file; a digit run may end the text. */
  lemma ScanExample()
    ensures Tokenize(" 12+3") == Success([ScanToken(Integer, Some("12")), ScanToken(Operator, Some("+")),
                                          ScanToken(Integer, Some("3")), EofToken])
  {
    var text := " 12+3";
    var twelve, plus, three := ScanToken(Integer, Some("12")), ScanToken(Operator, Some("+")), ScanToken(Integer, Some("3"));
    ScanExampleCalls();
    assert TokensFrom(Scanner(text, 5)) == Success([EofToken]);
    assert [three] + [EofToken] == [three, EofToken];
    assert TokensFrom(Scanner(text, 4)) == Success([three, EofToken]);
    assert [plus] + [three, EofToken] == [plus, three, EofToken];
    assert TokensFrom(Scanner(text, 3)) == Success([plus, three, EofToken]);
    assert [twelve] + [plus, three, EofToken] == [twelve, plus, three, EofToken];
  }

  /** The four calls of the example, one at a time. */
  lemma ScanExampleCalls()
    ensures NextToken(Scanner(" 12+3", 0)) == Scan(Success(ScanToken(Integer, Some("12"))), Scanner(" 12+3", 3))
    ensures NextToken(Scanner(" 12+3", 3)) == Scan(Success(ScanToken(Operator, Some("+"))), Scanner(" 12+3", 4))
    ensures NextToken(Scanner(" 12+3", 4)) == Scan(Success(ScanToken(Integer, Some("3"))), Scanner(" 12+3", 5))
    ensures NextToken(Scanner(" 12+3", 5)) == Scan(Success(EofToken), Scanner(" 12+3", 5))
  {
    var text := " 12+3";
    assert SkipWhitespace(text, 0) == 1;
    assert DigitRunEnd(text, 1) == 3;
    assert text[1..3] == "12";
    assert DigitRunEnd(text, 4) == 5;
    assert text[4..5] == "3";
  }

  /** `*` is not an operator of this scanner: `1*2` fails with the length of the text as offset. */
  lemma StarIsRejected()
    ensures Tokenize("1*2") == Failure(3)
  {
    TokenizeText("1*2");
    assert !Allowed("1*2"[1]);
  }
}
