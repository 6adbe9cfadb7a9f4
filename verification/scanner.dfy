/**
 * The earlier scanner interpreter.Scanner: a cursor over a text that yields one
 * token per call. It skips whitespace, reads maximal runs of digits as integers,
 * accepts only `+` and `-` as operators, reports the end of the text as an
 * end-of-file token, and rejects every other character.
 *
 * The Java object is a text and a mutable cursor; here a call takes the scanner
 * state and returns the outcome with the state after it. The end of the text is
 * detected in the source by catching the IndexOutOfBoundsException of charAt;
 * here it is an explicit comparison of the cursor with the length.
 */
module ArithmeticScanner {
  import opened Wrappers
  import opened JavaText

  /** The kind tags Token.INTEGER, Token.OPERATOR and Token.EOF of interpreter.Token. */
  datatype ScanKind = Integer | Operator | Eof

  /** An interpreter.Token: a kind and a text, which is null (None) for end of file. */
  datatype ScanToken = ScanToken(kind: ScanKind, value: Option<string>)

  const EofToken := ScanToken(Eof, None)

  /** The scanner's fields: the text and the cursor. */
  datatype Scanner = Scanner(text: string, position: nat)

  /** The outcome of one getNextToken call, and the scanner after it. A failure carries the ParseException offset. */
  datatype Scan = Scan(result: Result<ScanToken, nat>, after: Scanner)

  /** init(text): the text is kept and the cursor starts before the first character, on it when there is one. */
  function Init(text: string): (s: Scanner)
    ensures s.text == text && s.position == 0
    ensures IsPositionInRange(s.text, s.position) <==> |text| > 0
  {
    Scanner(text, 0)
  }

  /** The OPERATORS table, in its order. */
  const Operators: seq<char> := ['+', '-']

  /** isOperator: membership in the OPERATORS table, which holds exactly `+` and `-`. */
  function IsOperatorChar(c: char): (r: bool)
    ensures r <==> c == '+' || c == '-'
  {
    c in Operators
  }

  /**
   * isPositionInRange: `position <= text.length() - 1`, computed on Java ints.
   * The difference is -1 for an empty text, so the test means the cursor stands
   * on a character.
   */
  function IsPositionInRange(text: string, position: nat): (r: bool)
    ensures r <==> position < |text|
  {
    position <= |text| - 1
  }

  /** Characters the scanner can get past without an error. */
  predicate Allowed(c: char) {
    IsWhitespace(c) || IsDigit(c) || IsOperatorChar(c)
  }

  /** The cursor after the whitespace loop: the first non-whitespace character at or after p, or the end of the text. */
  function SkipWhitespace(text: string, p: nat): (q: nat)
    ensures p <= q
    ensures p <= |text| ==> q <= |text|
    ensures p >= |text| ==> q == p
    ensures q < |text| ==> !IsWhitespace(text[q])
    ensures forall k | p <= k < q :: IsWhitespace(text[k])
    decreases |text| - p
  {
    if p < |text| && IsWhitespace(text[p]) then SkipWhitespace(text, p + 1) else p
  }

  /** The end of the maximal digit run starting at p. */
  function DigitRunEnd(text: string, p: nat): (q: nat)
    requires p <= |text|
    ensures p <= q <= |text|
    ensures q < |text| ==> !IsDigit(text[q])
    ensures forall k | p <= k < q :: IsDigit(text[k])
    decreases |text| - p
  {
    if p < |text| && IsDigit(text[p]) then DigitRunEnd(text, p + 1) else p
  }

  /**
   * getNextToken. At the end of the text, before or after skipping whitespace,
   * the result is end of file and the cursor stays where the skipping stopped, so
   * further calls keep returning end of file. A character that is neither a digit
   * nor an operator fails with the length of the text as offset, leaving the
   * cursor on that character.
   */
  function NextToken(s: Scanner): (r: Scan)
    ensures r.after.text == s.text && s.position <= r.after.position
    ensures r.result.Failure? ==> r.result.error == |s.text|
    ensures r.result.Failure? ==> r.after.position < |s.text| && !Allowed(s.text[r.after.position])
    ensures r.result.Success? && r.result.value.kind == Eof ==>
      r.result.value == EofToken && r.after.position >= |s.text|
    ensures r.result.Success? && r.result.value.kind != Eof ==>
      s.position < r.after.position <= |s.text| && r.result.value.value.Some?
  {
    var q := SkipWhitespace(s.text, s.position);
    if q >= |s.text| then Scan(Success(EofToken), Scanner(s.text, q))
    else
      var c := s.text[q];
      if IsDigit(c) then
        var e := DigitRunEnd(s.text, q);
        Scan(Success(ScanToken(Integer, Some(s.text[q..e]))), Scanner(s.text, e))
      else if IsOperatorChar(c) then
        Scan(Success(ScanToken(Operator, Some([c]))), Scanner(s.text, q + 1))
      else
        Scan(Failure(|s.text|), Scanner(s.text, q))
  }

  /** readNumber: the digits from the cursor on, and the cursor just past them. */
  method ReadNumber(text: string, position: nat) returns (number: string, p: nat)
    requires position < |text| && IsDigit(text[position])
    ensures position < p <= |text| && p == DigitRunEnd(text, position)
    ensures number == text[position..p]
  {
    number := "";
    p := position;
    var character := text[p];
    while IsDigit(character)
      invariant position <= p < |text| && character == text[p]
      invariant number == text[position..p]
      invariant DigitRunEnd(text, position) == DigitRunEnd(text, p)
      decreases |text| - p
    {
      number := number + [character];
      p := p + 1;
      if IsPositionInRange(text, p) {
        character := text[p];
      } else {
        break;
      }
    }
  }

  /** getNextToken as the source writes it, with the loops; it computes NextToken. */
  method GetNextToken(s: Scanner) returns (r: Scan)
    ensures r == NextToken(s)
  {
    var position := s.position;
    if position >= |s.text| {
      return Scan(Success(EofToken), s);
    }
    var currentChar := s.text[position];
    while IsWhitespace(currentChar)
      invariant s.position <= position < |s.text| && currentChar == s.text[position]
      invariant SkipWhitespace(s.text, s.position) == SkipWhitespace(s.text, position)
      decreases |s.text| - position
    {
      position := position + 1;
      if position >= |s.text| {
        return Scan(Success(EofToken), Scanner(s.text, position));
      }
      currentChar := s.text[position];
    }
    if IsDigit(currentChar) {
      var number, p := ReadNumber(s.text, position);
      return Scan(Success(ScanToken(Integer, Some(number))), Scanner(s.text, p));
    }
    if IsOperatorChar(currentChar) {
      return Scan(Success(ScanToken(Operator, Some([currentChar]))), Scanner(s.text, position + 1));
    }
    return Scan(Failure(|s.text|), Scanner(s.text, position));
  }

  /** Calling getNextToken until end of file or the first error; the end-of-file token is kept. */
  function TokensFrom(s: Scanner): (r: Result<seq<ScanToken>, nat>)
    requires s.position <= |s.text|
    ensures r.Failure? ==> r.error == |s.text|
    ensures r.Success? ==> |r.value| > 0 && r.value[|r.value| - 1] == EofToken
    ensures r.Success? ==> forall k | 0 <= k < |r.value| - 1 :: r.value[k].kind != Eof
    decreases |s.text| - s.position
  {
    var step := NextToken(s);
    match step.result
    case Failure(e) => Failure(e)
    case Success(t) =>
      if t.kind == Eof then Success([t])
      else
        var rest :- TokensFrom(step.after);
        Success([t] + rest)
  }

  /** All tokens of a text, from a freshly initialised scanner. */
  function Tokenize(text: string): Result<seq<ScanToken>, nat> {
    TokensFrom(Init(text))
  }
}
