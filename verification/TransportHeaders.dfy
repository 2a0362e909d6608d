/** What a frame header means: its lines, its one Content-Length field, and the number in it. */
module TransportHeaders {
  import opened Texts
  import opened Options
  import opened Transport

  // Lines

  ghost predicate BreaksAt(text: string, j: nat) {
    j + 1 < |text| && text[j] == '\r' && text[j+1] == '\n'
  }

  ghost function JoinLines(lines: seq<string>): string {
    if lines == [] then "" else if |lines| == 1 then lines[0] else lines[0] + "\r\n" + JoinLines(lines[1..])
  }

  /** A header is split at its line breaks and nowhere else. */
  lemma {:induction false} LinesOfHeader(text: string, i: nat)
    requires i <= |text| && forall j: nat | j < i :: !BreaksAt(text, j)
    ensures JoinLines(SplitLines(text, i)) == text
    ensures forall k, j: nat | 0 <= k < |SplitLines(text, i)| :: !BreaksAt(SplitLines(text, i)[k], j)
    decreases |text| - i
  {
    if i + 1 >= |text| {
    } else if BreaksAt(text, i) {
      var rest := SplitLines(text[i+2..], 0);
      LinesOfHeader(text[i+2..], 0);
      assert ([text[..i]] + rest)[1..] == rest;
      assert text == text[..i] + "\r\n" + text[i+2..];
      forall j: nat ensures !BreaksAt(text[..i], j) {
        assert j < i ==> !BreaksAt(text, j);
      }
    } else {
      LinesOfHeader(text, i + 1);
    }
  }

  // Numbers

  /** A digit, or an underscore behind one; `afterDigit` says what stands in front of the text. */
  ghost predicate Fits(text: string, k: nat, afterDigit: bool)
    requires k < |text|
  {
    IsDigit(text[k]) || (text[k] == '_' && if k == 0 then afterDigit else IsDigit(text[k-1]))
  }

  /** Digits with single underscores between them. */
  ghost predicate Digits(text: string, afterDigit: bool) {
    && (if text == "" then afterDigit else IsDigit(text[|text|-1]))
    && forall k | 0 <= k < |text| :: Fits(text, k, afterDigit)
  }

  ghost function Decimal(text: string): nat {
    if text == "" then 0
    else
      var front, last := text[..|text|-1], text[|text|-1];
      if IsDigit(last) then 10 * Decimal(front) + (last as int - '0' as int) else Decimal(front)
  }

  lemma {:induction false} DigitsMean(done: string, text: string, afterDigit: bool)
    ensures DigitsValue(text, Decimal(done), afterDigit) ==
            if Digits(text, afterDigit) then Some(Decimal(done + text)) else None
    decreases |text|
  {
    if text == "" {
      assert done + text == done;
    } else {
      var first, rest := text[0], text[1..];
      assert done + [first] + rest == done + text;
      assert (done + [first])[..|done|] == done;
      if IsDigit(first) || (first == '_' && afterDigit) {
        DigitsMean(done + [first], rest, IsDigit(first));
        DigitsCons(text, afterDigit);
      } else {
        assert !Fits(text, 0, afterDigit);
      }
    }
  }

  lemma {:induction false} DigitsCons(text: string, afterDigit: bool)
    requires text != "" && (IsDigit(text[0]) || (text[0] == '_' && afterDigit))
    ensures Digits(text, afterDigit) <==> Digits(text[1..], IsDigit(text[0]))
  {
    var rest := text[1..];
    assert Fits(text, 0, afterDigit);
    forall k | 0 <= k < |rest| ensures Fits(rest, k, IsDigit(text[0])) <==> Fits(text, k + 1, afterDigit) {
      assert rest[k] == text[k+1];
      assert k > 0 ==> rest[k-1] == text[k];
    }
    if Digits(rest, IsDigit(text[0])) {
      forall k | 0 <= k < |text| ensures Fits(text, k, afterDigit) {
        assert k > 0 ==> Fits(rest, k - 1, IsDigit(text[0]));
      }
    }
  }

  ghost predicate Signed(text: string) {
    text != "" && text[0] in {'+', '-'}
  }

  ghost predicate IsInteger(text: string) {
    Digits(if Signed(text) then text[1..] else text, false)
  }

  ghost function IntegerValue(text: string): int {
    if Signed(text) then (if text[0] == '-' then 0 - Decimal(text[1..]) else Decimal(text[1..])) else Decimal(text)
  }

  /** An optional sign and digits, with single underscores between digits, are a number. */
  lemma {:induction false} IntegersMean(text: string)
    ensures ParseInt(text) == if IsInteger(text) then Some(IntegerValue(text)) else None
  {
    hide DigitsValue;
    assert Decimal("") == 0;
    var body := if Signed(text) then text[1..] else text;
    DigitsMean("", body, false);
    assert "" + body == body;
  }

  // Fields

  /** The line is a Content-Length field, in upper or lower case, with this value. */
  ghost predicate LengthField(line: string, value: string) {
    exists i :: 0 <= i < |line| && line[i] == ':' && ':' !in line[..i]
                && Lower(line[..i]) == "content-length" && value == Strip(line[i+1..])
  }

  ghost predicate IsLengthField(line: string) {
    exists value :: LengthField(line, value)
  }

  ghost predicate Malformed(lines: seq<string>) {
    exists line :: line in lines && line != "" && ':' !in line
  }

  ghost function Fields(lines: seq<string>): set<nat> {
    set i: nat | i < |lines| && IsLengthField(lines[i])
  }

  lemma {:induction false} ColonInside(line: string, i: nat, j: nat)
    requires i < |line| && j <= |line| && line[i] == ':'
    ensures i < j ==> ':' in line[..j]
  {
    if i < j {
      assert line[..j][i] == ':';
    }
  }

  lemma {:induction false} FieldOfLine(line: string)
    ensures match Find(line, ':')
            case None => !IsLengthField(line)
            case Some(i) =>
              if Lower(line[..i]) == "content-length"
              then LengthField(line, Strip(line[i+1..]))
                   && forall value :: LengthField(line, value) ==> value == Strip(line[i+1..])
              else !IsLengthField(line)
  {
    hide Lower, Strip;
    match Find(line, ':') {
      case None =>
      case Some(i) =>
        assert ':' !in line[..i];
        forall j | 0 <= j < |line| && line[j] == ':' && ':' !in line[..j] ensures j == i {
          ColonInside(line, i, j);
        }
    }
  }

  /** The values that are found are those of the length fields, in order. */
  ghost predicate ValuesOf(lines: seq<string>, values: seq<string>) {
    if lines == [] then values == []
    else if IsLengthField(lines[0]) then
      values != [] && LengthField(lines[0], values[0]) && ValuesOf(lines[1..], values[1..])
    else ValuesOf(lines[1..], values)
  }

  lemma {:induction false} LinesMean(lines: seq<string>)
    ensures match LengthValues(lines)
            case Failure(error) => error == MalformedHeader && Malformed(lines)
            case Success(values) => !Malformed(lines) && ValuesOf(lines, values)
    decreases |lines|
  {
    hide LengthField, IsLengthField, Lower, Strip;
    if lines != [] {
      LinesMean(lines[1..]);
      FieldOfLine(lines[0]);
      EmptyIsNoField(lines[0]);
      MalformedCons(lines);
      IsFieldOf(lines[0]);
    }
  }

  lemma {:induction false} EmptyIsNoField(line: string)
    ensures line == "" ==> !IsLengthField(line)
  {
  }

  lemma {:induction false} IsFieldOf(line: string)
    ensures forall value :: LengthField(line, value) ==> IsLengthField(line)
  {
  }

  lemma {:induction false} MalformedCons(lines: seq<string>)
    requires lines != []
    ensures Malformed(lines) <==> (lines[0] != "" && ':' !in lines[0]) || Malformed(lines[1..])
  {
    if Malformed(lines) && !(lines[0] != "" && ':' !in lines[0]) {
      var line :| line in lines && line != "" && ':' !in line;
      assert line in lines[1..];
    }
  }

  lemma {:induction false} ValuesCounted(lines: seq<string>, values: seq<string>)
    requires ValuesOf(lines, values)
    ensures |values| == |Fields(lines)|
    ensures forall i | Fields(lines) == {i} :: |values| == 1 && LengthField(lines[i], values[0])
    decreases |lines|
  {
    hide IsLengthField, LengthField;
    if lines == [] {
      assert Fields(lines) == {};
    } else {
      var rest := lines[1..];
      var shifted := set i: nat | i in Fields(rest) :: i + 1;
      ShiftedSize(Fields(rest));
      if IsLengthField(lines[0]) {
        ValuesCounted(rest, values[1..]);
        FieldsCons(lines);
        assert Fields(lines) == {0} + shifted;
        forall i | Fields(lines) == {i} ensures |values| == 1 && LengthField(lines[i], values[0]) {
          assert 0 in Fields(lines);
        }
      } else {
        ValuesCounted(rest, values);
        FieldsCons(lines);
        assert Fields(lines) == shifted;
        forall i | Fields(lines) == {i} ensures |values| == 1 && LengthField(lines[i], values[0]) {
          assert i in shifted && i - 1 in Fields(rest);
          assert Fields(rest) == {i - 1} by {
            forall j | j in Fields(rest) ensures j == i - 1 {
              assert j + 1 in shifted;
            }
          }
        }
      }
    }
  }

  lemma {:induction false} FieldsCons(lines: seq<string>)
    requires lines != []
    ensures forall i: nat :: i in Fields(lines) <==>
              if i == 0 then IsLengthField(lines[0]) else i - 1 in Fields(lines[1..])
  {
    hide IsLengthField;
  }

  lemma {:induction false} ShiftedSize(s: set<nat>)
    ensures |set i: nat | i in s :: i + 1| == |s|
    decreases |s|
  {
    var shifted := set i: nat | i in s :: i + 1;
    if s == {} {
      assert shifted == {};
    } else {
      var i :| i in s;
      ShiftedSize(s - {i});
      var smaller := set j: nat | j in s - {i} :: j + 1;
      forall j | j in shifted ensures j in smaller + {i + 1} {
        var k: nat :| k in s && k + 1 == j;
        assert k in s - {i} || k == i;
      }
      assert shifted == smaller + {i + 1} && i + 1 !in smaller;
    }
  }

  /** For every header: a nonempty line without a colon is an error before all others; then there
      must be exactly one length field; its value must be a number, not negative and within the
      limit, and is the length. */
  lemma {:induction false} HeaderMeans(header: string, maxPayloadSize: int)
    ensures var lines, r := SplitLines(header, 0), ContentLength(header, maxPayloadSize);
            if Malformed(lines) then r == Failure(MalformedHeader)
            else if |Fields(lines)| != 1 then r == Failure(LengthCount)
            else
              exists i, value :: Fields(lines) == {i} && LengthField(lines[i], value) &&
                if !IsInteger(value) then r == Failure(NotAnInteger)
                else if IntegerValue(value) < 0 then r == Failure(NegativeLength)
                else if IntegerValue(value) > maxPayloadSize then r == Failure(TooLarge)
                else r == Success(IntegerValue(value))
  {
    hide SplitLines, LengthValues, ParseInt, IsInteger, IntegerValue, LengthField, IsLengthField, Malformed, ValuesOf;
    var lines := SplitLines(header, 0);
    LinesMean(lines);
    if !Malformed(lines) {
      var values := LengthValues(lines).value;
      ValuesCounted(lines, values);
      if |Fields(lines)| == 1 {
        var i := OnlyMember(Fields(lines));
        IntegersMean(values[0]);
        assert LengthField(lines[i], values[0]);
      }
    }
  }

  lemma {:induction false} OnlyMember(s: set<nat>) returns (i: nat)
    requires |s| == 1
    ensures s == {i}
  {
    i :| i in s;
    assert |s - {i}| == 0;
  }
}
