/** Text operations, for ASCII letters and blanks. */
module Texts {

  predicate StartsWith(text: string, prefix: string) {
    prefix <= text
  }

  predicate IsSpace(c: char) {
    9 <= c as int <= 13 || 28 <= c as int <= 32
  }

  function TrimLeft(text: string, drop: char -> bool): (r: string)
    ensures |r| <= |text| && (r == text <==> text == "" || !drop(text[0]))
  {
    if text != "" && drop(text[0]) then TrimLeft(text[1..], drop) else text
  }

  function TrimRight(text: string, drop: char -> bool): (r: string)
    ensures |r| <= |text| && (r == text <==> text == "" || !drop(text[|text|-1]))
    ensures r <= text
  {
    if text != "" && drop(text[|text|-1]) then TrimRight(text[..|text|-1], drop) else text
  }

  function Strip(text: string): string {
    TrimRight(TrimLeft(text, IsSpace), IsSpace)
  }

  function LowerChar(c: char): char {
    if 'A' <= c <= 'Z' then (c as int + 32) as char else c
  }

  function Lower(text: string): string {
    seq(|text|, i requires 0 <= i < |text| => LowerChar(text[i]))
  }

  /** `value` is `text` without the blanks in front and behind. */
  ghost predicate IsStripped(text: string, value: string) {
    && (value != "" ==> !IsSpace(value[0]) && !IsSpace(value[|value|-1]))
    && exists i: nat :: Blanked(text, value, i)
  }

  /** From `i` on stands `value`, and nothing but blanks elsewhere. */
  ghost predicate Blanked(text: string, value: string, i: nat) {
    && i + |value| <= |text| && text[i..i+|value|] == value
    && forall j | 0 <= j < |text| && !(i <= j < i + |value|) :: IsSpace(text[j])
  }

  lemma {:induction false} LeftTrimmed(text: string, drop: char -> bool) returns (i: nat)
    ensures i <= |text| && TrimLeft(text, drop) == text[i..] && forall j | 0 <= j < i :: drop(text[j])
    decreases |text|
  {
    if text != "" && drop(text[0]) {
      var k := LeftTrimmed(text[1..], drop);
      i := k + 1;
      assert text[1..][k..] == text[i..];
      forall j | 0 <= j < i ensures drop(text[j]) {
        assert j > 0 ==> text[1..][j-1] == text[j];
      }
    } else {
      i := 0;
    }
  }

  lemma {:induction false} RightTrimmed(text: string, drop: char -> bool)
    ensures var r := TrimRight(text, drop);
            r == text[..|r|] && forall j | |r| <= j < |text| :: drop(text[j])
    decreases |text|
  {
    if text != "" && drop(text[|text|-1]) {
      var front := text[..|text|-1];
      RightTrimmed(front, drop);
      forall j | |TrimRight(front, drop)| <= j < |text| ensures drop(text[j]) {
        assert j < |front| ==> front[j] == text[j];
      }
    }
  }

  lemma {:induction false} LeftKept(text: string, drop: char -> bool)
    ensures var r := TrimLeft(text, drop); r != "" ==> !drop(r[0])
    decreases |text|
  {
    if text != "" && drop(text[0]) {
      LeftKept(text[1..], drop);
    }
  }

  lemma {:induction false} RightKept(text: string, drop: char -> bool)
    ensures var r := TrimRight(text, drop); r != "" ==> !drop(r[|r|-1])
    decreases |text|
  {
    if text != "" && drop(text[|text|-1]) {
      RightKept(text[..|text|-1], drop);
    }
  }

  /** Stripping a text drops the blanks at its ends and nothing else. */
  lemma {:induction false} StripMeans(text: string)
    ensures IsStripped(text, Strip(text))
  {
    hide TrimLeft, TrimRight, IsSpace;
    var left := TrimLeft(text, IsSpace);
    var value := TrimRight(left, IsSpace);
    var i := LeftTrimmed(text, IsSpace);
    RightTrimmed(left, IsSpace);
    LeftKept(text, IsSpace);
    RightKept(left, IsSpace);
    assert value != "" ==> value[0] == left[0];
    forall j | 0 <= j < |text| && !(i <= j < i + |value|) ensures IsSpace(text[j]) {
      assert j >= i ==> left[j-i] == text[j];
    }
    assert Blanked(text, value, i);
  }
}
