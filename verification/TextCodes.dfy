/** Texts that can be read back: codes in which the end of a value shows, so that a value
    followed by anything determines both.  They show that collision-free digests exist. */
module TextCodes {

  lemma {:induction false} SameHeads(a: string, x: string, b: string, y: string)
    requires a != "" && b != "" && a + x == b + y
    ensures a[0] == b[0] && a[1..] + x == b[1..] + y
  {
    assert (a + x)[0] == a[0] && (b + y)[0] == b[0];
    assert (a + x)[1..] == a[1..] + x && (b + y)[1..] == b[1..] + y;
  }

  /** Every character is announced; then the end is. */
  function CodeText(text: string): string {
    if text == "" then "0" else "1" + [text[0]] + CodeText(text[1..])
  }

  lemma {:induction false} TextReadsBack(a: string, x: string, b: string, y: string)
    requires CodeText(a) + x == CodeText(b) + y
    ensures a == b && x == y
    decreases |a|
  {
    var left, right := CodeText(a) + x, CodeText(b) + y;
    assert left[0] == (if a == "" then '0' else '1') && right[0] == (if b == "" then '0' else '1');
    if a == "" {
      assert left[1..] == x && right[1..] == y;
    } else {
      assert left[1] == a[0] && right[1] == b[0];
      assert left[2..] == CodeText(a[1..]) + x && right[2..] == CodeText(b[1..]) + y;
      TextReadsBack(a[1..], x, b[1..], y);
      assert a == [a[0]] + a[1..] && b == [b[0]] + b[1..];
    }
  }

  function CodeTexts(texts: seq<string>): string {
    if texts == [] then "0" else "1" + CodeText(texts[0]) + CodeTexts(texts[1..])
  }

  lemma {:induction false} TextsReadBack(a: seq<string>, b: seq<string>)
    requires CodeTexts(a) == CodeTexts(b)
    ensures a == b
    decreases |a|
  {
    hide CodeText;
    SameHeads(CodeTexts(a), "", CodeTexts(b), "");
    assert CodeTexts(a)[0] == (if a == [] then '0' else '1') && CodeTexts(b)[0] == (if b == [] then '0' else '1');
    if a != [] {
      assert CodeTexts(a)[1..] == CodeText(a[0]) + CodeTexts(a[1..]);
      assert CodeTexts(b)[1..] == CodeText(b[0]) + CodeTexts(b[1..]);
      TextReadsBack(a[0], CodeTexts(a[1..]), b[0], CodeTexts(b[1..]));
      TextsReadBack(a[1..], b[1..]);
      assert a == [a[0]] + a[1..] && b == [b[0]] + b[1..];
    }
  }

  function CodeNat(n: nat): string {
    if n == 0 then "0" else "1" + CodeNat(n - 1)
  }

  lemma {:induction false} NatReadsBack(a: nat, x: string, b: nat, y: string)
    requires CodeNat(a) + x == CodeNat(b) + y
    ensures a == b && x == y
    decreases a
  {
    var left, right := CodeNat(a) + x, CodeNat(b) + y;
    assert left[0] == (if a == 0 then '0' else '1') && right[0] == (if b == 0 then '0' else '1');
    if a == 0 {
      assert left[1..] == x && right[1..] == y;
    } else {
      assert left[1..] == CodeNat(a - 1) + x && right[1..] == CodeNat(b - 1) + y;
      NatReadsBack(a - 1, x, b - 1, y);
    }
  }

  function CodeInt(i: int): string {
    if i < 0 then "-" + CodeNat(-i) else "+" + CodeNat(i)
  }

  lemma {:induction false} IntReadsBack(a: int, x: string, b: int, y: string)
    requires CodeInt(a) + x == CodeInt(b) + y
    ensures a == b && x == y
  {
    hide CodeNat;
    var m, n := if a < 0 then -a else a, if b < 0 then -b else b;
    SameHeads(CodeInt(a), x, CodeInt(b), y);
    assert CodeInt(a)[1..] == CodeNat(m) && CodeInt(b)[1..] == CodeNat(n);
    NatReadsBack(m, x, n, y);
  }
}
