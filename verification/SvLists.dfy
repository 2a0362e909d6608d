/** The bracket-aware list splitter and the delimiter matcher of the port-list scanner. */
module SvLists {
  import opened Options

  // Splitting at top-level commas

  datatype Depths = Depths(paren: nat, bracket: nat, brace: nat)

  const TOP := Depths(0, 0, 0)

  function OneLess(n: nat): nat {
    if n == 0 then 0 else n - 1
  }

  /** A closing bracket without its opening one does not count. */
  function Shift(d: Depths, c: char): Depths {
    match c
    case '(' => d.(paren := d.paren + 1)
    case '[' => d.(bracket := d.bracket + 1)
    case '{' => d.(brace := d.brace + 1)
    case ')' => d.(paren := OneLess(d.paren))
    case ']' => d.(bracket := OneLess(d.bracket))
    case '}' => d.(brace := OneLess(d.brace))
    case _ => d
  }

  function Scan(d: Depths, text: string): Depths
    decreases |text|
  {
    if text == "" then d else Scan(Shift(d, text[0]), text[1..])
  }

  /** The parts of `text` read at depth `d`, the first of them continuing `part`. */
  function Split(text: string, part: string, d: Depths): (parts: seq<string>)
    ensures |parts| > 0
    decreases |text|
  {
    if text == "" then [part]
    else if text[0] == ',' && d == TOP then [part] + Split(text[1..], "", d)
    else Split(text[1..], part + [text[0]], Shift(d, text[0]))
  }

  function Join(parts: seq<string>): string {
    if parts == [] then "" else if |parts| == 1 then parts[0] else parts[0] + "," + Join(parts[1..])
  }

  method SplitTopLevelList(text: string) returns (parts: seq<string>)
    ensures parts == Split(text, "", TOP)
  {
    parts := [];
    var start, index := 0, 0;
    var depths := TOP;
    assert text[0..] == text;
    while index < |text|
      invariant 0 <= start <= index <= |text|
      invariant Split(text, "", TOP) == parts + Split(text[index..], text[start..index], depths)
    {
      var c := text[index];
      assert text[index..][0] == c && text[index..][1..] == text[index+1..];
      if c == ',' && depths == TOP {
        assert text[index+1..index+1] == "";
        assert parts + ([text[start..index]] + Split(text[index+1..], "", TOP))
               == parts + [text[start..index]] + Split(text[index+1..], "", TOP);
        parts := parts + [text[start..index]];
        start := index + 1;
      } else {
        assert text[start..index] + [c] == text[start..index+1];
        depths := Shift(depths, c);
      }
      index := index + 1;
    }
    assert text[start..|text|] == text[start..];
    parts := parts + [text[start..]];
  }

  /** Joining the parts with commas gives back every text. */
  lemma {:induction false} JoinInvertsSplit(text: string, part: string, d: Depths)
    ensures Join(Split(text, part, d)) == part + text
    decreases |text|
  {
    if text == "" {
      assert part + text == part;
    } else if text[0] == ',' && d == TOP {
      JoinInvertsSplit(text[1..], "", d);
      var rest := Split(text[1..], "", d);
      assert ([part] + rest)[1..] == rest;
      assert part + "," + text[1..] == part + text;
      assert "" + text[1..] == text[1..];
    } else {
      JoinInvertsSplit(text[1..], part + [text[0]], Shift(d, text[0]));
      assert part + [text[0]] + text[1..] == part + text;
    }
  }

  /** Some comma of `text`, read from depth `d`, is outside every bracket. */
  predicate HasTopComma(text: string, d: Depths) {
    text != "" && ((text[0] == ',' && d == TOP) || HasTopComma(text[1..], Shift(d, text[0])))
  }

  /** Text without a top-level comma stays in one part. */
  lemma {:induction false} SplitKeeps(a: string, b: string, part: string, d: Depths)
    requires !HasTopComma(a, d)
    ensures Split(a + b, part, d) == Split(b, part + a, Scan(d, a))
    decreases |a|
  {
    if a == "" {
      assert a + b == b && part + a == part;
    } else {
      assert (a + b)[0] == a[0] && (a + b)[1..] == a[1..] + b;
      SplitKeeps(a[1..], b, part + [a[0]], Shift(d, a[0]));
      assert part + [a[0]] + a[1..] == part + a;
    }
  }

  /** A top-level comma ends the first part before the end of that text. */
  lemma {:induction false} SplitBreaks(a: string, b: string, part: string, d: Depths)
    requires HasTopComma(a, d)
    ensures |Split(a + b, part, d)[0]| < |part| + |a|
    decreases |a|
  {
    assert (a + b)[0] == a[0] && (a + b)[1..] == a[1..] + b;
    if !(a[0] == ',' && d == TOP) {
      SplitBreaks(a[1..], b, part + [a[0]], Shift(d, a[0]));
    }
  }

  lemma {:induction false} FirstPartGrows(text: string, part: string, d: Depths)
    ensures |Split(text, part, d)[0]| >= |part|
    decreases |text|
  {
    if text != "" && !(text[0] == ',' && d == TOP) {
      FirstPartGrows(text[1..], part + [text[0]], Shift(d, text[0]));
    }
  }

  /** What makes items separable: none has a top-level comma, and every bracket opened in an
      item with a successor is closed in it. */
  predicate Separable(items: seq<string>) {
    && (forall i | 0 <= i < |items| :: !HasTopComma(items[i], TOP))
    && (forall i | 0 <= i < |items| - 1 :: Scan(TOP, items[i]) == TOP)
  }

  lemma {:induction false} SeparableRest(items: seq<string>)
    requires |items| > 1
    ensures Separable(items) <==> !HasTopComma(items[0], TOP) && Scan(TOP, items[0]) == TOP && Separable(items[1..])
  {
    if !HasTopComma(items[0], TOP) && Scan(TOP, items[0]) == TOP && Separable(items[1..]) {
      forall i | 0 <= i < |items| ensures !HasTopComma(items[i], TOP) {
        if i > 0 { assert items[1..][i-1] == items[i]; }
      }
      forall i | 0 <= i < |items| - 1 ensures Scan(TOP, items[i]) == TOP {
        if i > 0 { assert items[1..][i-1] == items[i]; }
      }
    }
  }

  /** Splitting the comma-join of items gives back the items exactly when they are
      separable. */
  lemma {:induction false} SplitInvertsJoin(items: seq<string>)
    requires |items| > 0
    ensures Split(Join(items), "", TOP) == items <==> Separable(items)
    decreases |items|
  {
    var first := items[0];
    if |items| == 1 {
      assert first + "" == first;
      if HasTopComma(first, TOP) {
        SplitBreaks(first, "", "", TOP);
      } else {
        SplitKeeps(first, "", "", TOP);
        assert "" + first == first;
      }
    } else {
      var rest := "," + Join(items[1..]);
      assert Join(items) == first + rest;
      assert rest[1..] == Join(items[1..]);
      SeparableRest(items);
      SplitInvertsJoin(items[1..]);
      if HasTopComma(first, TOP) {
        SplitBreaks(first, rest, "", TOP);
      } else {
        SplitKeeps(first, rest, "", TOP);
        assert "" + first == first;
        var d := Scan(TOP, first);
        if d == TOP {
          assert Split(rest, first, TOP) == [first] + Split(Join(items[1..]), "", TOP);
          assert ([first] + Split(Join(items[1..]), "", TOP))[1..] == Split(Join(items[1..]), "", TOP);
          assert items == [first] + items[1..];
        } else {
          FirstPartGrows(rest[1..], first + [','], Shift(d, ','));
        }
      }
    }
  }

  // Properly nested items

  datatype BracketKind = Round | Square | Curly

  /** Properly nested text: plain characters and matched groups, commas only inside groups. */
  datatype Nest = Done | Plain(c: char, rest: Nest) | Comma(rest: Nest) | Group(kind: BracketKind, inside: Nest,
    rest: Nest)

  predicate IsPlain(c: char) {
    c !in "()[]{},"
  }

  predicate ProperlyNested(n: Nest, top: bool) {
    match n
    case Done => true
    case Plain(c, rest) => IsPlain(c) && ProperlyNested(rest, top)
    case Comma(rest) => !top && ProperlyNested(rest, top)
    case Group(_, inside, rest) => ProperlyNested(inside, false) && ProperlyNested(rest, top)
  }

  function Brackets(kind: BracketKind): (char, char) {
    match kind case Round => ('(', ')') case Square => ('[', ']') case Curly => ('{', '}')
  }

  function Flatten(n: Nest): string {
    match n
    case Done => ""
    case Plain(c, rest) => [c] + Flatten(rest)
    case Comma(rest) => "," + Flatten(rest)
    case Group(kind, inside, rest) => [Brackets(kind).0] + Flatten(inside) + [Brackets(kind).1] + Flatten(rest)
  }

  lemma {:induction false} ScanSplits(d: Depths, a: string, b: string)
    ensures Scan(d, a + b) == Scan(Scan(d, a), b)
    ensures HasTopComma(a + b, d) <==> HasTopComma(a, d) || HasTopComma(b, Scan(d, a))
    decreases |a|
  {
    if a == "" {
      assert a + b == b;
    } else {
      assert (a + b)[0] == a[0] && (a + b)[1..] == a[1..] + b;
      ScanSplits(Shift(d, a[0]), a[1..], b);
    }
  }

  lemma {:induction false} NestKeepsDepth(n: Nest, d: Depths, top: bool)
    requires ProperlyNested(n, top) && (!top ==> d != TOP)
    ensures Scan(d, Flatten(n)) == d && !HasTopComma(Flatten(n), d)
    decreases n
  {
    match n {
      case Done =>
      case Plain(c, rest) =>
        assert Flatten(n)[1..] == Flatten(rest);
        NestKeepsDepth(rest, d, top);
      case Comma(rest) =>
        assert Flatten(n)[1..] == Flatten(rest);
        NestKeepsDepth(rest, d, top);
      case Group(kind, inside, rest) =>
        var deeper := Shift(d, Brackets(kind).0);
        NestKeepsDepth(inside, deeper, false);
        NestKeepsDepth(rest, d, top);
        GroupKeepsDepth(kind, Flatten(inside), Flatten(rest), d);
    }
  }

  lemma {:induction false} GroupKeepsDepth(kind: BracketKind, inside: string, rest: string, d: Depths)
    requires var deeper := Shift(d, Brackets(kind).0); Scan(deeper, inside) == deeper && !HasTopComma(inside, deeper)
    requires Scan(d, rest) == d && !HasTopComma(rest, d)
    ensures var text := [Brackets(kind).0] + inside + [Brackets(kind).1] + rest;
            Scan(d, text) == d && !HasTopComma(text, d)
  {
    var open, close := Brackets(kind).0, Brackets(kind).1;
    var text := [open] + inside + [close] + rest;
    var deeper := Shift(d, open);
    assert Shift(deeper, close) == d;
    ScanSplits(deeper, inside, [close] + rest);
    assert text[1..] == inside + ([close] + rest);
    assert ([close] + rest)[1..] == rest;
  }

  function Texts(nests: seq<Nest>): (texts: seq<string>)
    ensures |texts| == |nests|
    ensures forall i | 0 <= i < |nests| :: texts[i] == Flatten(nests[i])
  {
    seq(|nests|, i requires 0 <= i < |nests| => Flatten(nests[i]))
  }

  /** Properly nested items without top-level commas survive joining and splitting. */
  lemma {:induction false} NestedItemsSurvive(nests: seq<Nest>)
    requires |nests| > 0 && forall i | 0 <= i < |nests| :: ProperlyNested(nests[i], true)
    ensures Split(Join(Texts(nests)), "", TOP) == Texts(nests)
  {
    forall i | 0 <= i < |nests| ensures Scan(TOP, Texts(nests)[i]) == TOP && !HasTopComma(Texts(nests)[i], TOP) {
      NestKeepsDepth(nests[i], TOP, true);
    }
    SplitInvertsJoin(Texts(nests));
  }

  // Matching delimiters

  /** Opening minus closing characters. */
  function Balance(text: string, open: char, close: char): int {
    if text == "" then 0
    else Balance(text[..|text|-1], open, close)
         + (if text[|text|-1] == open then 1 else if text[|text|-1] == close then -1 else 0)
  }

  predicate Balanced(text: string, open: char, close: char) {
    Balance(text, open, close) == 0 && forall k | 0 <= k <= |text| :: Balance(text[..k], open, close) >= 0
  }

  /** The delimiter opened at `start` is closed at `end`: what lies between is balanced. */
  predicate ClosedAt(text: string, start: nat, end: nat, open: char, close: char) {
    start < end < |text| && text[end] == close && Balanced(text[start+1..end], open, close)
  }

  lemma {:induction false} BalanceAppends(text: string, start: nat, i: nat, open: char, close: char)
    requires start <= i < |text|
    ensures Balance(text[start..i+1], open, close) ==
            Balance(text[start..i], open, close) + (if text[i] == open then 1 else if text[i] == close then -1 else 0)
  {
    assert text[start..i+1][..i-start] == text[start..i];
  }

  /** At most one position closes a delimiter. */
  lemma {:induction false} ClosedOnce(text: string, start: nat, i: nat, j: nat, open: char, close: char)
    requires open != close && ClosedAt(text, start, i, open, close) && ClosedAt(text, start, j, open, close)
    ensures i == j
  {
    if i < j {
      ClosedNotInside(text, start, i, j, open, close);
    } else if j < i {
      ClosedNotInside(text, start, j, i, open, close);
    }
  }

  lemma {:induction false} ClosedNotInside(text: string, start: nat, i: nat, j: nat, open: char, close: char)
    requires open != close && ClosedAt(text, start, i, open, close) && i < j < |text|
    ensures !Balanced(text[start+1..j], open, close)
  {
    BalanceAppends(text, start + 1, i, open, close);
    assert text[start+1..j][..i-start] == text[start+1..i+1];
  }

  method MatchingDelimiter(text: string, start: nat, open: char, close: char) returns (r: Option<nat>)
    requires start < |text| && text[start] == open && open != close
    ensures r.Some? ==> ClosedAt(text, start, r.value, open, close)
    ensures forall end: nat :: ClosedAt(text, start, end, open, close) ==> r == Some(end)
  {
    var depth := 0;
    var index := start;
    ghost var inside := start + 1;
    while index < |text|
      invariant start <= index <= |text|
      invariant index == start ==> depth == 0
      invariant index > start ==> depth >= 1
      invariant index > start ==> depth == 1 + Balance(text[start+1..index], open, close)
      invariant forall k | inside <= k <= index :: Balance(text[inside..k], open, close) >= 0
      invariant forall end: nat | end < index :: !ClosedAt(text, start, end, open, close)
    {
      var c := text[index];
      if index == start {
        assert text[start+1..start+1] == "";
      } else {
        BalanceAppends(text, start + 1, index, open, close);
        assert ClosedAt(text, start, index, open, close) ==> c == close && depth == 1;
      }
      if c == open {
        depth := depth + 1;
      } else if c == close {
        depth := depth - 1;
        if depth == 0 {
          ghost var enclosed := text[inside..index];
          forall k | 0 <= k <= |enclosed| ensures Balance(enclosed[..k], open, close) >= 0 {
            assert enclosed[..k] == text[inside..inside+k];
          }
          assert ClosedAt(text, start, index, open, close);
          forall end: nat | ClosedAt(text, start, end, open, close) ensures end == index {
            ClosedOnce(text, start, end, index, open, close);
          }
          return Some(index);
        }
      }
      index := index + 1;
    }
    return None;
  }
}
