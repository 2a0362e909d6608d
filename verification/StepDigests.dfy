/** JSON values can be written as texts without collisions, so the digests that the signature
    theorems speak of exist. */
module StepDigests {
  import opened StepProvenance
  import opened TextCodes

  function Tag(j: Json): char {
    match j
    case JStr(_) => 's' case JInt(_) => 'i' case JReal(_, _) => 'r' case JBool(_) => 'b'
    case JNull => 'n' case JList(_) => 'l' case JObj(_) => 'o'
  }

  ghost function Code(j: Json): string
    decreases j, 2, 0
  {
    [Tag(j)] + Body(j)
  }

  /** Objects are written field by field, in any order that depends on the fields left. */
  ghost function Body(j: Json): string
    decreases j, 1, 0
  {
    match j
    case JStr(text) => CodeText(text)
    case JInt(num) => CodeInt(num)
    case JReal(digits, exponent) => CodeInt(digits) + CodeInt(exponent)
    case JBool(flag) => CodeInt(if flag then 1 else 0)
    case JNull => ""
    case JList(items) => CodeItems(j, 0)
    case JObj(fields) => CodeFields(j, fields.Keys)
  }

  ghost function CodeItems(j: Json, i: nat): string
    requires j.JList? && i <= |j.items|
    decreases j, 0, |j.items| - i
  {
    if i == |j.items| then "0" else "1" + (Code(j.items[i]) + CodeItems(j, i + 1))
  }

  ghost function CodeFields(j: Json, keys: set<string>): string
    requires j.JObj? && keys <= j.fields.Keys
    decreases j, 0, |keys|
  {
    if keys == {} then "0"
    else
      var key := AnyOf(keys);
      "1" + (CodeText(key) + (Code(j.fields[key]) + CodeFields(j, keys - {key})))
  }

  ghost function AnyOf(keys: set<string>): (key: string)
    requires keys != {}
    ensures key in keys
  {
    var key :| key in keys;
    key
  }

  lemma {:induction false} Regroup(a: string, b: string, c: string)
    ensures a + b + c == a + (b + c)
  {
  }

  lemma {:induction false} CodeReadsBack(a: Json, x: string, b: Json, y: string)
    requires Code(a) + x == Code(b) + y
    ensures a == b && x == y
    decreases a, 2, 0
  {
    hide Body;
    SameHeads(Code(a), x, Code(b), y);
    assert Code(a)[1..] == Body(a) && Code(b)[1..] == Body(b);
    BodyReadsBack(a, x, b, y);
  }

  lemma {:induction false} BodyReadsBack(a: Json, x: string, b: Json, y: string)
    requires Tag(a) == Tag(b) && Body(a) + x == Body(b) + y
    ensures a == b && x == y
    decreases a, 1, 0
  {
    hide CodeText, CodeInt, CodeItems, CodeFields;
    match a {
      case JStr(text) => TextReadsBack(text, x, b.text, y);
      case JInt(num) => IntReadsBack(num, x, b.num, y);
      case JReal(digits, exponent) =>
        Regroup(CodeInt(digits), CodeInt(exponent), x);
        Regroup(CodeInt(b.digits), CodeInt(b.exponent), y);
        IntReadsBack(digits, CodeInt(exponent) + x, b.digits, CodeInt(b.exponent) + y);
        IntReadsBack(exponent, x, b.exponent, y);
      case JBool(flag) => IntReadsBack(if flag then 1 else 0, x, if b.flag then 1 else 0, y);
      case JNull => assert "" + x == x && "" + y == y;
      case JList(items) => ItemsReadBack(a, x, b, y, 0);
      case JObj(fields) => FieldsReadBack(a, fields.Keys, x, b, b.fields.Keys, y);
    }
  }

  lemma {:induction false} ItemsReadBack(a: Json, x: string, b: Json, y: string, i: nat)
    requires a.JList? && b.JList? && i <= |a.items| && i <= |b.items|
    requires CodeItems(a, i) + x == CodeItems(b, i) + y
    ensures a.items[i..] == b.items[i..] && x == y
    decreases a, 0, |a.items| - i
  {
    hide Code;
    SameHeads(CodeItems(a, i), x, CodeItems(b, i), y);
    if i == |a.items| {
      assert "" + x == x && "" + y == y;
    } else {
      var c, d := a.items[i], b.items[i];
      assert CodeItems(a, i)[1..] == Code(c) + CodeItems(a, i + 1);
      assert CodeItems(b, i)[1..] == Code(d) + CodeItems(b, i + 1);
      Regroup(Code(c), CodeItems(a, i + 1), x);
      Regroup(Code(d), CodeItems(b, i + 1), y);
      CodeReadsBack(c, CodeItems(a, i + 1) + x, d, CodeItems(b, i + 1) + y);
      ItemsReadBack(a, x, b, y, i + 1);
      assert a.items[i..] == [c] + a.items[i+1..] && b.items[i..] == [d] + b.items[i+1..];
    }
  }

  lemma {:induction false} FieldsReadBack(a: Json, s: set<string>, x: string, b: Json, t: set<string>, y: string)
    requires a.JObj? && b.JObj? && s <= a.fields.Keys && t <= b.fields.Keys
    requires CodeFields(a, s) + x == CodeFields(b, t) + y
    ensures s == t && x == y && forall key | key in s :: a.fields[key] == b.fields[key]
    decreases a, 0, |s|
  {
    hide Code, CodeText;
    SameHeads(CodeFields(a, s), x, CodeFields(b, t), y);
    if s == {} {
      assert "" + x == x && "" + y == y;
    } else {
      var k, l := AnyOf(s), AnyOf(t);
      var restA, restB := CodeFields(a, s - {k}), CodeFields(b, t - {l});
      FieldUnfolds(a, s);
      FieldUnfolds(b, t);
      FieldReadsBack(k, a.fields[k], restA, x, l, b.fields[l], restB, y);
      FieldsReadBack(a, s - {k}, x, b, t - {l}, y);
      assert s == s - {k} + {k} && t == t - {l} + {l};
    }
  }

  lemma {:induction false} FieldUnfolds(j: Json, keys: set<string>)
    requires j.JObj? && keys <= j.fields.Keys && keys != {}
    ensures var key := AnyOf(keys);
            CodeFields(j, keys)[1..] == CodeText(key) + (Code(j.fields[key]) + CodeFields(j, keys - {key}))
  {
  }

  lemma {:induction false} FieldReadsBack(k: string, c: Json, restA: string, x: string,
                                          l: string, d: Json, restB: string, y: string)
    requires CodeText(k) + (Code(c) + restA) + x == CodeText(l) + (Code(d) + restB) + y
    ensures k == l && c == d && restA + x == restB + y
    decreases c, 2, 1
  {
    hide Code, CodeText;
    Regroup(CodeText(k), Code(c) + restA, x);
    Regroup(CodeText(l), Code(d) + restB, y);
    TextReadsBack(k, Code(c) + restA + x, l, Code(d) + restB + y);
    Regroup(Code(c), restA, x);
    Regroup(Code(d), restB, y);
    CodeReadsBack(c, restA + x, d, restB + y);
  }

  /** Collision-free digests of JSON values exist. */
  lemma {:induction false} SomeDigestIsInjective()
    ensures exists digest: Json -> string :: Injective(digest)
  {
    forall x, y | Code(x) == Code(y) ensures x == y {
      assert Code(x) + "" == Code(y) + "";
      CodeReadsBack(x, "", y, "");
    }
    var digest: Json -> string := Code;
    assert Injective(digest);
  }
}
