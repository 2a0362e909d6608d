/** Scores out of 100, made of components that are rounded to tenths one by one and once more
    in the total. */
module Scores {

  type Rounding = real -> real

  function Tenths(k: int): real {
    k as real / 10.0
  }

  ghost predicate IsTenths(x: real) {
    exists k :: x == Tenths(k)
  }

  /** Rounding gives multiples of a tenth, keeps the order and leaves such multiples alone. */
  ghost predicate RoundsToTenths(round: Rounding) {
    && (forall x, y :: x <= y ==> round(x) <= round(y))
    && (forall k :: round(Tenths(k)) == Tenths(k))
    && (forall x :: IsTenths(round(x)))
  }

  datatype Component = Component(earned: real, possible: real)

  datatype Score = Score(value: real, components: seq<Component>)

  function ScoreComponent(round: Rounding, earned: real, possible: real): Component {
    Component(round(earned), possible)
  }

  function Earned(components: seq<Component>): real {
    if components == [] then 0.0
    else Earned(components[..|components|-1]) + components[|components|-1].earned
  }

  function Possible(components: seq<Component>): real {
    if components == [] then 0.0
    else Possible(components[..|components|-1]) + components[|components|-1].possible
  }

  function Total(round: Rounding, components: seq<Component>): Score {
    Score(round(Earned(components)), components)
  }

  function Max(a: real, b: real): real {
    if a < b then b else a
  }

  function Min(a: real, b: real): real {
    if a < b then a else b
  }

  /** A penalty for each of some findings, down to nothing. */
  function Penalised(possible: int, each: int, count: int): int {
    if possible - count * each < 0 then 0 else possible - count * each
  }

  predicate WithinPossible(c: Component) {
    0.0 <= c.earned <= c.possible
  }

  predicate Bounded(score: Score) {
    0.0 <= score.value <= 100.0 && forall c | c in score.components :: WithinPossible(c)
  }

  lemma {:induction false} RoundInTenths(round: Rounding, k: int)
    requires RoundsToTenths(round)
    ensures round(Tenths(k)) == Tenths(k)
  {
  }

  lemma {:induction false} RoundWhole(round: Rounding, n: int)
    requires RoundsToTenths(round)
    ensures round(n as real) == n as real
  {
    assert Tenths(10 * n) == n as real;
    RoundInTenths(round, 10 * n);
  }

  lemma {:induction false} RoundBetween(round: Rounding, x: real, n: nat)
    requires RoundsToTenths(round) && 0.0 <= x <= n as real
    ensures 0.0 <= round(x) <= n as real
  {
    RoundWhole(round, 0);
    RoundWhole(round, n);
  }

  /** A component earned within its maximum stays within it when it is rounded. */
  lemma {:induction false} ComponentWithin(round: Rounding, earned: real, possible: nat)
    requires RoundsToTenths(round) && 0.0 <= earned <= possible as real
    ensures WithinPossible(ScoreComponent(round, earned, possible as real))
  {
    RoundBetween(round, earned, possible);
  }

  lemma {:induction false} EarnedWithinPossible(components: seq<Component>)
    requires forall c | c in components :: WithinPossible(c)
    ensures 0.0 <= Earned(components) <= Possible(components)
    decreases |components|
  {
    if components != [] {
      assert components[|components|-1] in components;
      EarnedWithinPossible(components[..|components|-1]);
    }
  }

  lemma {:induction false} TotalBounded(round: Rounding, components: seq<Component>)
    requires RoundsToTenths(round)
    requires (forall c | c in components :: WithinPossible(c)) && Possible(components) == 100.0
    ensures Bounded(Total(round, components))
  {
    EarnedWithinPossible(components);
    RoundBetween(round, Earned(components), 100);
  }

  lemma {:induction false} SumWithLast(c: seq<Component>, n: nat)
    requires 0 < n <= |c|
    ensures Earned(c[..n]) == Earned(c[..n-1]) + c[n-1].earned
    ensures Possible(c[..n]) == Possible(c[..n-1]) + c[n-1].possible
  {
    assert c[..n][..n-1] == c[..n-1];
  }

  lemma {:induction false} SumOfFour(c: seq<Component>)
    requires |c| == 4
    ensures Earned(c) == c[0].earned + c[1].earned + c[2].earned + c[3].earned
    ensures Possible(c) == c[0].possible + c[1].possible + c[2].possible + c[3].possible
  {
    SumWithLast(c, 1);
    SumWithLast(c, 2);
    SumWithLast(c, 3);
    SumWithLast(c, 4);
    assert c[..4] == c;
  }

  lemma {:induction false} SumOfFive(c: seq<Component>)
    requires |c| == 5
    ensures Earned(c) == c[0].earned + c[1].earned + c[2].earned + c[3].earned + c[4].earned
    ensures Possible(c) == c[0].possible + c[1].possible + c[2].possible + c[3].possible + c[4].possible
  {
    SumOfFour(c[..4]);
    SumWithLast(c, 5);
    assert c[..5] == c;
  }

  // Counting

  function Count<T>(items: seq<T>, holds: T -> bool): (n: nat)
    ensures n <= |items|
  {
    if items == [] then 0
    else Count(items[..|items|-1], holds) + if holds(items[|items|-1]) then 1 else 0
  }

  lemma {:induction false} CountAll<T>(items: seq<T>, holds: T -> bool)
    ensures Count(items, holds) == |items| <==> forall item | item in items :: holds(item)
    decreases |items|
  {
    if items != [] {
      var front := items[..|items|-1];
      CountAll(front, holds);
      assert items == front + [items[|items|-1]];
    }
  }

  lemma {:induction false} CountNone<T>(items: seq<T>, holds: T -> bool)
    ensures Count(items, holds) == 0 <==> forall item | item in items :: !holds(item)
    decreases |items|
  {
    if items != [] {
      var front := items[..|items|-1];
      CountNone(front, holds);
      assert items == front + [items[|items|-1]];
    }
  }

  /** A share of `possible` is between nothing and all of it. */
  lemma {:induction false} ShareWithin(possible: nat, part: nat, whole: nat)
    requires part <= whole && whole > 0
    ensures 0.0 <= possible as real * part as real / whole as real <= possible as real
  {
    var x, n := possible as real * part as real, whole as real;
    TimesAtMost(possible as real, part as real, n);
    QuotientWithin(x, n, possible as real);
  }

  lemma {:induction false} QuotientWithin(x: real, n: real, bound: real)
    requires n > 0.0 && 0.0 <= x <= bound * n
    ensures 0.0 <= x / n <= bound
  {
    assert x / n * n == x;
    TimesKeepsOrder(bound, x / n, n);
    TimesKeepsOrder(x / n, 0.0, n);
  }

  lemma {:induction false} ProductNotNegative(a: real, b: real)
    requires a >= 0.0 && b >= 0.0
    ensures a * b >= 0.0
  {
  }

  lemma {:induction false} TimesAtMost(factor: real, a: real, b: real)
    requires factor >= 0.0 && 0.0 <= a <= b
    ensures 0.0 <= factor * a <= factor * b
  {
    ProductNotNegative(factor, a);
    ProductNotNegative(factor, b - a);
    assert factor * b - factor * a == factor * (b - a);
  }

  /** A part of at most one of something bounded keeps to the bound. */
  lemma {:induction false} PartWithin(amount: real, part: real, bound: real)
    requires 0.0 <= amount <= bound && 0.0 <= part <= 1.0
    ensures 0.0 <= amount * part <= bound
  {
    ProductNotNegative(amount, part);
    ProductNotNegative(amount, 1.0 - part);
    assert amount - amount * part == amount * (1.0 - part);
  }

  lemma {:induction false} TimesKeepsOrder(a: real, b: real, n: real)
    requires n > 0.0
    ensures a < b ==> a * n < b * n
  {
  }

  ghost function Holding<T>(items: seq<T>, holds: T -> bool): set<nat> {
    set i: nat | i < |items| && holds(items[i])
  }

  lemma {:induction false} CountIsNumber<T>(items: seq<T>, holds: T -> bool)
    ensures Count(items, holds) == |Holding(items, holds)|
    decreases |items|
  {
    if items == [] {
      assert Holding(items, holds) == {};
    } else {
      var n := |items| - 1;
      CountIsNumber(items[..n], holds);
      var last: set<nat> := if holds(items[n]) then {n} else {};
      assert Holding(items, holds) == Holding(items[..n], holds) + last;
    }
  }

  // What marks mean

  /** Marks in proportion, rounded: as many times `possible` as `part` is of `whole`. */
  ghost predicate InProportion(round: Rounding, earned: real, possible: real, part: nat, whole: nat) {
    exists x: real :: earned == round(x) && x * whole as real == possible * part as real
  }

  lemma {:induction false} QuotientInProportion(round: Rounding, x: real, possible: real, part: nat, whole: nat)
    requires whole > 0 && x == possible * part as real / whole as real
    ensures x * whole as real == possible * part as real
    ensures InProportion(round, round(x), possible, part, whole)
  {
  }

  lemma {:induction false} ExactMarks(round: Rounding, earned: real, possible: real, part: nat, whole: nat)
    returns (x: real)
    requires InProportion(round, earned, possible, part, whole)
    ensures earned == round(x) && x * whole as real == possible * part as real
  {
    x :| earned == round(x) && x * whole as real == possible * part as real;
  }

  lemma {:induction false} ExactWithin(x: real, possible: real, p: real, n: real)
    requires n > 0.0 && 0.0 <= p <= n && possible >= 0.0 && x * n == possible * p
    ensures 0.0 <= x <= possible
    ensures p == 0.0 ==> x == 0.0
    ensures p == n ==> x == possible
    ensures possible > 0.0 ==> (p == 0.0 <==> x == 0.0) && (p == n <==> x == possible)
  {
    TimesAtMost(possible, p, n);
    TimesKeepsOrder(x, 0.0, n);
    TimesKeepsOrder(0.0, x, n);
    TimesKeepsOrder(x, possible, n);
    TimesKeepsOrder(possible, x, n);
    if possible > 0.0 {
      TimesKeepsOrder(0.0, p, possible);
      TimesKeepsOrder(p, n, possible);
    }
  }

  /** Nothing of the whole earns nothing, and all of it everything; before rounding, nothing else
      does. */
  lemma {:induction false} ProportionEnds(round: Rounding, earned: real, possible: nat, part: nat, whole: nat)
    requires RoundsToTenths(round) && InProportion(round, earned, possible as real, part, whole)
    requires part <= whole && whole > 0 && possible > 0
    ensures 0.0 <= earned <= possible as real
    ensures part == 0 ==> earned == 0.0
    ensures part == whole ==> earned == possible as real
  {
    hide InProportion, RoundsToTenths;
    var x := ExactMarks(round, earned, possible as real, part, whole);
    ExactWithin(x, possible as real, part as real, whole as real);
    RoundWhole(round, 0);
    RoundWhole(round, possible);
    RoundBetween(round, x, possible);
  }

  /** Marks that before rounding are nothing, or everything, exactly in the given cases. */
  ghost predicate RoundedFrom(round: Rounding, earned: real, possible: real, nothing: bool, everything: bool) {
    exists x: real ::
      earned == round(x) && 0.0 <= x <= possible && (x == 0.0 <==> nothing) && (x == possible <==> everything)
  }

  lemma {:induction false} ProportionDecides(round: Rounding, earned: real, possible: nat, part: nat, whole: nat)
    requires InProportion(round, earned, possible as real, part, whole)
    requires part <= whole && whole > 0 && possible > 0
    ensures RoundedFrom(round, earned, possible as real, part == 0, part == whole)
  {
    hide InProportion;
    var x := ExactMarks(round, earned, possible as real, part, whole);
    ExactWithin(x, possible as real, part as real, whole as real);
  }

  lemma {:induction false} RoundKeepsOrder(round: Rounding, x: real, y: real)
    requires RoundsToTenths(round) && x <= y
    ensures round(x) <= round(y)
  {
  }

  /** A larger part of the same whole never earns less. */
  lemma {:induction false} ProportionGrows(round: Rounding, e1: real, e2: real, possible: nat, p1: nat, p2: nat,
                                           whole: nat)
    requires RoundsToTenths(round) && whole > 0 && p1 <= p2
    requires InProportion(round, e1, possible as real, p1, whole)
    requires InProportion(round, e2, possible as real, p2, whole)
    ensures e1 <= e2
  {
    hide InProportion, RoundsToTenths;
    var x := ExactMarks(round, e1, possible as real, p1, whole);
    var y := ExactMarks(round, e2, possible as real, p2, whole);
    LargerPart(x, y, possible as real, p1 as real, p2 as real, whole as real);
    RoundKeepsOrder(round, x, y);
  }

  lemma {:induction false} LargerPart(x: real, y: real, possible: real, p: real, q: real, n: real)
    requires n > 0.0 && 0.0 <= p <= q && possible >= 0.0 && x * n == possible * p && y * n == possible * q
    ensures x <= y
  {
    TimesAtMost(possible, p, q);
    TimesKeepsOrder(y, x, n);
  }

  /** Every one of `count` findings costs `each`, until nothing is left. */
  ghost predicate Deducted(earned: real, possible: real, each: real, count: int) {
    if count as real * each >= possible then earned == 0.0 else earned == possible - count as real * each
  }

  lemma {:induction false} PenaltyDeducts(possible: nat, each: nat, count: nat)
    ensures Deducted(Penalised(possible, each, count) as real, possible as real, each as real, count)
  {
    assert (count * each) as real == count as real * each as real;
  }

  lemma {:induction false} RoundIsTenths(round: Rounding, x: real) returns (k: int)
    requires RoundsToTenths(round)
    ensures round(x) == Tenths(k)
  {
    assert IsTenths(round(x));
    k :| round(x) == Tenths(k);
  }

  /** The total of rounded components is their sum, not rounded any further. */
  lemma {:induction false} TotalIsSum(round: Rounding, components: seq<Component>)
    requires RoundsToTenths(round) && forall c | c in components :: IsTenths(c.earned)
    ensures Total(round, components).value == Earned(components)
  {
    var k := SumIsTenths(components);
    RoundInTenths(round, k);
  }

  lemma {:induction false} SumIsTenths(components: seq<Component>) returns (k: int)
    requires forall c | c in components :: IsTenths(c.earned)
    ensures Earned(components) == Tenths(k)
    decreases |components|
  {
    if components == [] {
      k := 0;
    } else {
      var last := components[|components|-1];
      var front := SumIsTenths(components[..|components|-1]);
      assert last in components;
      var j :| last.earned == Tenths(j);
      k := front + j;
    }
  }

  lemma {:induction false} WholeMarks(round: Rounding, n: nat)
    requires RoundsToTenths(round)
    ensures round(n as real) == n as real && IsTenths(n as real)
  {
    RoundWhole(round, n);
    assert IsTenths(round(n as real));
  }

  lemma {:induction false} PenaltyMarks(round: Rounding, possible: nat, each: nat, count: nat)
    requires RoundsToTenths(round)
    ensures var left := Penalised(possible, each, count) as real;
            round(left) == left && IsTenths(left) && Deducted(left, possible as real, each as real, count)
  {
    WholeMarks(round, Penalised(possible, each, count));
    PenaltyDeducts(possible, each, count);
  }
}
