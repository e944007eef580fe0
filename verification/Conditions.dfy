/** The condition language of policy rules: loose equality, scalar comparison and
    the nine operators. */
module Conditions {
  import opened Values
  import opened Wrappers
  import opened Text

  /** A requirement on one attribute. */
  datatype Condition = Condition(attribute: string, operator: string, value: Value)

  const OPERATORS: set<string> := {"eq", "neq", "gt", "gte", "lt", "lte", "in", "nin", "between"}

  /** Numbers compare by magnitude whatever their Go type; anything else structurally. */
  predicate LooselyEqual(a: Value, b: Value) {
    if a.Num? && b.Num? then a.n == b.n else a == b
  }

  /** -1, 0 or 1 for two numbers or two strings; `None` for any other pair. */
  function CompareScalars(a: Value, b: Value): Option<int> {
    if a.Num? then
      if !b.Num? then None
      else if a.n < b.n then Some(-1)
      else if a.n > b.n then Some(1)
      else Some(0)
    else if a.Str? && b.Str? then
      if Less(a.s, b.s) then Some(-1)
      else if Less(b.s, a.s) then Some(1)
      else Some(0)
    else None
  }

  predicate EvaluateCondition(actual: Value, operator: string, expected: Value) {
    var op := LowerTrim(operator);
    if op == "eq" then LooselyEqual(actual, expected)
    else if op == "neq" then !LooselyEqual(actual, expected)
    else if op in {"gt", "gte", "lt", "lte"} then
      match CompareScalars(actual, expected)
      case None => false
      case Some(c) =>
        if op == "gt" then c > 0
        else if op == "gte" then c >= 0
        else if op == "lt" then c < 0
        else c <= 0
    else if op in {"in", "nin"} then
      if !expected.List? then false
      else
        var found := exists i :: 0 <= i < |expected.items| && LooselyEqual(actual, expected.items[i]);
        if op == "in" then found else !found
    else if op == "between" then
      if !expected.List? || |expected.items| != 2 then false
      else
        var low := CompareScalars(actual, expected.items[0]);
        var high := CompareScalars(actual, expected.items[1]);
        low.Some? && high.Some? && low.value >= 0 && high.value <= 0
    else false
  }

  // ---- The comparison is an order on numbers and an order on strings ----

  predicate SameKind(a: Value, b: Value) {
    (a.Num? && b.Num?) || (a.Str? && b.Str?)
  }

  predicate AtMost(a: Value, b: Value) {
    CompareScalars(a, b).Some? && CompareScalars(a, b).value <= 0
  }

  /** Two values are comparable exactly when they are of the same scalar kind, and
      swapping them negates the answer; zero means loosely equal. */
  lemma CompareScalarsSymmetry(a: Value, b: Value)
    ensures CompareScalars(a, b).Some? <==> SameKind(a, b)
    ensures CompareScalars(a, b).Some? ==> CompareScalars(b, a) == Some(-CompareScalars(a, b).value)
    ensures CompareScalars(a, b) == Some(0) <==> SameKind(a, b) && LooselyEqual(a, b)
  {
    if a.Str? && b.Str? {
      LessTrichotomy(a.s, b.s);
    }
  }

  /** Within a kind the comparison is a total preorder. */
  lemma CompareScalarsPreorder(a: Value, b: Value, c: Value)
    ensures SameKind(a, b) ==> AtMost(a, b) || AtMost(b, a)
    ensures AtMost(a, b) && AtMost(b, c) ==> AtMost(a, c)
  {
    CompareScalarsSymmetry(a, b);
    if a.Str? && b.Str? && c.Str? {
      LessTrichotomy(a.s, b.s);
      LessTrichotomy(b.s, c.s);
      LessTrichotomy(a.s, c.s);
      if Less(a.s, b.s) && Less(b.s, c.s) {
        LessTransitive(a.s, b.s, c.s);
      }
    }
  }

  lemma NormalizeKnown()
    ensures forall op :: op in OPERATORS ==> LowerTrim(op) == op
  {
    forall op | op in OPERATORS
      ensures LowerTrim(op) == op
    {
      assert Trimmed(op);
      assert ToLower(op) == op;
    }
  }

  /** `between` is `gte` the low bound together with `lte` the high one. */
  lemma BetweenSplits(actual: Value, low: Value, high: Value)
    ensures EvaluateCondition(actual, "between", List([low, high]))
       <==> EvaluateCondition(actual, "gte", low) && EvaluateCondition(actual, "lte", high)
  {
    NormalizeKnown();
  }

  /** A window whose bounds are reversed, or of different kinds, admits nothing. */
  lemma BetweenNeedsOrderedBounds(actual: Value, low: Value, high: Value)
    requires EvaluateCondition(actual, "between", List([low, high]))
    ensures AtMost(low, high)
  {
    NormalizeKnown();
    CompareScalarsSymmetry(actual, low);
    CompareScalarsPreorder(low, actual, high);
  }

  /** On comparable values exactly one of `gt` and `lte` holds, and exactly one of `lt`
      and `gte`; on incomparable values all four fail. */
  lemma OrderOperatorsComplement(actual: Value, expected: Value)
    ensures SameKind(actual, expected) ==>
      (EvaluateCondition(actual, "gt", expected) <==> !EvaluateCondition(actual, "lte", expected))
      && (EvaluateCondition(actual, "lt", expected) <==> !EvaluateCondition(actual, "gte", expected))
    ensures !SameKind(actual, expected) ==>
      forall op :: op in {"gt", "gte", "lt", "lte"} ==> !EvaluateCondition(actual, op, expected)
  {
    NormalizeKnown();
    CompareScalarsSymmetry(actual, expected);
  }

  /** `neq` always negates `eq`; `nin` negates `in` on lists, and both fail on anything else. */
  lemma EqualityOperatorsComplement(actual: Value, expected: Value)
    ensures EvaluateCondition(actual, "neq", expected) <==> !EvaluateCondition(actual, "eq", expected)
    ensures EvaluateCondition(actual, "nin", expected) <==>
      expected.List? && !EvaluateCondition(actual, "in", expected)
    ensures EvaluateCondition(actual, "in", expected) ==> expected.List?
  {
    NormalizeKnown();
  }

  // ---- What each operator decides ----

  /** Two numbers of the same magnitude, or anything else that is identical. */
  predicate SameValue(a: Value, b: Value) {
    match (a, b)
    case (Num(_, x), Num(_, y)) => x == y
    case _ => a == b
  }

  /** `eq` and `neq`. */
  lemma EqualityMeaning(actual: Value, expected: Value)
    ensures EvaluateCondition(actual, "eq", expected) <==> SameValue(actual, expected)
    ensures EvaluateCondition(actual, "neq", expected) <==> !SameValue(actual, expected)
  {
    NormalizeKnown();
  }

  /** `in` and `nin` on a list; on anything else neither holds. */
  lemma MembershipMeaning(actual: Value, expected: Value)
    ensures EvaluateCondition(actual, "in", expected) <==>
      expected.List? && exists i :: 0 <= i < |expected.items| && SameValue(actual, expected.items[i])
    ensures EvaluateCondition(actual, "nin", expected) <==>
      expected.List? && forall i :: 0 <= i < |expected.items| ==> !SameValue(actual, expected.items[i])
  {
    NormalizeKnown();
    hide LowerTrim;
    if expected.List? {
      assert forall i :: 0 <= i < |expected.items| ==>
        (LooselyEqual(actual, expected.items[i]) <==> SameValue(actual, expected.items[i]));
    }
  }

  /** The four order operators on numbers. */
  lemma NumberOrderMeaning(k: NumKind, x: real, l: NumKind, y: real)
    ensures EvaluateCondition(Num(k, x), "gt", Num(l, y)) <==> x > y
    ensures EvaluateCondition(Num(k, x), "gte", Num(l, y)) <==> x >= y
    ensures EvaluateCondition(Num(k, x), "lt", Num(l, y)) <==> x < y
    ensures EvaluateCondition(Num(k, x), "lte", Num(l, y)) <==> x <= y
  {
    NormalizeKnown();
  }

  /** The four order operators on strings. */
  lemma StringOrderMeaning(x: string, y: string)
    ensures EvaluateCondition(Str(x), "gt", Str(y)) <==> Less(y, x)
    ensures EvaluateCondition(Str(x), "gte", Str(y)) <==> x == y || Less(y, x)
    ensures EvaluateCondition(Str(x), "lt", Str(y)) <==> Less(x, y)
    ensures EvaluateCondition(Str(x), "lte", Str(y)) <==> x == y || Less(x, y)
  {
    NormalizeKnown();
    LessTrichotomy(x, y);
  }

  /** `between` takes a list of exactly two bounds, both of the kind of the value. */
  lemma BetweenMeaning(actual: Value, expected: Value)
    ensures EvaluateCondition(actual, "between", expected) <==>
      && expected.List? && |expected.items| == 2
      && EvaluateCondition(actual, "gte", expected.items[0]) && EvaluateCondition(actual, "lte", expected.items[1])
  {
    hide EvaluateCondition;
    if expected.List? && |expected.items| == 2 {
      assert expected == List([expected.items[0], expected.items[1]]);
      BetweenSplits(actual, expected.items[0], expected.items[1]);
    } else {
      BetweenNeedsTwo(actual, expected);
    }
  }

  lemma BetweenNeedsTwo(actual: Value, expected: Value)
    requires !expected.List? || |expected.items| != 2
    ensures !EvaluateCondition(actual, "between", expected)
  {
    NormalizeKnown();
  }

  /** Whether a condition holds depends on the value of a number, never on its Go type. */
  lemma NumericTypeIrrelevant(a: Value, b: Value, operator: string, expected: Value)
    requires LooselyEqual(a, b)
    ensures EvaluateCondition(a, operator, expected) <==> EvaluateCondition(b, operator, expected)
  {
    if expected.List? {
      forall i | 0 <= i < |expected.items|
        ensures LooselyEqual(a, expected.items[i]) <==> LooselyEqual(b, expected.items[i])
      {
      }
      assert |expected.items| == 2 ==>
        CompareScalars(a, expected.items[0]) == CompareScalars(b, expected.items[0]);
    }
  }
}
