/** Policy definitions, the schema they are validated against, and pattern matching. */
module PolicyModel {
  import opened Values
  import opened Text
  import opened Conditions

  datatype Rule = Rule(
    id: string, effect: string,
    subjects: seq<string>, resources: seq<string>, actions: seq<string>,
    conditions: seq<Condition>, obligations: seq<string>)

  datatype Definition = Definition(
    schemaVersion: string, description: string, rules: seq<Rule>, defaultEffect: string)

  const EFFECTS: set<string> := {"allow", "deny"}

  predicate ValidCondition(c: Condition) {
    c.operator in OPERATORS && (c.value.Str? || c.value.Num? || c.value.Bool? || c.value.List?)
  }

  predicate ValidRule(r: Rule) {
    && r.effect in EFFECTS
    && r.subjects != [] && r.resources != [] && r.actions != []
    && forall i :: 0 <= i < |r.conditions| ==> ValidCondition(r.conditions[i])
  }

  /** Conformance to version 1 of the policy schema. */
  predicate ValidDefinition(d: Definition) {
    && d.schemaVersion == "1.0"
    && d.defaultEffect in EFFECTS
    && d.rules != []
    && forall i :: 0 <= i < |d.rules| ==> ValidRule(d.rules[i])
  }

  /** A trailing star matches any continuation; anything else must match exactly. */
  predicate MatchesPattern(pattern: string, value: string) {
    if pattern == "*" then true
    else if pattern != "" && pattern[|pattern| - 1] == '*' then pattern[..|pattern| - 1] <= value
    else pattern == value
  }

  ghost predicate AnyMatches(patterns: seq<string>, value: string) {
    exists i :: 0 <= i < |patterns| && MatchesPattern(TrimSpace(patterns[i]), value)
  }

  predicate Holds(c: Condition, attrs: map<string, Value>) {
    c.attribute in attrs && EvaluateCondition(attrs[c.attribute], c.operator, c.value)
  }

  ghost predicate AllHold(conditions: seq<Condition>, attrs: map<string, Value>) {
    forall i :: 0 <= i < |conditions| ==> Holds(conditions[i], attrs)
  }

  method MatchesAny(patterns: seq<string>, value: string) returns (r: bool)
    ensures r <==> AnyMatches(patterns, value)
  {
    if |patterns| == 0 {
      return false;
    }
    for i := 0 to |patterns|
      invariant forall j :: 0 <= j < i ==> !MatchesPattern(TrimSpace(patterns[j]), value)
    {
      if MatchesPattern(TrimSpace(patterns[i]), value) {
        return true;
      }
    }
    return false;
  }

  method ConditionsMatch(conditions: seq<Condition>, attrs: map<string, Value>) returns (r: bool)
    ensures r <==> AllHold(conditions, attrs)
  {
    hide EvaluateCondition;
    if |conditions| == 0 {
      return true;
    }
    for i := 0 to |conditions|
      invariant forall j :: 0 <= j < i ==> Holds(conditions[j], attrs)
    {
      var condition := conditions[i];
      if condition.attribute !in attrs {
        return false;
      }
      if !EvaluateCondition(attrs[condition.attribute], condition.operator, condition.value) {
        return false;
      }
    }
    return true;
  }

  /** A pattern's meaning as a prefix or an exact match; "*" needs no case of its own. */
  lemma PatternMeaning(pattern: string, value: string)
    ensures MatchesPattern(pattern, value) <==>
      if "*" <= pattern[|pattern| - (if pattern == "" then 0 else 1)..]
      then pattern[..|pattern| - 1] <= value else pattern == value
  {
  }
}
