/** Evaluation of one policy definition: deny overrides allow, allow overrides the
    default, and the obligations of every matching rule are collected once each. */
module PolicyEvaluation {
  import opened Wrappers
  import opened Values
  import opened Text
  import opened Conditions
  import opened Context
  import opened PolicyModel
  import opened Lists

  /** The trimmed request fields that rules match on. */
  datatype Query = Query(subject: string, resource: string, action: string)

  datatype Verdict = Verdict(decision: string, obligations: seq<string>, matchedRuleIDs: seq<string>)

  ghost predicate Matches(r: Rule, q: Query, attrs: map<string, Value>) {
    && AnyMatches(r.subjects, q.subject)
    && AnyMatches(r.resources, q.resource)
    && AnyMatches(r.actions, q.action)
    && AllHold(r.conditions, attrs)
  }

  function EffectOf(r: Rule): string {
    ToLower(TrimSpace(r.effect))
  }

  function RuleName(r: Rule, i: nat): string {
    if TrimSpace(r.id) == "" then "rule-" + Decimal(i + 1) else TrimSpace(r.id)
  }

  /** Some matching rule has this effect. */
  ghost predicate Fires(rules: seq<Rule>, effect: string, q: Query, attrs: map<string, Value>) {
    exists r :: r in rules && Matches(r, q, attrs) && EffectOf(r) == effect
  }

  function DefaultDecision(d: Definition): string {
    if ToLower(d.defaultEffect) != "allow" then "deny" else ToLower(d.defaultEffect)
  }

  /** The declarative meaning of a decision. */
  ghost function Decision(d: Definition, q: Query, attrs: map<string, Value>): string {
    if Fires(d.rules, "deny", q, attrs) then "deny"
    else if Fires(d.rules, "allow", q, attrs) then "allow"
    else DefaultDecision(d)
  }

  /** All obligations of the matching rules, in rule order, repetitions included. */
  ghost function Collected(rules: seq<Rule>, q: Query, attrs: map<string, Value>): seq<string> {
    if rules == [] then []
    else
      var r := rules[|rules| - 1];
      Collected(rules[..|rules| - 1], q, attrs) + if Matches(r, q, attrs) then Kept(r.obligations, TrimSpace) else []
  }

  ghost function MatchedNames(rules: seq<Rule>, q: Query, attrs: map<string, Value>): seq<string> {
    if rules == [] then []
    else
      var i := |rules| - 1;
      MatchedNames(rules[..i], q, attrs) + if Matches(rules[i], q, attrs) then [RuleName(rules[i], i)] else []
  }

  ghost function Judged(d: Definition, q: Query, attrs: map<string, Value>): Verdict {
    Verdict(Decision(d, q, attrs), FirstOccurrences(Collected(d.rules, q, attrs)),
            MatchedNames(d.rules, q, attrs))
  }

  method MatchesRule(r: Rule, q: Query, attrs: map<string, Value>) returns (m: bool)
    ensures m <==> Matches(r, q, attrs)
  {
    m := MatchesAny(r.subjects, q.subject);
    if m {
      m := MatchesAny(r.resources, q.resource);
    }
    if m {
      m := MatchesAny(r.actions, q.action);
    }
    if m {
      m := ConditionsMatch(r.conditions, attrs);
    }
  }

  /** How each part of the verdict grows by one more rule. */
  lemma NextRule(rules: seq<Rule>, i: nat, q: Query, attrs: map<string, Value>)
    requires i < |rules|
    ensures forall effect :: Fires(rules[..i + 1], effect, q, attrs) <==>
      Fires(rules[..i], effect, q, attrs) || (Matches(rules[i], q, attrs) && EffectOf(rules[i]) == effect)
    ensures Collected(rules[..i + 1], q, attrs) == Collected(rules[..i], q, attrs)
      + if Matches(rules[i], q, attrs) then Kept(rules[i].obligations, TrimSpace) else []
    ensures MatchedNames(rules[..i + 1], q, attrs) == MatchedNames(rules[..i], q, attrs)
      + if Matches(rules[i], q, attrs) then [RuleName(rules[i], i)] else []
  {
    hide Matches, EffectOf, RuleName;
    assert rules[..i + 1] == rules[..i] + [rules[i]] && rules[..i + 1][..i] == rules[..i];
    forall effect
      ensures Fires(rules[..i + 1], effect, q, attrs) <==>
        Fires(rules[..i], effect, q, attrs) || (Matches(rules[i], q, attrs) && EffectOf(rules[i]) == effect)
    {
      assert rules[i] in rules[..i + 1];
      if Fires(rules[..i], effect, q, attrs) {
        var r :| r in rules[..i] && Matches(r, q, attrs) && EffectOf(r) == effect;
        assert r in rules[..i + 1];
      }
    }
  }

  lemma NoRulesYet(q: Query, attrs: map<string, Value>)
    ensures forall effect :: !Fires([], effect, q, attrs)
    ensures Collected([], q, attrs) == [] && MatchedNames([], q, attrs) == [] && FirstOccurrences([]) == []
  {
  }

  /** The evaluation loop computes the declarative verdict. */
  method EvaluateDefinition(d: Definition, q: Query, attrs: map<string, Value>) returns (v: Verdict)
    ensures v == Judged(d, q, attrs)
  {
    hide Matches, Fires, Collected, MatchedNames, FirstOccurrences, Kept;
    var decision := ToLower(d.defaultEffect);
    if decision != "allow" {
      decision := "deny";
    }
    var obligations: seq<string> := [];
    var matchedRuleIDs: seq<string> := [];
    var hasAllow, hasDeny := false, false;
    NoRulesYet(q, attrs);
    assert d.rules[..0] == [];
    for i := 0 to |d.rules|
      invariant hasDeny <==> Fires(d.rules[..i], "deny", q, attrs)
      invariant hasAllow <==> Fires(d.rules[..i], "allow", q, attrs)
      invariant obligations == FirstOccurrences(Collected(d.rules[..i], q, attrs))
      invariant matchedRuleIDs == MatchedNames(d.rules[..i], q, attrs)
    {
      var rule := d.rules[i];
      NextRule(d.rules, i, q, attrs);
      var matched := MatchesRule(rule, q, attrs);
      if matched {
        var ruleID := TrimSpace(rule.id);
        if ruleID == "" {
          ruleID := "rule-" + Decimal(i + 1);
        }
        matchedRuleIDs := matchedRuleIDs + [ruleID];
        var effect := ToLower(TrimSpace(rule.effect));
        if effect == "deny" {
          hasDeny := true;
        }
        if effect == "allow" {
          hasAllow := true;
        }
        obligations := AddFirstOccurrences(obligations, Collected(d.rules[..i], q, attrs), rule.obligations, TrimSpace);
      } else {
        assert Collected(d.rules[..i], q, attrs) + [] == Collected(d.rules[..i], q, attrs);
      }
    }
    assert d.rules[..|d.rules|] == d.rules;
    if hasDeny {
      decision := "deny";
    } else if hasAllow {
      decision := "allow";
    }
    v := Verdict(decision, obligations, matchedRuleIDs);
  }

  // ---- The response to a request ----

  datatype EvaluationError = MissingFields

  function QueryOf(req: Request): Query {
    Query(TrimSpace(req.subject), TrimSpace(req.resource), TrimSpace(req.action))
  }

  predicate Complete(q: Query) {
    q.subject != "" && q.resource != "" && q.action != ""
  }

  /** What a definition answers to a request at a given time. */
  ghost function Answer(d: Definition, req: Request, clock: Instant): Result<Verdict, EvaluationError> {
    if Complete(QueryOf(req)) then Ok(Judged(d, QueryOf(req), Resolved(req, clock))) else Err(MissingFields)
  }

  method Evaluate(d: Definition, req: Request, clock: Instant) returns (r: Result<Verdict, EvaluationError>)
    ensures r == Answer(d, req, clock)
  {
    hide Judged, Resolved;
    var q := QueryOf(req);
    if q.subject == "" || q.resource == "" || q.action == "" {
      return Err(MissingFields);
    }
    var attributes := Resolve(req, clock);
    var v := EvaluateDefinition(d, q, attributes);
    return Ok(v);
  }

  // ---- Order of rules ----

  /** An obligation is collected exactly when some matching rule lists it, trimmed and non-blank. */
  ghost predicate Obliged(rules: seq<Rule>, q: Query, attrs: map<string, Value>, x: string) {
    exists r :: r in rules && Matches(r, q, attrs) && x in Kept(r.obligations, TrimSpace)
  }

  lemma {:induction false} CollectedMembers(rules: seq<Rule>, q: Query, attrs: map<string, Value>, x: string)
    ensures x in Collected(rules, q, attrs) <==> Obliged(rules, q, attrs, x)
  {
    hide Matches, Kept;
    if rules != [] {
      var t, last := rules[..|rules| - 1], rules[|rules| - 1];
      CollectedMembers(t, q, attrs, x);
      assert forall r :: r in rules <==> r in t || r == last by {
        assert rules == t + [last];
      }
      if Obliged(t, q, attrs, x) {
        var r :| r in t && Matches(r, q, attrs) && x in Kept(r.obligations, TrimSpace);
        assert r in rules;
      }
    }
  }

  /** The decision and the set of obligations do not depend on the order of the rules,
      nor on repeating one. */
  lemma RuleOrderIrrelevant(d: Definition, rules: seq<Rule>, q: Query, attrs: map<string, Value>)
    requires SameMembers(d.rules, rules)
    ensures Decision(d.(rules := rules), q, attrs) == Decision(d, q, attrs)
    ensures SameMembers(Judged(d, q, attrs).obligations, Judged(d.(rules := rules), q, attrs).obligations)
  {
    hide Matches, Kept, EffectOf;
    FirstOccurrencesMeaning(Collected(d.rules, q, attrs));
    FirstOccurrencesMeaning(Collected(rules, q, attrs));
    forall x
      ensures x in Collected(d.rules, q, attrs) <==> x in Collected(rules, q, attrs)
    {
      CollectedMembers(d.rules, q, attrs, x);
      CollectedMembers(rules, q, attrs, x);
    }
  }

  ghost function WithRule(d: Definition, i: nat, r: Rule): Definition
    requires i <= |d.rules|
  {
    d.(rules := d.rules[..i] + [r] + d.rules[i..])
  }

  lemma FiresWithRule(rules: seq<Rule>, i: nat, r: Rule, effect: string, q: Query, attrs: map<string, Value>)
    requires i <= |rules|
    ensures Fires(rules[..i] + [r] + rules[i..], effect, q, attrs) <==>
      Fires(rules, effect, q, attrs) || (Matches(r, q, attrs) && EffectOf(r) == effect)
  {
    hide Matches, EffectOf;
    assert rules == rules[..i] + rules[i..];
    assert forall x :: x in rules[..i] + [r] + rules[i..] <==> x == r || x in rules;
  }

  /** A rule that does not match adds no obligation. */
  lemma ObligationsWithRule(rules: seq<Rule>, i: nat, r: Rule, q: Query, attrs: map<string, Value>)
    requires i <= |rules| && !Matches(r, q, attrs)
    ensures SameMembers(FirstOccurrences(Collected(rules[..i] + [r] + rules[i..], q, attrs)),
                        FirstOccurrences(Collected(rules, q, attrs)))
  {
    hide Matches, Kept, FirstOccurrences, Collected;
    var with := rules[..i] + [r] + rules[i..];
    FirstOccurrencesMeaning(Collected(rules, q, attrs));
    FirstOccurrencesMeaning(Collected(with, q, attrs));
    assert rules == rules[..i] + rules[i..];
    assert forall x :: x in with <==> x == r || x in rules;
    forall x
      ensures x in Collected(rules, q, attrs) <==> x in Collected(with, q, attrs)
    {
      CollectedMembers(rules, q, attrs, x);
      CollectedMembers(with, q, attrs, x);
    }
  }

  /** Inserting a rule anywhere: a deny rule can only take a decision to deny, an allow
      rule never overturns a deny nor an allow, and a rule that does not match changes neither
      the decision nor the obligations. */
  lemma AddingARule(d: Definition, i: nat, r: Rule, q: Query, attrs: map<string, Value>)
    requires i <= |d.rules|
    ensures EffectOf(r) == "deny" ==>
      Decision(WithRule(d, i, r), q, attrs) == if Matches(r, q, attrs) then "deny" else Decision(d, q, attrs)
    ensures EffectOf(r) == "allow" ==>
      Decision(WithRule(d, i, r), q, attrs) ==
        if Matches(r, q, attrs) && !Fires(d.rules, "deny", q, attrs) then "allow" else Decision(d, q, attrs)
    ensures EffectOf(r) == "allow" && Decision(d, q, attrs) == "allow" ==>
      Decision(WithRule(d, i, r), q, attrs) == "allow"
    ensures !Matches(r, q, attrs) ==>
      && Decision(WithRule(d, i, r), q, attrs) == Decision(d, q, attrs)
      && SameMembers(Judged(WithRule(d, i, r), q, attrs).obligations, Judged(d, q, attrs).obligations)
  {
    hide Matches, Kept, EffectOf, Fires, Collected, FirstOccurrences, SameMembers;
    FiresWithRule(d.rules, i, r, "deny", q, attrs);
    FiresWithRule(d.rules, i, r, "allow", q, attrs);
    if !Matches(r, q, attrs) {
      ObligationsWithRule(d.rules, i, r, q, attrs);
    }
  }

  // ---- What validity buys ----

  ghost predicate SomeRuleMatches(d: Definition, q: Query, attrs: map<string, Value>) {
    exists r :: r in d.rules && Matches(r, q, attrs)
  }

  lemma ValidEffects(d: Definition, r: Rule)
    requires ValidDefinition(d) && r in d.rules
    ensures EffectOf(r) == r.effect && r.effect in {"allow", "deny"}
  {
  }

  /** A valid definition answers "allow" or "deny", and its default effect makes a
      difference exactly when no rule matches. */
  lemma DefaultDecidesExactlyWhenNothingMatches(d: Definition, q: Query, attrs: map<string, Value>)
    requires ValidDefinition(d)
    ensures Decision(d, q, attrs) in {"allow", "deny"}
    ensures Decision(d.(defaultEffect := "allow"), q, attrs) != Decision(d.(defaultEffect := "deny"), q, attrs)
       <==> !SomeRuleMatches(d, q, attrs)
    ensures !SomeRuleMatches(d, q, attrs) ==> Decision(d, q, attrs) == d.defaultEffect
  {
    hide Matches, EffectOf;
    assert ToLower("allow") == "allow" && ToLower("deny") == "deny";
    if SomeRuleMatches(d, q, attrs) {
      var r :| r in d.rules && Matches(r, q, attrs);
      ValidEffects(d, r);
    }
  }

  /** No condition of a valid definition can reach the evaluator's unknown-operator case. */
  lemma ValidOperatorsAreKnown(d: Definition, r: Rule, c: Condition)
    requires ValidDefinition(d) && r in d.rules && c in r.conditions
    ensures LowerTrim(c.operator) in OPERATORS
  {
    var i :| 0 <= i < |d.rules| && d.rules[i] == r;
    assert ValidRule(d.rules[i]);
    var j :| 0 <= j < |r.conditions| && r.conditions[j] == c;
    assert ValidCondition(r.conditions[j]);
    NormalizeKnown();
  }

  // ---- What a response can depend on ----

  ghost predicate Reads(d: Definition, key: string) {
    exists r, c :: r in d.rules && c in r.conditions && c.attribute == key
  }

  ghost predicate AgreeOn(a: map<string, Value>, b: map<string, Value>, key: string) {
    (key in a <==> key in b) && (key in a ==> a[key] == b[key])
  }

  lemma MatchesReadsOnlyConditions(r: Rule, q: Query, a: map<string, Value>, b: map<string, Value>)
    requires forall c :: c in r.conditions ==> AgreeOn(a, b, c.attribute)
    ensures Matches(r, q, a) <==> Matches(r, q, b)
  {
  }

  lemma {:induction false} ListsReadOnlyMatches(rules: seq<Rule>, q: Query, a: map<string, Value>, b: map<string,
                                                Value>)
    requires forall r :: r in rules ==> (Matches(r, q, a) <==> Matches(r, q, b))
    ensures Collected(rules, q, a) == Collected(rules, q, b)
    ensures MatchedNames(rules, q, a) == MatchedNames(rules, q, b)
  {
    hide Matches, Kept, RuleName;
    if rules != [] {
      assert rules[|rules| - 1] in rules;
      assert forall r :: r in rules[..|rules| - 1] ==> r in rules;
      ListsReadOnlyMatches(rules[..|rules| - 1], q, a, b);
    }
  }

  /** Two contexts that agree on the attributes named in the conditions get the same verdict. */
  lemma VerdictReadsOnlyNamedAttributes(d: Definition, q: Query, a: map<string, Value>, b: map<string, Value>)
    requires forall key :: Reads(d, key) ==> AgreeOn(a, b, key)
    ensures Judged(d, q, a) == Judged(d, q, b)
  {
    hide Matches, Kept, RuleName, EffectOf, AgreeOn;
    forall r | r in d.rules
      ensures Matches(r, q, a) <==> Matches(r, q, b)
    {
      forall c | c in r.conditions
        ensures AgreeOn(a, b, c.attribute)
      {
        assert Reads(d, c.attribute);
      }
      MatchesReadsOnlyConditions(r, q, a, b);
    }
    ListsReadOnlyMatches(d.rules, q, a, b);
  }

  /** Non-interference: caller attributes that are hidden behind the request's own fields,
      or that no condition names, never change the response. */
  lemma CallerAttributesDoNotInterfere(d: Definition, req: Request, other: map<string, Value>, clock: Instant)
    requires forall key :: Reads(d, key) && key !in Dedicated(req, clock) ==> AgreeOn(req.attributes, other, key)
    ensures Answer(d, req.(attributes := other), clock) == Answer(d, req, clock)
  {
    hide Judged, Reads;
    var req' := req.(attributes := other);
    var own := Dedicated(req, clock);
    assert Dedicated(req', clock) == own;
    ResolvedAgree(req.attributes, other, own, d);
    VerdictReadsOnlyNamedAttributes(d, QueryOf(req), other + own, req.attributes + own);
  }

  lemma ResolvedAgree(a: map<string, Value>, b: map<string, Value>, own: map<string, Value>, d: Definition)
    requires forall key :: Reads(d, key) && key !in own ==> AgreeOn(a, b, key)
    ensures forall key :: Reads(d, key) ==> AgreeOn(b + own, a + own, key)
  {
  }

  // ---- One rule, from the request to the answer ----

  /** A definition of a single rule, with one pattern for each field and one condition. */
  function OneRule(name: string, effect: string, subject: string, resource: string, action: string,
                   c: Condition, obligations: seq<string>, defaultEffect: string): Definition {
    Definition("1.0", "", [Rule(name, effect, [subject], [resource], [action], [c], obligations)], defaultEffect)
  }

  lemma OneRuleMatches(r: Rule, q: Query, attrs: map<string, Value>)
    requires |r.subjects| == |r.resources| == |r.actions| == |r.conditions| == 1
    ensures Matches(r, q, attrs) <==>
      && MatchesPattern(TrimSpace(r.subjects[0]), q.subject) && MatchesPattern(TrimSpace(r.resources[0]), q.resource)
      && MatchesPattern(TrimSpace(r.actions[0]), q.action) && Holds(r.conditions[0], attrs)
  {
    hide TrimSpace, MatchesPattern, Holds;
  }

  /** One more condition narrows a rule to where that condition holds too, no condition asks for
      nothing, one more pattern widens a field to what that pattern matches too, and a field
      without patterns matches nothing. */
  lemma RulesMatchPartByPart(r: Rule, p: string, c: Condition, q: Query, attrs: map<string, Value>)
    ensures AllHold([], attrs) && !AnyMatches([], p)
    ensures AllHold(r.conditions + [c], attrs) <==> AllHold(r.conditions, attrs) && Holds(c, attrs)
    ensures Matches(r.(conditions := r.conditions + [c]), q, attrs) <==> Matches(r, q, attrs) && Holds(c, attrs)
    ensures AnyMatches(r.subjects + [p], q.subject) <==>
      AnyMatches(r.subjects, q.subject) || MatchesPattern(TrimSpace(p), q.subject)
    ensures AnyMatches(r.resources + [p], q.resource) <==>
      AnyMatches(r.resources, q.resource) || MatchesPattern(TrimSpace(p), q.resource)
    ensures AnyMatches(r.actions + [p], q.action) <==>
      AnyMatches(r.actions, q.action) || MatchesPattern(TrimSpace(p), q.action)
  {
    hide AllHold, AnyMatches;
    OneMoreCondition(r.conditions, c, attrs);
    OneMorePattern(r.subjects, p, q.subject);
    OneMorePattern(r.resources, p, q.resource);
    OneMorePattern(r.actions, p, q.action);
    assert AllHold([], attrs) && !AnyMatches([], p) by {
      NothingAsked(p, attrs);
    }
  }

  lemma NothingAsked(value: string, attrs: map<string, Value>)
    ensures AllHold([], attrs) && !AnyMatches([], value)
  {
  }

  lemma OneMoreCondition(conditions: seq<Condition>, c: Condition, attrs: map<string, Value>)
    ensures AllHold(conditions + [c], attrs) <==> AllHold(conditions, attrs) && Holds(c, attrs)
  {
    hide Holds;
    var more := conditions + [c];
    assert more[|conditions|] == c;
    assert forall i :: 0 <= i < |conditions| ==> more[i] == conditions[i];
  }

  lemma OneMorePattern(patterns: seq<string>, p: string, value: string)
    ensures AnyMatches(patterns + [p], value) <==>
      AnyMatches(patterns, value) || MatchesPattern(TrimSpace(p), value)
  {
    hide TrimSpace, MatchesPattern;
    var more := patterns + [p];
    assert more[|patterns|] == p;
    assert forall i :: 0 <= i < |patterns| ==> more[i] == patterns[i];
  }

  lemma OneRuleLists(r: Rule, q: Query, attrs: map<string, Value>)
    ensures Collected([r], q, attrs) == if Matches(r, q, attrs) then Kept(r.obligations, TrimSpace) else []
    ensures MatchedNames([r], q, attrs) == if Matches(r, q, attrs) then [RuleName(r, 0)] else []
    ensures forall effect :: Fires([r], effect, q, attrs) <==> Matches(r, q, attrs) && EffectOf(r) == effect
  {
    hide Matches, Kept, RuleName, EffectOf;
    assert [r][..0] == [];
  }

  lemma FirstName(r: Rule)
    ensures RuleName(r, 0) == if TrimSpace(r.id) == "" then "rule-1" else TrimSpace(r.id)
  {
    hide TrimSpace;
    assert Decimal(1) == "1";
  }

  /** The verdict of a single rule that is either a match or not. */
  function OneVerdict(hit: bool, name: string, effect: string, obligations: seq<string>, defaultEffect: string)
    : Verdict
  {
    if hit then Verdict(effect, FirstOccurrences(Kept(obligations, TrimSpace)),
                        [if TrimSpace(name) == "" then "rule-1" else TrimSpace(name)])
    else Verdict(defaultEffect, [], [])
  }

  lemma OneRuleVerdict(d: Definition, q: Query, attrs: map<string, Value>)
    requires |d.rules| == 1 && ValidDefinition(d)
    ensures var r := d.rules[0];
      Judged(d, q, attrs) == OneVerdict(Matches(r, q, attrs), r.id, r.effect, r.obligations, d.defaultEffect)
  {
    var r := d.rules[0];
    assert d.rules == [r];
    OneRuleLists(r, q, attrs);
    FirstName(r);
    ValidEffects(d, r);
    ValidDefault(d);
    assert FirstOccurrences([]) == [];
    hide TrimSpace, Kept, FirstOccurrences, RuleName, EffectOf, Matches, Fires, Collected, MatchedNames;
    hide DefaultDecision, ValidDefinition;
  }

  /** The answer of a single rule: the rule decides exactly where the trimmed fields of the request
      match its patterns and its attribute equals the value it names, else the default does. */
  lemma OneRuleDecides(name: string, effect: string, subject: string, resource: string, action: string, key: string,
                       value: Value, obligations: seq<string>, defaultEffect: string, req: Request, clock: Instant)
    requires effect in EFFECTS && defaultEffect in EFFECTS && Complete(QueryOf(req))
    requires value.Str? || value.Num? || value.Bool? || value.List?
    ensures var c := Condition(key, "eq", value);
      var d := OneRule(name, effect, subject, resource, action, c, obligations, defaultEffect);
      var m := Resolved(req, clock);
      var hit :=
        && MatchesPattern(TrimSpace(subject), TrimSpace(req.subject))
        && MatchesPattern(TrimSpace(resource), TrimSpace(req.resource))
        && MatchesPattern(TrimSpace(action), TrimSpace(req.action))
        && key in m && SameValue(m[key], value);
      ValidDefinition(d) && Answer(d, req, clock) == Ok(OneVerdict(hit, name, effect, obligations, defaultEffect))
  {
    var c := Condition(key, "eq", value);
    var d := OneRule(name, effect, subject, resource, action, c, obligations, defaultEffect);
    var q, m := QueryOf(req), Resolved(req, clock);
    OneRuleIsValid(d);
    OneRuleMatches(d.rules[0], q, m);
    OneRuleVerdict(d, q, m);
    hide TrimSpace, ValidDefinition, Judged, Matches, OneVerdict, Resolved, MatchesPattern;
    hide EvaluateCondition, SameValue;
    if key in m {
      EqualityMeaning(m[key], value);
    }
  }

  lemma OneRuleIsValid(d: Definition)
    requires d.schemaVersion == "1.0" && |d.rules| == 1 && d.defaultEffect in EFFECTS && d.rules[0].effect in EFFECTS
    requires var r := d.rules[0];
      && |r.subjects| == |r.resources| == |r.actions| == |r.conditions| == 1
      && r.conditions[0].operator == "eq"
      && var v := r.conditions[0].value; v.Str? || v.Num? || v.Bool? || v.List?
    ensures ValidDefinition(d)
  {
  }

  lemma ValidDefault(d: Definition)
    requires d.defaultEffect in EFFECTS
    ensures DefaultDecision(d) == d.defaultEffect
  {
    assert ToLower("allow") == "allow" && ToLower("deny") == "deny";
  }

  // ---- Time windows ----

  /** A rule's time window holds exactly while the minute of the day of the request lies
      between the two clock times, both included. */
  lemma TimeWindow(req: Request, clock: Instant, open: string, close: string)
    requires IsClockString(open) && IsClockString(close)
    ensures Holds(Condition("time", "between", List([Str(open), Str(close)])), Resolved(req, clock))
       <==> MinuteOf(open) <= Moment(req, clock).MinuteOfDay() <= MinuteOf(close)
  {
    hide Resolved, EvaluateCondition, ClockString, IsClockString, MinuteOf, Moment;
    var minute := Moment(req, clock).MinuteOfDay();
    var now := ClockString(minute);
    TimeIsResolved(req, clock);
    ClockStringRoundTrip(minute, open);
    ClockStringRoundTrip(minute, close);
    BetweenOnStrings(now, open, close);
    ClockStringsCompare(now, open);
    ClockStringsCompare(close, now);
    var window := Condition("time", "between", List([Str(open), Str(close)]));
    assert Holds(window, Resolved(req, clock)) <==> EvaluateCondition(Str(now), window.operator, window.value);
  }

  lemma TimeIsResolved(req: Request, clock: Instant)
    ensures "time" in Resolved(req, clock)
    ensures Resolved(req, clock)["time"] == Str(ClockString(Moment(req, clock).MinuteOfDay()))
  {
    hide RequestFields, ClockString;
    assert "time" in TimeFields(Moment(req, clock));
  }

  lemma BetweenOnStrings(s: string, low: string, high: string)
    ensures EvaluateCondition(Str(s), "between", List([Str(low), Str(high)])) <==> !Less(s, low) && !Less(high, s)
  {
    NormalizeKnown();
    LessTrichotomy(s, low);
    LessTrichotomy(s, high);
  }

  lemma ClockStringsCompare(a: string, b: string)
    requires IsClockString(a) && IsClockString(b)
    ensures Less(a, b) <==> MinuteOf(a) < MinuteOf(b)
  {
    if MinuteOf(a) < MinuteOf(b) {
      ClockStringOrder(a, b);
    } else if MinuteOf(b) < MinuteOf(a) {
      ClockStringOrder(b, a);
      LessTrichotomy(a, b);
    } else {
      ClockStringRoundTrip(0, a);
      ClockStringRoundTrip(0, b);
      LessTrichotomy(a, b);
    }
  }
}
