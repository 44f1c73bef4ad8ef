/**
 * Flow matching: rules are tried in order and, within a rule, its regular
 * expressions in order; the first expression that finds a match in the text
 * decides the flow.
 */
module FlowMatch {
  import opened Wrappers
  import opened Messages

  /** Some regular expression of `rule` finds a match in `text`. */
  ghost predicate RuleMatches(rule: FlowRule, text: string, matches: (string, string) -> bool) {
    exists k :: 0 <= k < |rule.regexes| && matches(rule.regexes[k], text)
  }

  /** Rule `i` matches and no earlier rule does. */
  ghost predicate IsFirstMatchingRule(rules: seq<FlowRule>, text: string, matches: (string, string) -> bool, i: int) {
    && 0 <= i < |rules|
    && RuleMatches(rules[i], text, matches)
    && forall j :: 0 <= j < i ==> !RuleMatches(rules[j], text, matches)
  }

  /** Whether some pattern of `patterns` finds a match in `text`. */
  function AnyPatternMatches(patterns: seq<string>, text: string, matches: (string, string) -> bool): (b: bool)
    ensures b <==> exists k :: 0 <= k < |patterns| && matches(patterns[k], text)
  {
    if patterns == [] then false
    else if matches(patterns[0], text) then true
    else
      var b := AnyPatternMatches(patterns[1..], text, matches);
      assert forall k :: 1 <= k < |patterns| ==> patterns[k] == patterns[1..][k - 1];
      b
  }

  /** The flow of the first rule with a matching pattern, or `None`. */
  function FirstMatch(rules: seq<FlowRule>, text: string, matches: (string, string) -> bool): Option<string>
  {
    if rules == [] then None
    else if AnyPatternMatches(rules[0].regexes, text, matches) then Some(rules[0].flow)
    else FirstMatch(rules[1..], text, matches)
  }

  /**
   * `FirstMatch` is `None` exactly when no pattern of any rule matches, and
   * otherwise names the flow of the earliest rule that matches.
   */
  lemma {:induction false} FirstMatchIsEarliest(rules: seq<FlowRule>, text: string, matches: (string, string) -> bool)
    ensures FirstMatch(rules, text, matches).None? <==>
              forall i :: 0 <= i < |rules| ==> !RuleMatches(rules[i], text, matches)
    ensures FirstMatch(rules, text, matches).Some? ==>
              exists i :: IsFirstMatchingRule(rules, text, matches, i)
                       && FirstMatch(rules, text, matches).value == rules[i].flow
  {
    if rules != [] {
      if AnyPatternMatches(rules[0].regexes, text, matches) {
        assert IsFirstMatchingRule(rules, text, matches, 0);
      } else {
        FirstMatchIsEarliest(rules[1..], text, matches);
        assert forall i :: 1 <= i < |rules| ==> rules[i] == rules[1..][i - 1];
        if FirstMatch(rules, text, matches).Some? {
          var i :| IsFirstMatchingRule(rules[1..], text, matches, i)
                   && FirstMatch(rules, text, matches).value == rules[1..][i].flow;
          assert IsFirstMatchingRule(rules, text, matches, i + 1);
        }
      }
    }
  }

  /** A flow `FirstMatch` returns is the flow name of a rule in the list. */
  lemma {:induction false} FirstMatchIsRuleFlow(rules: seq<FlowRule>, text: string, matches: (string, string) -> bool)
    ensures FirstMatch(rules, text, matches).Some? ==>
              exists i :: 0 <= i < |rules| && rules[i].flow == FirstMatch(rules, text, matches).value
  {
    FirstMatchIsEarliest(rules, text, matches);
  }

  /** The nested search loop with its early return. */
  method FindMatchRegex(rules: seq<FlowRule>, text: string, matches: (string, string) -> bool)
    returns (flow: Option<string>)
    ensures flow == FirstMatch(rules, text, matches)
  {
    for i := 0 to |rules|
      invariant FirstMatch(rules, text, matches) == FirstMatch(rules[i..], text, matches)
    {
      var regexes := rules[i].regexes;
      for k := 0 to |regexes|
        invariant forall q :: 0 <= q < k ==> !matches(regexes[q], text)
      {
        if matches(regexes[k], text) {
          assert AnyPatternMatches(regexes, text, matches);
          return Some(rules[i].flow);
        }
      }
      assert rules[i..][1..] == rules[i + 1..];
    }
    return None;
  }
}
