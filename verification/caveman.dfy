/** cavemanRewrite: rules, as arbitrary string functions, applied to prose only. */
module Caveman {
  import opened Seqs
  import opened CodeBlocks

  /** A rule: its role context, the least intensity it needs, and its global replacement, which
      returns the new text and how many matches it replaced. */
  datatype Rule = Rule(name: string, context: string, minIntensity: int, replaceAll: string -> (string, nat))

  predicate Eligible(rule: Rule, role: string, intensity: int) {
    rule.minIntensity <= intensity && (rule.context == "all" || rule.context == role)
  }

  /** The text after the eligible rules, in order; a rule without a match changes nothing. */
  function ApplyRules(rules: seq<Rule>, role: string, intensity: int, s: string): string {
    if rules == [] then s
    else
      var before := ApplyRules(Init(rules), role, intensity, s);
      var rule := Last(rules);
      if !Eligible(rule, role, intensity) then before
      else
        var (after, n) := rule.replaceAll(before);
        if n > 0 then after else before
  }

  /** The rules that replaced something in s. */
  function RulesUsed(rules: seq<Rule>, role: string, intensity: int, s: string): set<string> {
    if rules == [] then {}
    else
      var rule := Last(rules);
      var before := ApplyRules(Init(rules), role, intensity, s);
      RulesUsed(Init(rules), role, intensity, s)
        + (if Eligible(rule, role, intensity) && rule.replaceAll(before).1 > 0 then {rule.name} else {})
  }

  method RewriteProse(rules: seq<Rule>, role: string, intensity: int, text: string)
    returns (s: string, used: set<string>)
    ensures s == ApplyRules(rules, role, intensity, text)
    ensures used == RulesUsed(rules, role, intensity, text)
  {
    s, used := text, {};
    var i := 0;
    while i < |rules|
      invariant 0 <= i <= |rules|
      invariant s == ApplyRules(rules[..i], role, intensity, text)
      invariant used == RulesUsed(rules[..i], role, intensity, text)
    {
      var rule := rules[i];
      assert Init(rules[..i + 1]) == rules[..i] && Last(rules[..i + 1]) == rule;
      i := i + 1;
      if rule.minIntensity > intensity {
        continue;
      }
      if rule.context != "all" && rule.context != role {
        continue;
      }
      var (newS, n) := rule.replaceAll(s);
      if n > 0 {
        s := newS;
        used := used + {rule.name};
      }
    }
    assert rules[..i] == rules;
  }

  lemma NoRuleNoChange(rules: seq<Rule>, role: string, intensity: int, s: string)
    requires RulesUsed(rules, role, intensity, s) == {}
    ensures ApplyRules(rules, role, intensity, s) == s
  {
  }

  function CavemanText(rules: seq<Rule>, text: string, role: string, intensity: int): string {
    Rewrite(text, s => ApplyRules(rules, role, intensity, s))
  }

  /** The rules are applied, in order, to each maximal run of prose and to nothing else; whatever they
      do, the frozen runs stay in place and verbatim; and a text no rule matched comes back unchanged. */
  method CavemanRewrite(rules: seq<Rule>, text: string, role: string, intensity: int)
    returns (out: string, used: set<string>)
    ensures out == CavemanText(rules, text, role, intensity)
    ensures FrozenKept(text, out)
    ensures used == {} ==> out == text
  {
    used := {};
    var segments := SplitCodeBlocks(text);
    ghost var original := segments;
    ghost var f := s => ApplyRules(rules, role, intensity, s);
    for i := 0 to |segments|
      invariant |segments| == |original|
      invariant forall k | 0 <= k < |segments| :: segments[k] == (if k < i then MapProse(original, f)[k] else original[k])
      invariant used == {} ==> segments == original
    {
      if !segments[i].isCode {
        var s, u := RewriteProse(rules, role, intensity, segments[i].text);
        used := used + u;
        if used == {} {
          NoRuleNoChange(rules, role, intensity, segments[i].text);
        }
        segments := segments[i := segments[i].(text := s)];
      }
    }
    assert segments == MapProse(original, f);
    RewriteIs(text, original, f);
    RewriteKeepsFrozen(text, f);
    out := JoinSegments(segments);
  }
}
