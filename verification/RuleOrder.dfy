/** The order Collapse sorts by. */
module RuleOrder {
  import opened Names
  import opened Rules
  import opened Sorting

  /** Reversed labels first; at one name the wildcard rule comes first. */
  predicate RuleLess(a: Rule, b: Rule) {
    var ra, rb := ReverseLabels(a.domain), ReverseLabels(b.domain);
    Less(ra, rb) || (ra == rb && MatchNumber(a.matchType) > MatchNumber(b.matchType))
  }

  lemma RuleLessTransitive(a: Rule, b: Rule, c: Rule)
    requires RuleLess(a, b) && RuleLess(b, c)
    ensures RuleLess(a, c)
  {
    var ra, rb, rc := ReverseLabels(a.domain), ReverseLabels(b.domain), ReverseLabels(c.domain);
    if Less(ra, rb) && Less(rb, rc) { LessTransitive(ra, rb, rc); }
  }

  /** The order separates any two different rules, because label reversal is injective. */
  lemma RuleLessTotal(a: Rule, b: Rule)
    ensures RuleLess(a, b) || a == b || RuleLess(b, a)
    ensures !RuleLess(a, a)
  {
    var ra, rb := ReverseLabels(a.domain), ReverseLabels(b.domain);
    LessTotal(ra, rb);
    LessIrreflexive(ra);
    if ra == rb { ReverseLabelsInjective(a.domain, b.domain); }
  }

  lemma RuleOrderIsTotal()
    ensures StrictTotalOrder(RuleLess)
  {
    forall a, b ensures RuleLess(a, b) || a == b || RuleLess(b, a) { RuleLessTotal(a, b); }
    forall a ensures !RuleLess(a, a) { RuleLessTotal(a, a); }
    forall a, b, c | RuleLess(a, b) && RuleLess(b, c) ensures RuleLess(a, c) { RuleLessTransitive(a, b, c); }
  }

  lemma NameOrderIsTotal()
    ensures StrictTotalOrder(Less)
  {
    forall a, b ensures Less(a, b) || a == b || Less(b, a) { LessTotal(a, b); }
    forall a ensures !Less(a, a) { LessIrreflexive(a); }
    forall a, b, c | Less(a, b) && Less(b, c) ensures Less(a, c) { LessTransitive(a, b, c); }
  }

  ghost predicate SortedRules(s: seq<Rule>) {
    Sorted(RuleLess, s)
  }

  function SortRules(s: seq<Rule>): seq<Rule> {
    Sort(RuleLess, s)
  }
}
