/** internal/match: looking a name up in a rule set, ancestors included. */
module Matching {
  import opened Names
  import opened Rules

  /** Exact match, or a wildcard rule at the name itself or at one of its ancestors, where
      an ancestor is a name whose labels are the last labels of this one. */
  ghost predicate Matches(exact: set<string>, wildcard: set<string>, name: string) {
    name in exact || exists w :: w in wildcard && LabelSuffix(Split(w), Split(name))
  }

  lemma SuffixOfCons<T>(w: seq<T>, x: T, rest: seq<T>)
    ensures LabelSuffix(w, [x] + rest) <==> w == [x] + rest || LabelSuffix(w, rest)
  {
    var n := [x] + rest;
    assert n[1..] == rest && n[0..] == n;
    if |w| <= |rest| {
      assert n[|n| - |w|..] == rest[|rest| - |w|..];
    }
  }

  /** A name seen by Match's walk: cutting at the first dot drops one label. */
  lemma WalkStep(d: string, i: nat, w: string)
    requires i < |d| && d[i] == '.' && '.' !in d[..i]
    ensures AtOrBelow(d, w) <==> d == w || AtOrBelow(d[i + 1..], w)
  {
    var x, rest := d[..i], d[i + 1..];
    assert d == x + "." + rest;
    SplitAtDot(x, rest);
    SplitDotFree(x);
    AtOrBelowLabels(d, w);
    AtOrBelowLabels(rest, w);
    SuffixOfCons(Split(w), x, Split(rest));
    if Split(w) == Split(d) { SplitInjective(d, w); }
  }

  lemma BelowHasDot(d: string, w: string)
    requires StrictlyBelow(d, w)
    ensures '.' in d
  {
    assert d[|d| - |w| - 1] == d[|d| - |w| - 1..][0] == '.';
  }

  lemma NoDotNoAncestor(d: string, w: string)
    requires '.' !in d
    ensures AtOrBelow(d, w) <==> d == w
  {
    if StrictlyBelow(d, w) { BelowHasDot(d, w); }
  }

  /** strings.IndexByte(d, '.'), or -1. */
  method IndexDot(d: string) returns (i: int)
    ensures i < 0 ==> '.' !in d
    ensures i >= 0 ==> i < |d| && d[i] == '.' && '.' !in d[..i]
  {
    i := 0;
    while i < |d|
      invariant 0 <= i <= |d| && '.' !in d[..i]
    {
      if d[i] == '.' { return; }
      i := i + 1;
    }
    i := -1;
  }

  class Matcher {
    var exact: set<string>
    var wildcard: set<string>

    ghost predicate Valid()
      reads this
    {
      "" !in exact && "" !in wildcard
    }

    constructor ()
      ensures Valid() && exact == {} && wildcard == {}
    {
      exact, wildcard := {}, {};
    }

    /** Adds one rule; the empty name is ignored. */
    method Add(domain: string, mt: MatchType)
      requires Valid()
      modifies this
      ensures Valid()
      ensures exact == old(exact) + if domain != "" && mt == Exact then {domain} else {}
      ensures wildcard == old(wildcard) + if domain != "" && mt == Wildcard then {domain} else {}
    {
      if domain == "" { return; }
      if mt == Wildcard {
        wildcard := wildcard + {domain};
        return;
      }
      exact := exact + {domain};
    }

    function Len(): nat
      reads this
    {
      |exact| + |wildcard|
    }

    /** The suffix walk decides exactly the label-wise relation. */
    method Match(domain: string) returns (found: bool)
      requires Valid()
      ensures found <==> Matches(exact, wildcard, domain)
    {
      LabelForm(domain);
      if Len() == 0 || domain == "" {
        EmptyNameUnmatched(domain);
        return false;
      }
      if domain in exact { return true; }
      var d := domain;
      while d != ""
        invariant (exists w :: w in wildcard && AtOrBelow(domain, w)) <==> (exists w :: w in wildcard && AtOrBelow(d, w))
        decreases |d|
      {
        if d in wildcard {
          assert AtOrBelow(d, d);
          return true;
        }
        var i := IndexDot(d);
        if i < 0 {
          forall w | w in wildcard ensures !AtOrBelow(d, w) { NoDotNoAncestor(d, w); }
          return false;
        }
        forall w | w in wildcard ensures AtOrBelow(d, w) <==> AtOrBelow(d[i + 1..], w) {
          WalkStep(d, i, w);
        }
        d := d[i + 1..];
      }
      EmptyNameUnmatched(d);
      return false;
    }

    lemma EmptyNameUnmatched(domain: string)
      requires Valid() && (Len() == 0 || domain == "")
      ensures domain !in exact && !exists w :: w in wildcard && AtOrBelow(domain, w)
    {
    }

    lemma LabelForm(domain: string)
      ensures Matches(exact, wildcard, domain) <==>
              domain in exact || exists w :: w in wildcard && AtOrBelow(domain, w)
    {
      forall w | w in wildcard ensures AtOrBelow(domain, w) <==> LabelSuffix(Split(w), Split(domain)) {
        AtOrBelowLabels(domain, w);
      }
    }
  }

  // ----- a matcher filled from a rule list -----

  function ExactNames(rules: seq<Rule>): set<string> {
    set r | r in rules && r.matchType == Exact && r.domain != "" :: r.domain
  }

  function WildcardNames(rules: seq<Rule>): set<string> {
    set r | r in rules && r.matchType == Wildcard && r.domain != "" :: r.domain
  }

  /** Loading an allowlist or denylist: Add, row by row. */
  method Load(rules: seq<Rule>) returns (m: Matcher)
    ensures fresh(m) && m.Valid()
    ensures m.exact == ExactNames(rules) && m.wildcard == WildcardNames(rules)
  {
    m := new Matcher();
    for i := 0 to |rules|
      invariant m.Valid() && fresh(m)
      invariant m.exact == ExactNames(rules[..i]) && m.wildcard == WildcardNames(rules[..i])
    {
      assert rules[..i + 1] == rules[..i] + [rules[i]];
      m.Add(rules[i].domain, rules[i].matchType);
      LoadStep(rules[..i], rules[i]);
    }
    assert rules[..|rules|] == rules;
  }

  lemma LoadStep(rules: seq<Rule>, r: Rule)
    ensures ExactNames(rules + [r]) == ExactNames(rules) + if r.domain != "" && r.matchType == Exact then {r.domain} else {}
    ensures WildcardNames(rules + [r]) == WildcardNames(rules) + if r.domain != "" && r.matchType == Wildcard then {r.domain} else {}
  {
    assert forall x :: x in rules + [r] <==> x in rules || x == r;
  }
}
