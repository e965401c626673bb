/** render.Collapse: one pass that drops rules already covered by the last kept rule. */
module Collapsing {
  import opened Names
  import opened Rules
  import opened RuleOrder
  import opened Sorting

  datatype Format = FormatDomain | FormatWildcard | Unsupported(name: string)

  /** Whether one line of this format blocks the whole subtree of its name. */
  predicate CoversSubtree(f: Format) {
    f.FormatDomain? || f.FormatWildcard?
  }

  predicate ValidFormat(f: Format) {
    f.FormatDomain? || f.FormatWildcard?
  }

  /** The scan's skip test, on names instead of reversed names. An empty `last` means
      that nothing was kept yet. */
  predicate Skips(last: string, domain: string) {
    last != "" && AtOrBelow(domain, last)
  }

  /** What the scan keeps of a sorted list, given the last name kept before it. */
  function Keep(sorted: seq<Rule>, last: string): seq<Rule> {
    if sorted == [] then []
    else if Skips(last, sorted[0].domain) then Keep(sorted[1..], last)
    else [sorted[0]] + Keep(sorted[1..], sorted[0].domain)
  }

  function Collapsed(rules: seq<Rule>, f: Format): seq<Rule> {
    if CoversSubtree(f) then Keep(SortRules(rules), "") else Compact(SortRules(rules))
  }

  lemma SkipTestOnReversedNames(last: string, domain: string)
    ensures Skips(last, domain) <==>
            var l, d := ReverseLabels(last), ReverseLabels(domain);
            l != "" && (d == l || HasPrefix(d, l + "."))
  {
    ReverseLabelsEmpty(last);
    ReversedPrefixIsAncestor(domain, last);
    if ReverseLabels(domain) == ReverseLabels(last) { ReverseLabelsInjective(domain, last); }
  }

  // ----- the method -----

  method SortFunc(out: array<Rule>)
    modifies out
    ensures out[..] == SortRules(old(out[..]))
  {
    var s := SortRules(out[..]);
    SortMembers(RuleLess, out[..]);
    forall i | 0 <= i < out.Length {
      out[i] := s[i];
    }
  }

  /** slices.Clone, slices.SortFunc, then compaction in place over the clone. The caller's
      array is in no modifies clause, so it cannot change. */
  method Collapse(rules: array<Rule>, f: Format) returns (out: array<Rule>, n: nat)
    ensures fresh(out) && n <= out.Length
    ensures out[..n] == Collapsed(rules[..], f)
  {
    if rules.Length == 0 {
      out, n := new Rule[0], 0;
      assert SortRules(rules[..]) == [];
      return;
    }
    out := new Rule[rules.Length](i requires 0 <= i < rules.Length reads rules => rules[i]);
    assert out[..] == rules[..];
    SortFunc(out);
    if !CoversSubtree(f) {
      n := CompactInPlace(out);
    } else {
      n := DropCovered(out);
    }
  }

  lemma KeepStep(kept: seq<Rule>, todo: seq<Rule>, last: string)
    requires todo != []
    ensures kept + Keep(todo, last) ==
            if Skips(last, todo[0].domain) then kept + Keep(todo[1..], last)
            else (kept + [todo[0]]) + Keep(todo[1..], todo[0].domain)
  {
  }

  /** The scan: `kept` is a prefix of the array that the scan is still reading. */
  method DropCovered(out: array<Rule>) returns (n: nat)
    modifies out
    ensures n <= out.Length
    ensures out[..n] == Keep(old(out[..]), "")
  {
    ghost var todo := out[..];
    n := 0;
    var lastKept := "";
    ghost var last := "";
    ReverseLabelsEmpty("");
    var i := 0;
    while i < out.Length
      invariant 0 <= n <= i <= out.Length
      invariant todo == out[i..]
      invariant lastKept == ReverseLabels(last)
      invariant out[..n] + Keep(todo, last) == Keep(old(out[..]), "")
    {
      var r := out[i];
      var skip, rev := Hidden(lastKept, last, r.domain);
      KeepStep(out[..n], todo, last);
      todo := todo[1..];
      i := i + 1;
      if !skip {
        AppendInPlace(out, n, r, i);
        n := n + 1;
        lastKept, last := rev, r.domain;
      }
    }
  }

  /** The test of one scan step, made on the reversed names. */
  method Hidden(lastKept: string, ghost last: string, domain: string) returns (skip: bool, rev: string)
    requires lastKept == ReverseLabels(last)
    ensures rev == ReverseLabels(domain)
    ensures skip <==> Skips(last, domain)
  {
    rev := ReverseLabels(domain);
    SkipTestOnReversedNames(last, domain);
    skip := lastKept != "" && (rev == lastKept || HasPrefix(rev, lastKept + "."));
  }

  /** append(kept, r) while capacity is left: it writes the cell after `kept` in the shared
      array, and nothing from index `from` on. */
  method AppendInPlace(out: array<Rule>, n: nat, r: Rule, from: nat)
    requires n < from <= out.Length
    modifies out
    ensures out[..n + 1] == old(out[..n]) + [r]
    ensures out[from..] == old(out[from..])
  {
    out[n] := r;
  }

  method CompactInPlace(out: array<Rule>) returns (n: nat)
    modifies out
    ensures n <= out.Length
    ensures out[..n] == Compact(old(out[..]))
  {
    var s := Compact(out[..]);
    CompactMembers(out[..]);
    n := |s|;
    forall i | 0 <= i < n {
      out[i] := s[i];
    }
  }

  // ----- coverage is preserved -----

  lemma {:induction false} KeepIsSubset(s: seq<Rule>, last: string)
    ensures forall r :: r in Keep(s, last) ==> r in s
  {
    if s != [] {
      KeepIsSubset(s[1..], last);
      KeepIsSubset(s[1..], s[0].domain);
    }
  }

  lemma {:induction false} KeepCovers(s: seq<Rule>, last: string, name: string)
    requires CoveredBy(name, s)
    ensures CoveredBy(name, Keep(s, last)) || (last != "" && AtOrBelow(name, last))
  {
    var r :| r in s && AtOrBelow(name, r.domain);
    var k := Keep(s, last);
    if Skips(last, s[0].domain) {
      if r == s[0] {
        AtOrBelowTransitive(name, r.domain, last);
      } else {
        assert r in s[1..];
        KeepCovers(s[1..], last, name);
      }
    } else if AtOrBelow(name, s[0].domain) {
      assert s[0] in k;
    } else {
      assert r in s[1..];
      KeepCovers(s[1..], s[0].domain, name);
      var y :| y in Keep(s[1..], s[0].domain) && AtOrBelow(name, y.domain);
      assert y in k;
    }
  }

  /** Collapse preserves meaning: exactly the same names are blocked before and after, and
      nothing is invented. No hypothesis on the rules is needed. */
  lemma CollapsePreservesCoverage(rules: seq<Rule>, f: Format, name: string)
    ensures CoveredBy(name, Collapsed(rules, f)) <==> CoveredBy(name, rules)
    ensures forall r :: r in Collapsed(rules, f) ==> r in rules
  {
    var s := SortRules(rules);
    SortMembers(RuleLess, rules);
    if CoversSubtree(f) {
      KeepIsSubset(s, "");
      if CoveredBy(name, rules) { KeepCovers(s, "", name); }
    } else {
      CompactMembers(s);
    }
  }

  // ----- the result is canonical -----

  lemma {:induction false} KeepIgnoresDuplicates(s: seq<Rule>, last: string)
    requires NonemptyDomains(s)
    ensures Keep(s, last) == Keep(Compact(s), last)
  {
    if |s| > 1 {
      assert s[0] in s && s[1] in s;
      KeepIgnoresDuplicates(s[1..], last);
      KeepIgnoresDuplicates(s[1..], s[0].domain);
      if s[0] == s[1] {
        assert s[1..][0] == s[0];
        assert Keep(s[1..], s[0].domain) == Keep(s[2..], s[0].domain) by { assert s[1..][1..] == s[2..]; }
        if !Skips(last, s[0].domain) {
          assert Keep(s[1..], last) == [s[0]] + Keep(s[2..], s[0].domain) by { assert s[1..][1..] == s[2..]; }
        }
      } else {
        var c := [s[0]] + Compact(s[1..]);
        assert c[1..] == Compact(s[1..]);
      }
    }
  }

  /** The published list depends only on which rules there are, not on their order or
      multiplicity. */
  lemma CollapseIsCanonical(a: seq<Rule>, b: seq<Rule>, f: Format)
    requires forall r :: r in a <==> r in b
    requires CoversSubtree(f) ==> NonemptyDomains(a)
    ensures Collapsed(a, f) == Collapsed(b, f)
  {
    RuleOrderIsTotal();
    SortCompactCanonical(RuleLess, a, b);
    if CoversSubtree(f) {
      SortMembers(RuleLess, a);
      SortMembers(RuleLess, b);
      KeepIgnoresDuplicates(SortRules(a), "");
      KeepIgnoresDuplicates(SortRules(b), "");
    }
  }

  lemma {:induction false} KeepSorted(s: seq<Rule>, last: string)
    requires SortedRules(s)
    ensures SortedRules(Keep(s, last))
  {
    if s != [] {
      KeepSorted(s[1..], last);
      KeepSorted(s[1..], s[0].domain);
      KeepIsSubset(s[1..], s[0].domain);
      forall r | r in s[1..] ensures r == s[0] || RuleLess(s[0], r) {
        var j :| 1 <= j < |s| && s[j] == r;
      }
    }
  }

  lemma {:induction false} KeepTwice(s: seq<Rule>, last: string)
    ensures Keep(Keep(s, last), last) == Keep(s, last)
  {
    if s != [] {
      KeepTwice(s[1..], last);
      KeepTwice(s[1..], s[0].domain);
      var k := [s[0]] + Keep(s[1..], s[0].domain);
      assert k[1..] == Keep(s[1..], s[0].domain);
    }
  }

  lemma {:induction false} CompactTwice(s: seq<Rule>)
    requires StrictlySorted(RuleLess, s)
    ensures Compact(s) == s
  {
    if |s| > 1 {
      RuleLessTotal(s[0], s[1]);
      assert RuleLess(s[0], s[1]);
      CompactTwice(s[1..]);
    }
  }

  /** Collapsing a collapsed list changes nothing. */
  lemma CollapseIdempotent(rules: seq<Rule>, f: Format)
    ensures Collapsed(Collapsed(rules, f), f) == Collapsed(rules, f)
  {
    var s, k := SortRules(rules), Collapsed(rules, f);
    RuleOrderIsTotal();
    SortSorted(RuleLess, rules);
    if CoversSubtree(f) {
      KeepSorted(s, "");
      KeepTwice(s, "");
    } else {
      CompactStrict(RuleLess, s);
      RuleLessNotSelf();
      CompactTwice(k);
    }
    SortSorted(RuleLess, k);
    SortedPermutationUnique(RuleLess, SortRules(k), k);
  }

  lemma RuleLessNotSelf()
    ensures forall r :: !RuleLess(r, r)
  {
    RuleOrderIsTotal();
  }
}
