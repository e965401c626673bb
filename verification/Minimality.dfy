/** When Collapse's result is minimal. The scan compares each rule with the last kept rule
    only. A byte that sorts before '.' (in host names, '-') can put an unrelated rule
    between an ancestor and its descendant, and then both survive. */
module Minimality {
  import opened Names
  import opened Rules
  import opened RuleOrder
  import opened Sorting
  import opened Collapsing

  /** No rule of the list covers another one. */
  ghost predicate Antichain(s: seq<Rule>) {
    forall i, j :: 0 <= i < |s| && 0 <= j < |s| && i != j ==> !AtOrBelow(s[i].domain, s[j].domain)
  }

  /** No rule of the list lies strictly above p. */
  ghost predicate Topmost(p: string, rules: seq<Rule>) {
    forall r :: r in rules ==> !StrictlyBelow(p, r.domain)
  }

  /** q's reversed name continues p's with a byte that sorts before the dot. */
  predicate Interposes(q: string, p: string) {
    var rq, rp := ReverseLabels(q), ReverseLabels(p);
    rp < rq && rq[|rp|] < '.'
  }

  /** The input shape on which the one-pass scan misses a covered rule. */
  ghost predicate HasInterloper(rules: seq<Rule>) {
    exists p, q, d :: p in rules && q in rules && d in rules && Escapes(p.domain, q.domain, d.domain, rules)
  }

  ghost predicate Escapes(p: string, q: string, d: string, rules: seq<Rule>) {
    Topmost(p, rules) && StrictlyBelow(d, p) && Interposes(q, p)
  }

  // ----- the relation between ancestry and byte order -----

  lemma BelowSortsAfter(d: string, p: string)
    requires StrictlyBelow(d, p)
    ensures ReverseLabels(p) + "." <= ReverseLabels(d)
    ensures Less(ReverseLabels(p), ReverseLabels(d))
  {
    ReversedPrefixIsAncestor(d, p);
    ProperPrefixLess(ReverseLabels(p), ReverseLabels(d));
  }

  lemma {:induction false} ProperPrefixLess(a: string, b: string)
    requires a < b
    ensures Less(a, b)
  {
    if a != [] { ProperPrefixLess(a[1..], b[1..]); }
  }

  lemma {:induction false} SmallerNextByte(a: string, x: string, y: string)
    requires a < x && a < y && x[|a|] < y[|a|]
    ensures Less(x, y)
  {
    if a != [] { SmallerNextByte(a[1..], x[1..], y[1..]); }
  }

  lemma InterposerIsNotBelow(q: string, p: string)
    requires Interposes(q, p)
    ensures !AtOrBelow(q, p) && Less(ReverseLabels(p), ReverseLabels(q))
  {
    var rq, rp := ReverseLabels(q), ReverseLabels(p);
    ProperPrefixLess(rp, rq);
    ReversedPrefixIsAncestor(q, p);
    assert (rp + ".")[|rp|] == '.';
  }

  lemma InterposerSortsBefore(q: string, p: string, d: string)
    requires Interposes(q, p) && StrictlyBelow(d, p)
    ensures Less(ReverseLabels(q), ReverseLabels(d))
  {
    BelowSortsAfter(d, p);
    SmallerNextByte(ReverseLabels(p), ReverseLabels(q), ReverseLabels(d));
  }

  /** Between p and a descendant of p, a rule that is not below p interposes. */
  lemma SortedBetweenInterposes(p: string, q: string, d: string)
    requires StrictlyBelow(d, p) && !AtOrBelow(q, p)
    requires Leq(ReverseLabels(p), ReverseLabels(q)) && Leq(ReverseLabels(q), ReverseLabels(d))
    ensures Interposes(q, p)
  {
    var rp, rq, rd := ReverseLabels(p), ReverseLabels(q), ReverseLabels(d);
    BelowSortsAfter(d, p);
    BetweenExtensions(rp, rq, rd);
    if rq == rp { ReverseLabelsInjective(q, p); }
    assert rp < rq;
    ReversedPrefixIsAncestor(q, p);
    assert rq[|rp|] == '.' ==> rp + "." <= rq;
    if rd[|rp|] < rq[|rp|] {
      SmallerNextByte(rp, rd, rq);
      LessAsymmetric(rd, rq);
    }
  }

  // ----- an interloper makes a covered rule survive -----

  /** Once something after p but not below p is the last kept rule, p no longer hides
      anything: the next descendant of p is kept. */
  lemma {:induction false} DescendantSurvives(s: seq<Rule>, last: string, p: string, d: Rule)
    requires SortedRules(s) && d in s && StrictlyBelow(d.domain, p)
    requires !AtOrBelow(last, p) && Less(ReverseLabels(p), ReverseLabels(last))
    requires forall r :: r in s ==> Leq(ReverseLabels(last), ReverseLabels(r.domain))
    ensures exists e :: e in Keep(s, last) && StrictlyBelow(e.domain, p)
  {
    var h := s[0];
    var k := Keep(s, last);
    assert h in s;
    if AtOrBelow(last, p) || AtOrBelow(p, last) { NotAbove(p, last); }
    if Skips(last, h.domain) {
      if StrictlyBelow(h.domain, p) {
        if |last| <= |p| { CommonDescendant(h.domain, last, p); NotAbove(p, last); }
        else { CommonDescendant(h.domain, p, last); }
      }
      assert d in s[1..];
      DescendantSurvives(s[1..], last, p, d);
    } else if StrictlyBelow(h.domain, p) {
      assert h in k;
    } else {
      assert d in s[1..];
      if ReverseLabels(last) != ReverseLabels(h.domain) {
        LessTransitive(ReverseLabels(p), ReverseLabels(last), ReverseLabels(h.domain));
      }
      if h.domain == p { LessIrreflexive(ReverseLabels(p)); }
      TailAfterHead(s);
      DescendantSurvives(s[1..], h.domain, p, d);
      var e :| e in Keep(s[1..], h.domain) && StrictlyBelow(e.domain, p);
      assert e in k;
    }
  }

  lemma NotAbove(p: string, last: string)
    requires Less(ReverseLabels(p), ReverseLabels(last))
    ensures !AtOrBelow(p, last)
  {
    LessAsymmetric(ReverseLabels(p), ReverseLabels(last));
    if StrictlyBelow(p, last) { BelowSortsAfter(p, last); }
  }

  lemma TailAfterHead(s: seq<Rule>)
    requires SortedRules(s) && s != []
    ensures SortedRules(s[1..])
    ensures forall r :: r in s[1..] ==> Leq(ReverseLabels(s[0].domain), ReverseLabels(r.domain))
  {
    forall r | r in s[1..] ensures Leq(ReverseLabels(s[0].domain), ReverseLabels(r.domain)) {
      var j :| 1 <= j < |s| && s[j] == r;
    }
  }

  /** A kept rule that covers q, and is no ancestor of p, interposes as q does. */
  lemma CoverOfInterposer(q: string, last: string, p: string)
    requires Interposes(q, p) && AtOrBelow(q, last) && !StrictlyBelow(p, last)
    ensures !AtOrBelow(last, p) && Less(ReverseLabels(p), ReverseLabels(last))
  {
    InterposerIsNotBelow(q, p);
    if AtOrBelow(last, p) { AtOrBelowTransitive(q, last, p); }
    if q != last {
      var rq, rp, rl := ReverseLabels(q), ReverseLabels(p), ReverseLabels(last);
      BelowSortsAfter(q, last);
      if |rl| <= |rp| {
        assert rl == rq[..|rl|] == rp[..|rl|];
        if |rl| < |rp| {
          assert rp[|rl|] == rq[|rl|] == (rl + ".")[|rl|] == '.';
          assert rl + "." <= rp;
          ReversedPrefixIsAncestor(p, last);
        } else {
          ReverseLabelsInjective(p, last);
        }
      }
      assert rp < rl;
      ProperPrefixLess(rp, rl);
    }
  }

  lemma {:induction false} ScanPastInterloper(s: seq<Rule>, last: string, p: string, q: Rule, d: Rule)
    requires SortedRules(s) && q in s && d in s
    requires StrictlyBelow(d.domain, p) && Interposes(q.domain, p) && Topmost(p, s)
    requires last == "" || !StrictlyBelow(p, last)
    requires forall r :: r in s ==> Leq(ReverseLabels(last), ReverseLabels(r.domain))
    ensures exists e :: e in Keep(s, last) && StrictlyBelow(e.domain, p)
  {
    var h := s[0];
    var k := Keep(s, last);
    assert h in s;
    TailAfterHead(s);
    InterposerSortsBefore(q.domain, p, d.domain);
    LessAsymmetric(ReverseLabels(q.domain), ReverseLabels(d.domain));
    assert forall r :: r in s ==> r == h || r in s[1..];
    assert d in s[1..];
    if q == h {
      if Skips(last, h.domain) {
        CoverOfInterposer(q.domain, last, p);
        DescendantSurvives(s[1..], last, p, d);
      } else {
        InterposerIsNotBelow(q.domain, p);
        DescendantSurvives(s[1..], h.domain, p, d);
      }
    } else {
      assert q in s[1..];
      ScanPastInterloper(s[1..], if Skips(last, h.domain) then last else h.domain, p, q, d);
    }
    if !Skips(last, h.domain) {
      var e :| e in Keep(s[1..], h.domain) && StrictlyBelow(e.domain, p);
      assert e in k;
    }
  }

  // ----- two comparable survivors reveal an interloper -----

  lemma {:induction false} SurvivorNeedsInterloper(s: seq<Rule>, p: string, x: Rule) returns (q: Rule)
    requires SortedRules(s) && p != ""
    requires x in Keep(s, p) && StrictlyBelow(x.domain, p)
    requires forall r :: r in s ==> Leq(ReverseLabels(p), ReverseLabels(r.domain))
    ensures q in s && Interposes(q.domain, p)
  {
    KeepIsSubset(s, p);
    TailAfterHead(s);
    var h := s[0];
    if Skips(p, h.domain) {
      q := SurvivorNeedsInterloper(s[1..], p, x);
    } else {
      q := h;
      KeepIsSubset(s[1..], h.domain);
      assert h in s;
      SortedBetweenInterposes(p, q.domain, x.domain);
    }
  }

  lemma {:induction false} ScanToAncestor(s: seq<Rule>, last: string, p: Rule, x: Rule) returns (q: Rule)
    requires SortedRules(s) && p.domain != ""
    requires p in Keep(s, last) && x in Keep(s, last) && StrictlyBelow(x.domain, p.domain)
    ensures q in s && Interposes(q.domain, p.domain)
  {
    TailAfterHead(s);
    var h := s[0];
    if Skips(last, h.domain) {
      q := ScanToAncestor(s[1..], last, p, x);
    } else {
      KeepIsSubset(s[1..], h.domain);
      BelowSortsAfter(x.domain, p.domain);
      LessAsymmetric(ReverseLabels(p.domain), ReverseLabels(x.domain));
      assert x != p;
      if h == p {
        assert x in Keep(s[1..], h.domain);
        q := SurvivorNeedsInterloper(s[1..], p.domain, x);
      } else {
        assert p in Keep(s[1..], h.domain);
        assert x != h;
        assert x in Keep(s[1..], h.domain);
        q := ScanToAncestor(s[1..], h.domain, p, x);
      }
    }
  }

  /** The scan keeps a name once. */
  lemma {:induction false} KeptNamesDistinct(s: seq<Rule>, last: string, i: nat, j: nat)
    requires SortedRules(s) && NonemptyDomains(s) && i < j < |Keep(s, last)|
    ensures Keep(s, last)[i].domain != Keep(s, last)[j].domain
  {
    TailAfterHead(s);
    var h := s[0];
    assert h in s;
    assert NonemptyDomains(s[1..]);
    if Skips(last, h.domain) {
      KeptNamesDistinct(s[1..], last, i, j);
    } else {
      var k := Keep(s[1..], h.domain);
      assert Keep(s, last)[j] == k[j - 1];
      if i > 0 {
        assert Keep(s, last)[i] == k[i - 1];
        KeptNamesDistinct(s[1..], h.domain, i - 1, j - 1);
      } else {
        HeadNameNotKeptAgain(s[1..], h.domain, j - 1);
      }
    }
  }

  lemma {:induction false} HeadNameNotKeptAgain(s: seq<Rule>, last: string, j: nat)
    requires SortedRules(s) && last != "" && j < |Keep(s, last)|
    requires forall r :: r in s ==> Leq(ReverseLabels(last), ReverseLabels(r.domain))
    ensures Keep(s, last)[j].domain != last
  {
    TailAfterHead(s);
    var h := s[0];
    assert h in s;
    if Skips(last, h.domain) {
      HeadNameNotKeptAgain(s[1..], last, j);
    } else if j > 0 {
      var x := Keep(s[1..], h.domain)[j - 1];
      KeepIsSubset(s[1..], h.domain);
      assert x in s[1..];
      if x.domain == last {
        if ReverseLabels(h.domain) != ReverseLabels(last) {
          LessAsymmetric(ReverseLabels(last), ReverseLabels(h.domain));
        }
        ReverseLabelsInjective(h.domain, last);
      }
    }
  }

  lemma {:induction false} TopmostAncestor(y: Rule, rules: seq<Rule>) returns (p: Rule)
    requires y in rules
    ensures p in rules && AtOrBelow(y.domain, p.domain) && Topmost(p.domain, rules)
    decreases |y.domain|
  {
    if Topmost(y.domain, rules) {
      p := y;
    } else {
      var r :| r in rules && StrictlyBelow(y.domain, r.domain);
      p := TopmostAncestor(r, rules);
      AtOrBelowTransitive(y.domain, r.domain, p.domain);
    }
  }

  // ----- the exact condition -----

  lemma InterloperBreaksMinimality(rules: seq<Rule>, f: Format)
    requires NonemptyDomains(rules) && CoversSubtree(f) && HasInterloper(rules)
    ensures !Antichain(Collapsed(rules, f))
  {
    var p, q, d :| p in rules && q in rules && d in rules && Escapes(p.domain, q.domain, d.domain, rules);
    var e := DescendantIsKept(rules, f, p, q, d);
    var y := TopmostIsKept(rules, f, p);
    ComparableElements(Collapsed(rules, f), e, y);
  }

  lemma SortedInput(rules: seq<Rule>)
    ensures SortedRules(SortRules(rules)) && forall r :: r in SortRules(rules) <==> r in rules
  {
    RuleOrderIsTotal();
    SortSorted(RuleLess, rules);
    SortMembers(RuleLess, rules);
  }

  lemma SameTopmost(d: string, a: seq<Rule>, b: seq<Rule>)
    requires Topmost(d, a) && forall r :: r in a <==> r in b
    ensures Topmost(d, b)
  {
  }

  lemma EmptySortsFirst(s: seq<Rule>)
    ensures forall r :: r in s ==> Leq(ReverseLabels(""), ReverseLabels(r.domain))
  {
    ReverseLabelsEmpty("");
  }

  lemma DescendantIsKept(rules: seq<Rule>, f: Format, p: Rule, q: Rule, d: Rule) returns (e: Rule)
    requires CoversSubtree(f) && p in rules && q in rules && d in rules && Escapes(p.domain, q.domain, d.domain, rules)
    ensures e in Collapsed(rules, f) && StrictlyBelow(e.domain, p.domain)
  {
    var s := SortRules(rules);
    SortedInput(rules);
    SameTopmost(p.domain, rules, s);
    EmptySortsFirst(s);
    ScanPastInterloper(s, "", p.domain, q, d);
    e :| e in Keep(s, "") && StrictlyBelow(e.domain, p.domain);
  }

  lemma TopmostIsKept(rules: seq<Rule>, f: Format, p: Rule) returns (y: Rule)
    requires CoversSubtree(f) && p in rules && Topmost(p.domain, rules)
    ensures y in Collapsed(rules, f) && y in rules && y.domain == p.domain
  {
    CollapsePreservesCoverage(rules, f, p.domain);
    y :| y in Collapsed(rules, f) && AtOrBelow(p.domain, y.domain);
    KeepIsSubset(SortRules(rules), "");
    SortMembers(RuleLess, rules);
  }

  lemma ComparableElements(k: seq<Rule>, e: Rule, y: Rule)
    requires e in k && y in k && StrictlyBelow(e.domain, y.domain)
    ensures !Antichain(k)
  {
    var i :| 0 <= i < |k| && k[i] == e;
    var j :| 0 <= j < |k| && k[j] == y;
    assert i != j && AtOrBelow(k[i].domain, k[j].domain);
  }

  lemma ComparableSurvivorsHaveInterloper(rules: seq<Rule>, f: Format, i: nat, j: nat)
    requires NonemptyDomains(rules) && CoversSubtree(f)
    requires i < |Collapsed(rules, f)| && j < |Collapsed(rules, f)| && i != j
    requires AtOrBelow(Collapsed(rules, f)[i].domain, Collapsed(rules, f)[j].domain)
    ensures HasInterloper(rules)
  {
    var s, k := SortRules(rules), Collapsed(rules, f);
    RuleOrderIsTotal();
    SortSorted(RuleLess, rules);
    SortMembers(RuleLess, rules);
    KeepIsSubset(s, "");
    var x, y := k[i], k[j];
    if i < j { KeptNamesDistinct(s, "", i, j); } else { KeptNamesDistinct(s, "", j, i); }
    assert x in k && y in k;
    var top := TopmostAncestor(y, rules);
    AtOrBelowTransitive(x.domain, y.domain, top.domain);
    var p := TopmostIsKept(rules, f, top);
    var q := ScanToAncestor(s, "", p, x);
    assert Escapes(p.domain, q.domain, x.domain, rules);
  }

  /** Collapse returns a minimal list exactly when no rule of the input interposes between a
      topmost rule and one of its descendants. */
  lemma CollapseMinimalIff(rules: seq<Rule>, f: Format)
    requires NonemptyDomains(rules) && CoversSubtree(f)
    ensures Antichain(Collapsed(rules, f)) <==> !HasInterloper(rules)
  {
    if HasInterloper(rules) { InterloperBreaksMinimality(rules, f); }
    var k := Collapsed(rules, f);
    forall i: nat, j: nat | i < |k| && j < |k| && i != j && AtOrBelow(k[i].domain, k[j].domain)
      ensures HasInterloper(rules)
    {
      ComparableSurvivorsHaveInterloper(rules, f, i, j);
    }
  }

  // ----- names without '-' -----

  lemma {:induction false} JoinBytes(labels: seq<string>, lo: char)
    requires |labels| >= 1 && lo <= '.'
    requires forall l, c :: l in labels && c in l ==> lo <= c
    ensures forall c :: c in Join(labels) ==> lo <= c
  {
    if |labels| > 1 { JoinBytes(labels[1..], lo); }
    assert labels[0] in labels;
  }

  lemma {:induction false} SplitBytes(s: string, lo: char)
    requires forall c :: c in s ==> lo <= c
    ensures forall l, c :: l in Split(s) && c in l ==> lo <= c
  {
    if s != [] {
      assert forall c :: c in s[1..] ==> c in s;
      SplitBytes(s[1..], lo);
      assert s[0] in s;
    }
  }

  lemma ReversedBytes(s: string, lo: char)
    requires lo <= '.' && forall c :: c in s ==> lo <= c
    ensures forall c :: c in ReverseLabels(s) ==> lo <= c
  {
    SplitBytes(s, lo);
    var r := Reverse(Split(s));
    assert forall l :: l in r ==> l in Split(s);
    JoinBytes(r, lo);
  }

  /** If no byte of any name sorts before the dot (for canonical names: no '-'), the result
      is always minimal. */
  lemma MinimalWithoutHyphens(rules: seq<Rule>, f: Format)
    requires NonemptyDomains(rules) && CoversSubtree(f)
    requires forall r, c :: r in rules && c in r.domain ==> '.' <= c
    ensures Antichain(Collapsed(rules, f))
  {
    forall p, q, d | p in rules && q in rules && d in rules
      ensures !Escapes(p.domain, q.domain, d.domain, rules)
    {
      ReversedBytes(q.domain, '.');
      var rp, rq := ReverseLabels(p.domain), ReverseLabels(q.domain);
      if rp < rq { assert rq[|rp|] in rq; }
    }
    CollapseMinimalIff(rules, f);
  }

  lemma TwoLabels(x: string, y: string)
    requires '.' !in x && '.' !in y
    ensures ReverseLabels(x + "." + y) == y + "." + x
  {
    SplitAtDot(x, y);
    SplitDotFree(x);
    SplitDotFree(y);
    var r := Reverse([x, y]);
    assert r == [y, x];
    assert Join(r[1..]) == x;
    assert Join(r) == r[0] + "." + Join(r[1..]);
  }

  lemma HyphenInterposes(x: string, z: string, y: string)
    requires '.' !in x && '.' !in z && '.' !in y
    ensures Interposes(x + "-" + z + "." + y, x + "." + y)
  {
    TwoLabels(x, y);
    TwoLabels(x + "-" + z, y);
    assert y + "." + (x + "-" + z) == (y + "." + x) + ("-" + z);
  }

  lemma LongerIsNotAbove(a: Rule, rules: seq<Rule>)
    requires forall r :: r in rules ==> |r.domain| >= |a.domain|
    ensures Topmost(a.domain, rules)
  {
  }

  lemma EscapeFound(p: Rule, q: Rule, d: Rule, rules: seq<Rule>)
    requires rules == [p, q, d] && Escapes(p.domain, q.domain, d.domain, rules)
    ensures HasInterloper(rules)
  {
    assert p == rules[0] && q == rules[1] && d == rules[2];
  }

  /** A family of inputs that shows the condition is needed: with x = "a", z = "b", w = "x"
      and y = "com" it is {a.com, a-b.com, x.a.com}, of which the scan keeps all three. */
  lemma HyphenWitness(x: string, z: string, w: string, y: string)
    requires '.' !in x && '.' !in z && '.' !in y
    ensures var a, b, c := Rule(x + "." + y, Exact), Rule(x + "-" + z + "." + y, Exact), Rule(w + "." + (x + "." + y), Exact);
            HasInterloper([a, b, c]) && !Antichain(Collapsed([a, b, c], FormatDomain))
  {
    var a, b, c := Rule(x + "." + y, Exact), Rule(x + "-" + z + "." + y, Exact), Rule(w + "." + (x + "." + y), Exact);
    var rules := [a, b, c];
    HyphenInterposes(x, z, y);
    assert c.domain[|w|..] == "." + a.domain;
    LongerIsNotAbove(a, rules);
    assert Escapes(a.domain, b.domain, c.domain, rules);
    EscapeFound(a, b, c, rules);
    InterloperBreaksMinimality(rules, FormatDomain);
  }
}
