/** What a published file blocks, read off its lines, in terms of the rules and overrides it
    was built from. */
module Coverage {
  import opened Names
  import opened Rules
  import opened Collapsing
  import opened Matching
  import opened Rendering
  import opened Feeds
  import opened RoundTrips
  import opened Builders

  function NameLine(d: string, f: Format): string {
    if f == FormatWildcard then "*." + d else d
  }

  /** Some line of the file names this name or an ancestor of it: with these formats a line
      blocks the whole subtree of its name. */
  ghost predicate FileCovers(b: Body, f: Format, name: string) {
    exists d :: NameLine(d, f) in RawLines(b.bytes) && AtOrBelow(name, d)
  }

  ghost predicate OneLineNames(rules: seq<Rule>) {
    forall r :: r in rules ==> '\n' !in r.domain
  }

  lemma NameLineInjective(a: string, b: string, f: Format)
    requires NameLine(a, f) == NameLine(b, f)
    ensures a == b
  {
    assert NameLine(a, FormatWildcard)[2..] == a && NameLine(b, FormatWildcard)[2..] == b;
  }

  /** The lines of a rendered body are the lines of the collapsed rules. */
  lemma BodyLines(rules: seq<Rule>, f: Format)
    requires ValidFormat(f) && OneLineNames(rules)
    ensures RawLines(Rendered(rules, f).value.bytes) == Lines(Collapsed(rules, f), f)
  {
    var kept := Collapsed(rules, f);
    CollapsePreservesCoverage(rules, f, "");
    forall i | 0 <= i < |kept| ensures '\n' !in Lines(kept, f)[i] {
      assert kept[i] in rules;
      assert forall c :: c in Line(kept[i], f) ==> c == '*' || c == '.' || c in kept[i].domain;
    }
    LinesReadBack(Lines(kept, f));
  }

  lemma LinesCover(rules: seq<Rule>, f: Format, name: string)
    ensures (exists d :: NameLine(d, f) in Lines(rules, f) && AtOrBelow(name, d)) <==> CoveredBy(name, rules)
  {
    if CoveredBy(name, rules) {
      var r :| r in rules && AtOrBelow(name, r.domain);
      var i :| 0 <= i < |rules| && rules[i] == r;
      assert Lines(rules, f)[i] == NameLine(r.domain, f);
    }
    if exists d :: NameLine(d, f) in Lines(rules, f) && AtOrBelow(name, d) {
      var d :| NameLine(d, f) in Lines(rules, f) && AtOrBelow(name, d);
      var i :| 0 <= i < |rules| && Lines(rules, f)[i] == NameLine(d, f);
      NameLineInjective(rules[i].domain, d, f);
      assert rules[i] in rules;
    }
  }

  /** Rendering preserves meaning down to the text: the file blocks what the rules block. */
  lemma RenderedCovers(rules: seq<Rule>, f: Format, name: string)
    requires ValidFormat(f) && OneLineNames(rules)
    ensures FileCovers(Rendered(rules, f).value, f, name) <==> CoveredBy(name, rules)
  {
    BodyLines(rules, f);
    LinesCover(Collapsed(rules, f), f, name);
    CollapsePreservesCoverage(rules, f, name);
  }

  // ----- set algebra of one tenant -----

  /** A shared rule that the tenant's allowlist does not take out. */
  ghost predicate UnallowedCovers(rules: seq<Rule>, t: Tenant, name: string) {
    exists r :: r in rules && !Allowed(t, r.domain) && AtOrBelow(name, r.domain)
  }

  lemma {:induction false} UnallowedMembers(rules: seq<Rule>, t: Tenant, r: Rule)
    ensures r in Unallowed(rules, t) <==> r in rules && !Allowed(t, r.domain)
  {
    if rules != [] {
      var front, last := rules[..|rules| - 1], rules[|rules| - 1];
      assert rules == front + [last];
      UnallowedMembers(front, t, r);
    }
  }

  ghost predicate CategoryBlocks(t: Tenant, base: Base, c: string, name: string) {
    c in base && (UnallowedCovers(base[c], t, name) || CoveredBy(name, DenyFor(t, "")) || CoveredBy(name, DenyFor(t, c)))
  }

  lemma CategoryRulesCover(t: Tenant, base: Base, c: string, name: string)
    ensures CoveredBy(name, CategoryRules(t, base, c)) <==> CategoryBlocks(t, base, c, name)
  {
    if c in base {
      var all, common, own := CategoryRules(t, base, c), DenyFor(t, ""), DenyFor(t, c);
      forall r ensures r in all <==> (r in base[c] && !Allowed(t, r.domain)) || r in common || r in own {
        UnallowedMembers(base[c], t, r);
      }
    }
  }

  ghost predicate CleanInputs(t: Tenant, base: Base) {
    (forall c :: c in base ==> OneLineNames(base[c])) && (forall c :: c in t.deny ==> OneLineNames(t.deny[c]))
  }

  lemma CategoryRulesClean(t: Tenant, base: Base, c: string)
    requires CleanInputs(t, base)
    ensures OneLineNames(CategoryRules(t, base, c))
  {
    if c in base {
      forall r | r in CategoryRules(t, base, c) ensures '\n' !in r.domain { UnallowedMembers(base[c], t, r); }
    }
  }

  /** A category file blocks a name exactly when a shared rule outside the allowlist, or a deny
      rule for every category or for this one, sits at the name or above it. */
  lemma CategoryFileCovers(t: Tenant, base: Base, c: string, f: Format, name: string)
    requires ValidFormat(f) && CleanInputs(t, base) && c in base
    ensures FileCovers(Rendered(CategoryRules(t, base, c), f).value, f, name) <==>
            UnallowedCovers(base[c], t, name) || CoveredBy(name, DenyFor(t, "")) || CoveredBy(name, DenyFor(t, c))
  {
    CategoryRulesClean(t, base, c);
    RenderedCovers(CategoryRules(t, base, c), f, name);
    CategoryRulesCover(t, base, c, name);
  }

  lemma {:induction false} UnionMembers(t: Tenant, base: Base, categories: seq<string>, r: Rule)
    ensures r in Union(t, base, categories) <==> exists c :: c in categories && r in CategoryRules(t, base, c)
  {
    if categories != [] {
      var front, last := categories[..|categories| - 1], categories[|categories| - 1];
      assert categories == front + [last];
      UnionMembers(t, base, front, r);
      if r in CategoryRules(t, base, last) { assert last in categories; }
      if r in Union(t, base, front) {
        var c :| c in front && r in CategoryRules(t, base, c);
        assert c in categories;
      }
    }
  }

  lemma UnionCovers(t: Tenant, base: Base, name: string)
    ensures CoveredBy(name, Union(t, base, t.categories)) <==> exists c :: c in t.categories && CategoryBlocks(t, base, c, name)
  {
    if CoveredBy(name, Union(t, base, t.categories)) {
      var r :| r in Union(t, base, t.categories) && AtOrBelow(name, r.domain);
      UnionMembers(t, base, t.categories, r);
      var c :| c in t.categories && r in CategoryRules(t, base, c);
      CategoryRulesCover(t, base, c, name);
    }
    if exists c :: c in t.categories && CategoryBlocks(t, base, c, name) {
      var c :| c in t.categories && CategoryBlocks(t, base, c, name);
      CategoryRulesCover(t, base, c, name);
      var r :| r in CategoryRules(t, base, c) && AtOrBelow(name, r.domain);
      UnionMembers(t, base, t.categories, r);
    }
  }

  /** all.txt blocks a name exactly when one of the tenant's category files does. */
  lemma AllFileCovers(t: Tenant, base: Base, f: Format, name: string)
    requires ValidFormat(f) && CleanInputs(t, base)
    ensures FileCovers(Rendered(Union(t, base, t.categories), f).value, f, name) <==>
            exists c :: c in t.categories && c in base && FileCovers(Rendered(CategoryRules(t, base, c), f).value, f, name)
  {
    var union := Union(t, base, t.categories);
    forall r | r in union ensures '\n' !in r.domain {
      UnionMembers(t, base, t.categories, r);
      var c :| c in t.categories && r in CategoryRules(t, base, c);
      CategoryRulesClean(t, base, c);
    }
    RenderedCovers(union, f, name);
    UnionCovers(t, base, name);
    forall c | c in base ensures FileCovers(Rendered(CategoryRules(t, base, c), f).value, f, name) <==> CategoryBlocks(t, base, c, name) {
      CategoryFileCovers(t, base, c, f, name);
    }
  }

  lemma {:induction false} CategoryFileIsWritten(t: Tenant, base: Base, f: Format, categories: seq<string>, c: string)
    requires ValidFormat(f) && c in categories && c in base
    ensures OutFile(Slug(t), c + ".txt", Rendered(CategoryRules(t, base, c), f).value) in CategoryFiles(t, base, f, categories)
  {
    var front, last := categories[..|categories| - 1], categories[|categories| - 1];
    assert categories == front + [last];
    if c in front { CategoryFileIsWritten(t, base, f, front, c); }
  }

  /** Both theorems are about files the tenant gets: every enabled category that has rules,
      the union and the allowlist are among them. */
  lemma TenantGetsItsFiles(t: Tenant, base: Base, f: Format, c: string)
    requires ValidFormat(f) && c in t.categories && c in base
    ensures var files := TenantFiles(t, base, f);
            && OutFile(Slug(t), c + ".txt", Rendered(CategoryRules(t, base, c), f).value) in files
            && OutFile(Slug(t), ALL, Rendered(Union(t, base, t.categories), f).value) in files
            && OutFile(Slug(t), ALLOW, Rendered(t.allowRules, f).value) in files
  {
    CategoryFileIsWritten(t, base, f, t.categories, c);
  }
}
