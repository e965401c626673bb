/** The keys of the files of a build: exactly which tenants and categories give every file a key
    of its own, and that a build of such inputs, built again, is skipped. */
module BuildKeys {
  import opened Names
  import opened Rules
  import opened Sorting
  import opened Collapsing
  import opened Rendering
  import opened Disks
  import opened SnapshotSets
  import opened SnapshotStores
  import opened Dedup
  import opened SnapshotSafety
  import opened SnapshotRuns
  import opened Builders
  import opened Publishing
  import opened Rebuild

  type FileKey = (string, string)  // (slug, name)

  // ----- lists without repetition -----

  lemma NoRepeatOne<T>(s: seq<T>, x: T)
    ensures NoRepeat(s + [x]) <==> NoRepeat(s) && x !in s
  {
    var t := s + [x];
    if NoRepeat(t) {
      forall i, j | 0 <= i < j < |s| ensures s[i] != s[j] { assert t[i] == s[i] && t[j] == s[j]; }
      forall i | 0 <= i < |s| ensures s[i] != x { assert t[i] == s[i] && t[|s|] == x; }
    }
  }

  lemma {:induction false} NoRepeatConcat<T>(s: seq<T>, t: seq<T>)
    ensures NoRepeat(s + t) <==> NoRepeat(s) && NoRepeat(t) && forall x :: x in t ==> x !in s
  {
    if t == [] {
      assert s + t == s;
    } else {
      var front, last := t[..|t| - 1], t[|t| - 1];
      assert t == front + [last] && s + t == (s + front) + [last];
      NoRepeatConcat(s, front);
      NoRepeatOne(s + front, last);
      NoRepeatOne(front, last);
    }
  }

  ghost function KeysOf(files: seq<OutFile>): seq<FileKey> {
    seq(|files|, i requires 0 <= i < |files| => (files[i].tenant, files[i].name))
  }

  lemma KeysConcat(a: seq<OutFile>, b: seq<OutFile>)
    ensures KeysOf(a + b) == KeysOf(a) + KeysOf(b)
  {
  }

  lemma KeysMember(files: seq<OutFile>, k: FileKey)
    ensures k in KeysOf(files) <==> exists f :: f in files && (f.tenant, f.name) == k
  {
    if f :| f in files && (f.tenant, f.name) == k {
      var i :| 0 <= i < |files| && files[i] == f;
      assert KeysOf(files)[i] == k;
    }
    if k in KeysOf(files) {
      var i :| 0 <= i < |files| && KeysOf(files)[i] == k;
      assert files[i] in files;
    }
  }

  lemma DistinctKeysNoRepeat(files: seq<OutFile>)
    requires SafeFiles(files)
    ensures DistinctKeys(files) <==> NoRepeat(KeysOf(files))
  {
    forall i, j | 0 <= i < j < |files| ensures Key(files[i]) == Key(files[j]) <==> KeysOf(files)[i] == KeysOf(files)[j] {
      assert files[i] in files && files[j] in files;
      if Key(files[i]) == Key(files[j]) { RelPathInjective(files[i].tenant, files[i].name, files[j].tenant, files[j].name); }
    }
  }

  // ----- one tenant -----

  /** The categories a tenant gets files for. */
  function Enabled(base: Base, categories: seq<string>): seq<string> {
    if categories == [] then []
    else
      var c := categories[|categories| - 1];
      Enabled(base, categories[..|categories| - 1]) + if c in base then [c] else []
  }

  function WithText(c: string): string {
    c + ".txt"
  }

  function ListNames(cs: seq<string>): seq<string> {
    seq(|cs|, i requires 0 <= i < |cs| => WithText(cs[i]))
  }

  lemma WithTextInjective(a: string, b: string)
    requires WithText(a) == WithText(b)
    ensures a == b
  {
    assert WithText(a)[..|a|] == a && WithText(b)[..|b|] == b;
  }

  function OfSlug(slug: string, names: seq<string>): seq<FileKey> {
    seq(|names|, i requires 0 <= i < |names| => (slug, names[i]))
  }

  lemma KeysGrow(files: seq<OutFile>, slug: string, names: seq<string>, n: string, body: Body)
    requires KeysOf(files) == OfSlug(slug, names)
    ensures KeysOf(files + [OutFile(slug, n, body)]) == OfSlug(slug, names + [n])
  {
    KeysConcat(files, [OutFile(slug, n, body)]);
  }

  lemma ListNamesGrow(cs: seq<string>, c: string)
    ensures ListNames(cs + [c]) == ListNames(cs) + [WithText(c)]
  {
  }

  lemma {:induction false} CategoryKeys(t: Tenant, base: Base, f: Format, categories: seq<string>)
    requires ValidFormat(f)
    ensures KeysOf(CategoryFiles(t, base, f, categories)) == OfSlug(Slug(t), ListNames(Enabled(base, categories)))
  {
    if categories != [] {
      var front, c := categories[..|categories| - 1], categories[|categories| - 1];
      var files, cs := CategoryFiles(t, base, f, front), Enabled(base, front);
      CategoryKeys(t, base, f, front);
      if c in base {
        KeysGrow(files, Slug(t), ListNames(cs), WithText(c), Rendered(CategoryRules(t, base, c), f).value);
        ListNamesGrow(cs, c);
      } else {
        assert files + [] == files && cs + [] == cs;
      }
    }
  }

  function TenantNames(t: Tenant, base: Base): seq<string> {
    ListNames(Enabled(base, t.categories)) + [ALL] + [ALLOW]
  }

  lemma TenantKeyList(t: Tenant, base: Base, f: Format)
    requires ValidFormat(f)
    ensures KeysOf(TenantFiles(t, base, f)) == OfSlug(Slug(t), TenantNames(t, base))
  {
    var files, names := CategoryFiles(t, base, f, t.categories), ListNames(Enabled(base, t.categories));
    var all, allow := Rendered(Union(t, base, t.categories), f).value, Rendered(t.allowRules, f).value;
    CategoryKeys(t, base, f, t.categories);
    KeysGrow(files, Slug(t), names, ALL, all);
    KeysGrow(files + [OutFile(Slug(t), ALL, all)], Slug(t), names + [ALL], ALLOW, allow);
  }

  lemma OfSlugNoRepeat(slug: string, names: seq<string>)
    ensures NoRepeat(OfSlug(slug, names)) <==> NoRepeat(names)
  {
    forall i, j | 0 <= i < j < |names| ensures OfSlug(slug, names)[i] == OfSlug(slug, names)[j] <==> names[i] == names[j] { }
  }

  lemma ListNamesNoRepeat(cs: seq<string>)
    ensures NoRepeat(ListNames(cs)) <==> NoRepeat(cs)
    ensures forall c :: WithText(c) in ListNames(cs) <==> c in cs
  {
    forall i, j | 0 <= i < j < |cs| ensures ListNames(cs)[i] == ListNames(cs)[j] <==> cs[i] == cs[j] {
      if ListNames(cs)[i] == ListNames(cs)[j] { WithTextInjective(cs[i], cs[j]); }
    }
    forall c ensures WithText(c) in ListNames(cs) <==> c in cs {
      if c in cs {
        var i :| 0 <= i < |cs| && cs[i] == c;
        assert ListNames(cs)[i] == WithText(c);
      }
      if WithText(c) in ListNames(cs) {
        var i :| 0 <= i < |cs| && ListNames(cs)[i] == WithText(c);
        WithTextInjective(cs[i], c);
      }
    }
  }

  /** Enabled categories are distinct, and none is called like one of the tenant's own files. */
  ghost predicate DistinctCategories(t: Tenant, base: Base) {
    NoRepeat(Enabled(base, t.categories)) && "all" !in Enabled(base, t.categories) && "allowlist" !in Enabled(base, t.categories)
  }

  lemma TenantNoRepeat(t: Tenant, base: Base)
    ensures NoRepeat(TenantNames(t, base)) <==> DistinctCategories(t, base)
  {
    var cs := Enabled(base, t.categories);
    ListNamesNoRepeat(cs);
    assert WithText("all") == ALL && WithText("allowlist") == ALLOW && |ALL| != |ALLOW|;
    NoRepeatOne(ListNames(cs), ALL);
    NoRepeatOne(ListNames(cs) + [ALL], ALLOW);
  }

  // ----- all tenants -----

  ghost predicate SlugTaken(tenants: seq<Tenant>, slug: string) {
    exists t :: t in tenants && Slug(t) == slug
  }

  /** No two tenants share a slug (the default one has the empty slug), and each has distinct
      categories. */
  ghost predicate DistinctInputs(tenants: seq<Tenant>, base: Base) {
    tenants == [] ||
    var front, t := tenants[..|tenants| - 1], tenants[|tenants| - 1];
    DistinctInputs(front, base) && DistinctCategories(t, base) && !SlugTaken(front, Slug(t))
  }

  lemma {:induction false} SlugOfKey(tenants: seq<Tenant>, base: Base, f: Format, slug: string)
    requires Renderable(tenants, f)
    ensures (slug, ALL) in KeysOf(AllFiles(tenants, base, f)) <== SlugTaken(tenants, slug)
    ensures (exists n :: (slug, n) in KeysOf(AllFiles(tenants, base, f))) ==> SlugTaken(tenants, slug)
  {
    if tenants != [] {
      var front, t := tenants[..|tenants| - 1], tenants[|tenants| - 1];
      assert tenants == front + [t];
      SlugOfKey(front, base, f, slug);
      KeysConcat(AllFiles(front, base, f), TenantFiles(t, base, FormatFor(t, f)));
      TenantKeyList(t, base, FormatFor(t, f));
      OwnSlug(t, base);
      if SlugTaken(front, slug) {
        var x :| x in front && Slug(x) == slug;
        assert x in tenants;
      }
      assert t in tenants;
    }
  }

  lemma OwnSlug(t: Tenant, base: Base)
    ensures (Slug(t), ALL) in OfSlug(Slug(t), TenantNames(t, base))
    ensures forall k :: k in OfSlug(Slug(t), TenantNames(t, base)) ==> k.0 == Slug(t)
  {
    var names := TenantNames(t, base);
    assert OfSlug(Slug(t), names)[|names| - 2] == (Slug(t), ALL);
  }

  lemma OneMoreTenantKeys(front: seq<Tenant>, t: Tenant, base: Base, f: Format)
    requires Renderable(front, f) && ValidFormat(FormatFor(t, f))
    ensures NoRepeat(KeysOf(AllFiles(front, base, f) + TenantFiles(t, base, FormatFor(t, f)))) <==>
            NoRepeat(KeysOf(AllFiles(front, base, f))) && DistinctCategories(t, base) && !SlugTaken(front, Slug(t))
  {
    var earlier, own := KeysOf(AllFiles(front, base, f)), OfSlug(Slug(t), TenantNames(t, base));
    KeysConcat(AllFiles(front, base, f), TenantFiles(t, base, FormatFor(t, f)));
    TenantKeyList(t, base, FormatFor(t, f));
    NoRepeatConcat(earlier, own);
    OfSlugNoRepeat(Slug(t), TenantNames(t, base));
    TenantNoRepeat(t, base);
    SlugOfKey(front, base, f, Slug(t));
    OwnSlug(t, base);
    forall k | k in own && k in earlier ensures SlugTaken(front, Slug(t)) { assert (Slug(t), k.1) in earlier; }
  }

  lemma {:induction false} BuildKeysNoRepeat(tenants: seq<Tenant>, base: Base, f: Format)
    requires Renderable(tenants, f)
    ensures NoRepeat(KeysOf(AllFiles(tenants, base, f))) <==> DistinctInputs(tenants, base)
  {
    if tenants != [] {
      var front, t := tenants[..|tenants| - 1], tenants[|tenants| - 1];
      assert tenants == front + [t] && t in tenants;
      BuildKeysNoRepeat(front, base, f);
      OneMoreTenantKeys(front, t, base, f);
    }
  }

  /** One tenant with one category is enough to repeat a key, if the category is called all. */
  lemma CategoryNamedAll(t: Tenant, base: Base)
    requires t.categories == ["all"] && "all" in base
    ensures !DistinctInputs([t], base)
  {
    assert [t][..0] == [] && t.categories[..0] == [];
    assert "all" in Enabled(base, t.categories);
  }

  // ----- safe names -----

  predicate NoSlash(s: string) {
    '/' !in s && '\\' !in s
  }

  /** Slugs and category names without separators. */
  ghost predicate SafeInputs(tenants: seq<Tenant>, base: Base) {
    forall t :: t in tenants ==> (Slug(t) == "" || SafeSegment(Slug(t))) && forall c :: c in Enabled(base, t.categories) ==> NoSlash(c)
  }

  lemma SafeListName(c: string)
    ensures SafeSegment(WithText(c)) <==> NoSlash(c)
  {
    assert forall x :: x in c ==> x in WithText(c);
    assert forall x :: x in WithText(c) ==> x in c || x in ".txt";
    assert |WithText(c)| >= 4;
  }

  lemma NameOfTenant(t: Tenant, base: Base, n: string)
    ensures n in TenantNames(t, base) <==> n == ALL || n == ALLOW || exists c :: c in Enabled(base, t.categories) && n == WithText(c)
  {
    var cs := Enabled(base, t.categories);
    ListNamesNoRepeat(cs);
    if n in ListNames(cs) {
      var i :| 0 <= i < |cs| && ListNames(cs)[i] == n;
      assert cs[i] in cs;
    }
  }

  lemma SafeTenantNames(t: Tenant, base: Base)
    ensures (forall n :: n in TenantNames(t, base) ==> SafeSegment(n)) <==> forall c :: c in Enabled(base, t.categories) ==> NoSlash(c)
  {
    assert SafeSegment(ALL) && SafeSegment(ALLOW);
    forall n ensures n in TenantNames(t, base) <==> n == ALL || n == ALLOW || exists c :: c in Enabled(base, t.categories) && n == WithText(c) {
      NameOfTenant(t, base, n);
    }
    forall c ensures SafeSegment(WithText(c)) <==> NoSlash(c) { SafeListName(c); }
    assert forall c :: c in Enabled(base, t.categories) ==> WithText(c) in TenantNames(t, base);
  }

  lemma NamesEndInText(t: Tenant, base: Base, n: string)
    requires n in TenantNames(t, base)
    ensures HasSuffix(n, ".txt")
  {
    NameOfTenant(t, base, n);
    assert ALL[3..] == ".txt" && ALLOW[9..] == ".txt";
    if c :| c in Enabled(base, t.categories) && n == WithText(c) { assert n[|c|..] == ".txt"; }
  }

  lemma {:induction false} FileOfTenant(tenants: seq<Tenant>, base: Base, f: Format, k: FileKey)
    requires Renderable(tenants, f)
    ensures k in KeysOf(AllFiles(tenants, base, f)) <==> exists t :: t in tenants && Slug(t) == k.0 && k.1 in TenantNames(t, base)
  {
    if tenants != [] {
      var front, t := tenants[..|tenants| - 1], tenants[|tenants| - 1];
      assert tenants == front + [t];
      FileOfTenant(front, base, f, k);
      KeysConcat(AllFiles(front, base, f), TenantFiles(t, base, FormatFor(t, f)));
      TenantKeyList(t, base, FormatFor(t, f));
      OfSlugMember(Slug(t), TenantNames(t, base), k);
    }
  }

  lemma OfSlugMember(slug: string, names: seq<string>, k: FileKey)
    ensures k in OfSlug(slug, names) <==> k.0 == slug && k.1 in names
  {
    if k.0 == slug && k.1 in names {
      var i :| 0 <= i < |names| && names[i] == k.1;
      assert OfSlug(slug, names)[i] == k;
    }
  }

  lemma SafeFilesIff(tenants: seq<Tenant>, base: Base, f: Format)
    requires Renderable(tenants, f)
    ensures SafeFiles(AllFiles(tenants, base, f)) <==> SafeInputs(tenants, base)
  {
    var files := AllFiles(tenants, base, f);
    assert SafeFiles(files) <==> forall k :: k in KeysOf(files) ==> SafeKey(k.0, k.1) by {
      forall k ensures k in KeysOf(files) <==> exists x :: x in files && (x.tenant, x.name) == k { KeysMember(files, k); }
      forall x | x in files ensures (x.tenant, x.name) in KeysOf(files) { KeysMember(files, (x.tenant, x.name)); }
    }
    if SafeInputs(tenants, base) {
      forall k | k in KeysOf(files) ensures SafeKey(k.0, k.1) {
        FileOfTenant(tenants, base, f, k);
        var t :| t in tenants && Slug(t) == k.0 && k.1 in TenantNames(t, base);
        SafeTenantNames(t, base);
      }
    }
    if forall k :: k in KeysOf(files) ==> SafeKey(k.0, k.1) {
      forall t | t in tenants
        ensures Slug(t) == "" || SafeSegment(Slug(t))
        ensures forall c :: c in Enabled(base, t.categories) ==> NoSlash(c)
      {
        forall n | n in TenantNames(t, base) ensures SafeKey(Slug(t), n) { FileOfTenant(tenants, base, f, (Slug(t), n)); }
        SafeTenantNames(t, base);
        OwnSlug(t, base);
        assert ALL in TenantNames(t, base);
      }
    }
  }

  // ----- what a build may be given -----

  ghost predicate GoodInputs(tenants: seq<Tenant>, base: Base) {
    SafeInputs(tenants, base) && DistinctInputs(tenants, base)
  }

  lemma RelEndsLikeName(f: ListFile)
    requires HasSuffix(f.name, ".txt")
    ensures HasSuffix(Rel(f), ".txt")
  {
    if f.tenant != "" {
      var r, n := Rel(f), |f.name| - 4;
      assert r == ("t/" + f.tenant + "/") + f.name;
      assert r[|r| - 4..] == f.name[n..];
    }
  }

  lemma TextFilesApart(written: seq<ListFile>)
    requires forall f :: f in written ==> HasSuffix(f.name, ".txt")
    ensures Apart(written)
  {
    forall f, g | f in written && g in written
      ensures Rel(f) != MANIFEST && Rel(f) != MANIFEST + ".tmp" && Rel(f) != GzipPath(Rel(g))
    {
      RelEndsLikeName(f);
      RelEndsLikeName(g);
      TextNamesNeverClash(Rel(f), Rel(g));
    }
  }

  lemma BuildNamesEndInText(tenants: seq<Tenant>, base: Base, f: Format, x: OutFile)
    requires Renderable(tenants, f) && x in AllFiles(tenants, base, f)
    ensures HasSuffix(x.name, ".txt")
  {
    var files := AllFiles(tenants, base, f);
    KeysMember(files, (x.tenant, x.name));
    FileOfTenant(tenants, base, f, (x.tenant, x.name));
    var t :| t in tenants && Slug(t) == x.tenant && x.name in TenantNames(t, base);
    NamesEndInText(t, base, x.name);
  }

  /** Any order of writing: the files of a build are acceptable to the snapshot store, with a
      key and a path of their own, exactly when slugs and category names are safe, no two
      tenants share a slug, and no tenant enables a category twice or one called "all" or
      "allowlist". */
  lemma BuildIsAddableIff(tenants: seq<Tenant>, base: Base, f: Format, ordered: seq<OutFile>, labels: seq<string>)
    requires Renderable(tenants, f) && multiset(AllFiles(tenants, base, f)) == multiset(ordered)
    ensures Addable(AsListFiles(ordered, labels)) <==> GoodInputs(tenants, base)
  {
    var files := AllFiles(tenants, base, f);
    var all := AsListFiles(ordered, labels);
    SafeFilesIff(tenants, base, f);
    PermutedKeys(files, ordered);
    BuildKeysNoRepeat(tenants, base, f);
    forall g | g in Firsts(all) ensures HasSuffix(g.name, ".txt") {
      FirstsAreAdded(all);
      var x := OutFileAt(ordered, labels, g);
      assert x in multiset(files);
      BuildNamesEndInText(tenants, base, f, x);
    }
    TextFilesApart(Firsts(all));
    if SafeFiles(ordered) {
      DistinctKeysDistinctSafe(ordered, labels);
      DistinctKeysNoRepeat(files);
    } else {
      UnsafeIsNotAddable(ordered, labels);
    }
  }

  lemma UnsafeIsNotAddable(files: seq<OutFile>, labels: seq<string>)
    requires !SafeFiles(files)
    ensures !DistinctSafe(AsListFiles(files, labels))
  {
    var i :| 0 <= i < |files| && !SafeKey(files[i].tenant, files[i].name);
    assert AsListFiles(files, labels)[i] in AsListFiles(files, labels);
  }

  lemma DefaultFile(tenants: seq<Tenant>, base: Base, f: Format, ordered: seq<OutFile>, labels: seq<string>)
    requires Renderable(tenants, f) && multiset(AllFiles(tenants, base, f)) == multiset(ordered) && SlugTaken(tenants, "")
    ensures exists g :: g in AsListFiles(ordered, labels) && g.tenant == ""
  {
    var files := AllFiles(tenants, base, f);
    SlugOfKey(tenants, base, f, "");
    KeysMember(files, ("", ALL));
    var x :| x in files && (x.tenant, x.name) == ("", ALL);
    assert x in multiset(ordered);
    ListedFile(ordered, labels, x);
  }

  lemma SlugOfFile(tenants: seq<Tenant>, base: Base, f: Format, ordered: seq<OutFile>, labels: seq<string>, g: ListFile)
    requires Renderable(tenants, f) && multiset(AllFiles(tenants, base, f)) == multiset(ordered) && g in AsListFiles(ordered, labels)
    ensures SlugTaken(tenants, g.tenant)
  {
    var files := AllFiles(tenants, base, f);
    var x := OutFileAt(ordered, labels, g);
    assert x in multiset(files);
    KeysMember(files, (x.tenant, x.name));
    SlugOfKey(tenants, base, f, g.tenant);
  }

  lemma DefaultTenantHasLists(tenants: seq<Tenant>, base: Base, f: Format, ordered: seq<OutFile>, d: Draft, labels: seq<string>)
    requires Renderable(tenants, f) && multiset(AllFiles(tenants, base, f)) == multiset(ordered) && Empty(d)
    ensures DraftAfter(d, AsListFiles(ordered, labels)).lists != map[] <==> SlugTaken(tenants, "")
  {
    var all := AsListFiles(ordered, labels);
    ListsComeFromTheDefaultTenant(d, all);
    if SlugTaken(tenants, "") {
      DefaultFile(tenants, base, f, ordered, labels);
    } else if g :| g in all && g.tenant == "" {
      SlugOfFile(tenants, base, f, ordered, labels, g);
    }
  }

  lemma ListedFile(files: seq<OutFile>, labels: seq<string>, x: OutFile)
    requires x in files
    ensures AsListFile(x, labels) in AsListFiles(files, labels)
  {
    var i :| 0 <= i < |files| && files[i] == x;
    assert AsListFiles(files, labels)[i] == AsListFile(x, labels);
  }

  // ----- names without NUL -----

  predicate NoNul(s: string) {
    '\0' !in s
  }

  ghost predicate NulFreeInputs(tenants: seq<Tenant>, base: Base) {
    forall t :: t in tenants ==> NoNul(Slug(t)) && forall c :: c in Enabled(base, t.categories) ==> NoNul(c)
  }

  lemma NulFreeName(t: Tenant, base: Base, n: string)
    requires n in TenantNames(t, base) && NoNul(Slug(t)) && forall c :: c in Enabled(base, t.categories) ==> NoNul(c)
    ensures NoNul(RelPath(Slug(t), n))
  {
    NameOfTenant(t, base, n);
    assert NoNul(n);
    assert forall c :: c in RelPath(Slug(t), n) ==> c in "t/" || c in Slug(t) || c in n;
  }

  /** Slugs and categories without NUL make keys without NUL. */
  lemma NulFreeKeys(tenants: seq<Tenant>, base: Base, f: Format, k: string)
    requires Renderable(tenants, f) && NulFreeInputs(tenants, base) && DistinctKeys(AllFiles(tenants, base, f))
    requires k in KeyMap(AllFiles(tenants, base, f))
    ensures NoNul(k)
  {
    var files := AllFiles(tenants, base, f);
    var x := FileInKeyMap(files, k);
    KeysMember(files, (x.tenant, x.name));
    FileOfTenant(tenants, base, f, (x.tenant, x.name));
    var t :| t in tenants && Slug(t) == x.tenant && x.name in TenantNames(t, base);
    NulFreeName(t, base, x.name);
  }

  // ----- building twice -----

  /** After publishing what a build made of its inputs, the same inputs make a build that is
      skipped, if and only if no key repeats among them: with safe names and a default tenant,
      exactly when the inputs are distinct. A category called "all" is enough to publish anew
      every time. */
  lemma BuildAgainSkippedIff(site: Site, d: Draft, tenants: seq<Tenant>, base: Base, f: Format, ordered: seq<OutFile>, labels: seq<string>, root: Root)
    requires Empty(d) && Ordinary(d.version) && Renderable(tenants, f) && SafeInputs(tenants, base) && SlugTaken(tenants, "")
    requires multiset(AllFiles(tenants, base, f)) == multiset(ordered)
    ensures var after := Run(root, PublishPlan(site, d, AsListFiles(ordered, labels)));
            ReadableManifest(after) && (IsUnchanged(after, AllFiles(tenants, base, f)) <==> DistinctInputs(tenants, base))
  {
    var files := AllFiles(tenants, base, f);
    SafeFilesIff(tenants, base, f);
    BuildKeysNoRepeat(tenants, base, f);
    DistinctKeysNoRepeat(files);
    DefaultTenantHasLists(tenants, base, f, ordered, d, labels);
    RebuildSkippedIff(site, d, files, ordered, labels, root);
  }
}
