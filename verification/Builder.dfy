/** internal/builder: from the blocked rules and the tenants to the files of a set, and from
    the files to a published snapshot. */
module Builders {
  import opened Names
  import opened Rules
  import opened Collapsing
  import opened Matching
  import opened Rendering
  import opened Paths
  import opened Disks
  import opened SnapshotSets
  import opened SnapshotStores
  import opened Dedup
  import opened SnapshotRuns

  /** An enabled tenant with its unexpired overrides. A deny list under the empty key applies
      to every category. */
  datatype Tenant = Tenant(
    slug: string,
    isDefault: bool,
    outputFormat: Format,
    categories: seq<string>,
    allowRules: seq<Rule>,
    deny: map<string, seq<Rule>>
  )

  type Base = map<string, seq<Rule>>

  /** A rendered file waiting to be written. */
  datatype OutFile = OutFile(tenant: string, name: string, body: Body)

  function Key(f: OutFile): string {
    if f.tenant == "" then f.name else "t/" + f.tenant + "/" + f.name
  }

  const ALL := "all.txt"
  const ALLOW := "allowlist.txt"

  function Slug(t: Tenant): string {
    if t.isDefault then "" else t.slug
  }

  function FormatFor(t: Tenant, format: Format): Format {
    if ValidFormat(t.outputFormat) then t.outputFormat else format
  }

  function DenyFor(t: Tenant, category: string): seq<Rule> {
    if category in t.deny then t.deny[category] else []
  }

  ghost predicate Allowed(t: Tenant, name: string) {
    Matches(ExactNames(t.allowRules), WildcardNames(t.allowRules), name)
  }

  ghost function Unallowed(rules: seq<Rule>, t: Tenant): seq<Rule> {
    if rules == [] then []
    else Unallowed(rules[..|rules| - 1], t) + if Allowed(t, rules[|rules| - 1].domain) then [] else [rules[|rules| - 1]]
  }

  /** The shared rules of a category as one tenant gets them. */
  ghost function Effective(rules: seq<Rule>, t: Tenant, category: string): seq<Rule> {
    Unallowed(rules, t) + DenyFor(t, "") + DenyFor(t, category)
  }

  ghost function CategoryRules(t: Tenant, base: Base, category: string): seq<Rule> {
    if category in base then Effective(base[category], t, category) else []
  }

  ghost function Union(t: Tenant, base: Base, categories: seq<string>): seq<Rule> {
    if categories == [] then []
    else Union(t, base, categories[..|categories| - 1]) + CategoryRules(t, base, categories[|categories| - 1])
  }

  ghost function CategoryFiles(t: Tenant, base: Base, f: Format, categories: seq<string>): seq<OutFile>
    requires ValidFormat(f)
  {
    if categories == [] then []
    else
      var n := |categories| - 1;
      var c := categories[n];
      CategoryFiles(t, base, f, categories[..n])
      + if c in base then [OutFile(Slug(t), c + ".txt", Rendered(CategoryRules(t, base, c), f).value)] else []
  }

  ghost function TenantFiles(t: Tenant, base: Base, f: Format): seq<OutFile>
    requires ValidFormat(f)
  {
    CategoryFiles(t, base, f, t.categories)
    + [OutFile(Slug(t), ALL, Rendered(Union(t, base, t.categories), f).value)]
    + [OutFile(Slug(t), ALLOW, Rendered(t.allowRules, f).value)]
  }

  ghost function TotalEntries(t: Tenant, base: Base, f: Format, categories: seq<string>): nat
    requires ValidFormat(f)
  {
    if categories == [] then 0
    else
      var c := categories[|categories| - 1];
      TotalEntries(t, base, f, categories[..|categories| - 1])
      + if c in base then Rendered(CategoryRules(t, base, c), f).value.entries else 0
  }

  // ----- rendering one tenant -----

  method ApplyOverrides(rules: seq<Rule>, t: Tenant, allow: Matcher, category: string) returns (out: seq<Rule>)
    requires allow.Valid() && allow.exact == ExactNames(t.allowRules) && allow.wildcard == WildcardNames(t.allowRules)
    ensures out == Effective(rules, t, category)
  {
    out := [];
    for i := 0 to |rules|
      invariant out == Unallowed(rules[..i], t)
    {
      assert rules[..i + 1][..i] == rules[..i];
      var hit := false;
      if allow.Len() != 0 { hit := allow.Match(rules[i].domain); } else { NoAllowances(t, allow, rules[i].domain); }
      if hit { continue; }
      out := out + [rules[i]];
    }
    assert rules[..|rules|] == rules;
    out := out + DenyFor(t, "");
    out := out + DenyFor(t, category);
  }

  lemma NoAllowances(t: Tenant, allow: Matcher, name: string)
    requires allow.exact == ExactNames(t.allowRules) && allow.wildcard == WildcardNames(t.allowRules) && allow.Len() == 0
    ensures !Allowed(t, name)
  {
    assert allow.exact == {} && allow.wildcard == {};
  }

  method RenderList(rules: seq<Rule>, f: Format) returns (body: Option<Body>)
    ensures body == Rendered(rules, f)
  {
    var a := new Rule[|rules|](i requires 0 <= i < |rules| => rules[i]);
    assert a[..] == rules;
    body := Render(a, f);
  }

  lemma CategoryStep(t: Tenant, base: Base, f: Format, i: nat)
    requires i < |t.categories| && ValidFormat(f)
    ensures var c, cs, next := t.categories[i], t.categories[..i], t.categories[..i + 1];
            var rules := CategoryRules(t, base, c);
            && Union(t, base, next) == Union(t, base, cs) + rules
            && (c in base ==>
                  && CategoryFiles(t, base, f, next) == CategoryFiles(t, base, f, cs) + [OutFile(Slug(t), c + ".txt", Rendered(rules, f).value)]
                  && TotalEntries(t, base, f, next) == TotalEntries(t, base, f, cs) + Rendered(rules, f).value.entries)
            && (c !in base ==>
                  && Union(t, base, next) == Union(t, base, cs) && CategoryFiles(t, base, f, next) == CategoryFiles(t, base, f, cs)
                  && TotalEntries(t, base, f, next) == TotalEntries(t, base, f, cs))
  {
    assert t.categories[..i + 1][..i] == t.categories[..i];
    assert Union(t, base, t.categories[..i]) + [] == Union(t, base, t.categories[..i]);
    assert CategoryFiles(t, base, f, t.categories[..i]) + [] == CategoryFiles(t, base, f, t.categories[..i]);
  }

  /** One category: the tenant's overrides, then the render. */
  method RenderCategory(t: Tenant, rules: seq<Rule>, f: Format, allow: Matcher, c: string) returns (effective: seq<Rule>, body: Body)
    requires ValidFormat(f)
    requires allow.Valid() && allow.exact == ExactNames(t.allowRules) && allow.wildcard == WildcardNames(t.allowRules)
    ensures effective == Effective(rules, t, c) && Some(body) == Rendered(effective, f)
  {
    effective := ApplyOverrides(rules, t, allow, c);
    var rendered := RenderList(effective, f);
    body := rendered.value;
  }

  /** What the loop over categories has gathered after the first i of them. */
  ghost predicate Gathered(t: Tenant, base: Base, f: Format, i: nat, out: seq<OutFile>, union: seq<Rule>, total: nat)
    requires i <= |t.categories| && ValidFormat(f)
  {
    && out == CategoryFiles(t, base, f, t.categories[..i]) && union == Union(t, base, t.categories[..i])
    && total == TotalEntries(t, base, f, t.categories[..i])
  }

  lemma GatherOne(t: Tenant, base: Base, f: Format, i: nat, out: seq<OutFile>, union: seq<Rule>, total: nat, rules: seq<Rule>, body: Body)
    requires i < |t.categories| && ValidFormat(f) && Gathered(t, base, f, i, out, union, total)
    requires t.categories[i] in base && rules == CategoryRules(t, base, t.categories[i]) && Some(body) == Rendered(rules, f)
    ensures Gathered(t, base, f, i + 1, out + [OutFile(Slug(t), t.categories[i] + ".txt", body)], union + rules, total + body.entries)
  {
    CategoryStep(t, base, f, i);
  }

  lemma GatherNone(t: Tenant, base: Base, f: Format, i: nat, out: seq<OutFile>, union: seq<Rule>, total: nat)
    requires i < |t.categories| && ValidFormat(f) && Gathered(t, base, f, i, out, union, total)
    requires t.categories[i] !in base
    ensures Gathered(t, base, f, i + 1, out, union, total)
  {
    CategoryStep(t, base, f, i);
  }

  /** The loop over a tenant's categories; unknown ones are passed over. */
  method RenderCategories(t: Tenant, base: Base, f: Format, allow: Matcher) returns (out: seq<OutFile>, union: seq<Rule>, total: nat)
    requires ValidFormat(f)
    requires allow.Valid() && allow.exact == ExactNames(t.allowRules) && allow.wildcard == WildcardNames(t.allowRules)
    ensures Gathered(t, base, f, |t.categories|, out, union, total)
  {
    out, union, total := [], [], 0;
    for i := 0 to |t.categories|
      invariant Gathered(t, base, f, i, out, union, total)
    {
      var c := t.categories[i];
      if c !in base {
        GatherNone(t, base, f, i, out, union, total);
        continue;
      }
      var effective, body := RenderCategory(t, base[c], f, allow, c);
      GatherOne(t, base, f, i, out, union, total, effective, body);
      out := out + [OutFile(Slug(t), c + ".txt", body)];
      union := union + effective;
      total := total + body.entries;
    }
  }

  /** None is the error of an output format that Render does not support: the first render
      reports it, and nothing of the tenant is kept. */
  method BuildTenant(t: Tenant, base: Base, format: Format) returns (files: Option<seq<OutFile>>, total: nat)
    ensures files.Some? <==> ValidFormat(FormatFor(t, format))
    ensures files.Some? ==> files.value == TenantFiles(t, base, FormatFor(t, format))
    ensures files.Some? ==> total == TotalEntries(t, base, FormatFor(t, format), t.categories)
  {
    var slug, f := t.slug, format;
    if t.isDefault { slug := ""; }
    if ValidFormat(t.outputFormat) { f := t.outputFormat; }
    if !ValidFormat(f) { return None, 0; }
    var allow := Load(t.allowRules);
    var out, union, n := RenderCategories(t, base, f, allow);
    total := n;
    assert t.categories[..|t.categories|] == t.categories;
    var allBody := RenderList(union, f);
    out := out + [OutFile(slug, ALL, allBody.value)];
    var allowBody := RenderList(t.allowRules, f);
    out := out + [OutFile(slug, ALLOW, allowBody.value)];
    return Some(out), total;
  }

  // ----- is anything new -----

  function ListKeys(tenant: string, lists: Lists): set<(string, string)> {
    set n | n in lists :: (tenant, n)
  }

  function AllKeys(m: Manifest): set<(string, string)> {
    ListKeys("", m.lists) + set s, n | s in m.tenants && n in m.tenants[s] :: (s, n)
  }

  lemma KeysHaveEntries(m: Manifest, k: (string, string))
    requires SafeManifest(m)
    ensures k in AllKeys(m) <==> FindEntry(m, k.0, k.1).Some?
  {
  }

  function PathOf(k: (string, string)): string {
    RelPath(k.0, k.1)
  }

  function ETagIn(m: Manifest): ((string, string)) -> Digest {
    (k: (string, string)) => match FindEntry(m, k.0, k.1) case Some(e) => e.etag case None => Sha256("")
  }

  /** A table from the path of each key to the value of the key. */
  ghost function Tabulate<K(!new), V>(keys: set<K>, path: K -> string, value: K -> V): map<string, V>
    requires PathsApart(keys, path)
  {
    map k | k in keys :: path(k) := value(k)
  }

  ghost predicate PathsApart<K(!new)>(keys: set<K>, path: K -> string) {
    forall j, k :: j in keys && k in keys && path(j) == path(k) ==> j == k
  }

  lemma TabulateAt<K(!new), V>(keys: set<K>, x: K, path: K -> string, value: K -> V)
    requires PathsApart(keys, path) && x in keys
    ensures Lookup(Tabulate(keys, path, value), path(x)) == Some(value(x))
  {
  }

  lemma PathsDiffer(m: Manifest)
    requires SafeManifest(m)
    ensures PathsApart(AllKeys(m), PathOf)
  {
    forall j, k | j in AllKeys(m) && k in AllKeys(m) && PathOf(j) == PathOf(k) ensures j == k {
      KeysHaveEntries(m, j);
      KeysHaveEntries(m, k);
      RelPathInjective(j.0, j.1, k.0, k.1);
    }
  }

  /** The ETag of every entry, under the key the files have. */
  ghost function PublishedETags(m: Manifest): map<string, Digest>
    requires SafeManifest(m)
  {
    PathsDiffer(m);
    Tabulate(AllKeys(m), PathOf, ETagIn(m))
  }

  // The loops over the manifest. A manifest edited by hand may hold two entries with one path;
  // which of them the table then shows depends on the order of the loops.

  /** A place in the manifest: a default list, or a list of a tenant. */
  datatype Slot = Flat(name: string) | Under(slug: string, name: string)

  function SlotPath(s: Slot): string {
    match s
    case Flat(n) => n
    case Under(slug, n) => "t/" + slug + "/" + n
  }

  function SlotETag(m: Manifest, s: Slot): Option<Digest> {
    match s
    case Flat(n) => if n in m.lists then Some(m.lists[n].etag) else None
    case Under(slug, n) => if slug in m.tenants && n in m.tenants[slug] then Some(m.tenants[slug][n].etag) else None
  }

  function FlatSlots(names: set<string>): set<Slot> {
    set n | n in names :: Flat(n)
  }

  function SlotsUnder(slug: string, names: set<string>): set<Slot> {
    set n | n in names :: Under(slug, n)
  }

  function Slots(m: Manifest): set<Slot> {
    FlatSlots(m.lists.Keys) + set s, n | s in m.tenants && n in m.tenants[s] :: Under(s, n)
  }

  ghost predicate Shows(m: Manifest, done: set<Slot>, p: string, d: Digest) {
    exists s :: s in done && SlotPath(s) == p && SlotETag(m, s) == Some(d)
  }

  /** A table of some places: the path of each is there, with the ETag of one that has it. */
  ghost predicate TableFor(m: Manifest, done: set<Slot>, table: map<string, Digest>) {
    && (forall p :: p in table ==> Shows(m, done, p, table[p]))
    && (forall s :: s in done ==> SlotPath(s) in table)
  }

  ghost predicate PossibleTable(m: Manifest, table: map<string, Digest>) {
    TableFor(m, Slots(m), table)
  }

  lemma OneMoreSlot(m: Manifest, done: set<Slot>, x: Slot, table: map<string, Digest>)
    requires TableFor(m, done, table) && SlotETag(m, x).Some?
    ensures TableFor(m, done + {x}, table[SlotPath(x) := SlotETag(m, x).value])
  {
    var out := table[SlotPath(x) := SlotETag(m, x).value];
    forall p | p in out ensures Shows(m, done + {x}, p, out[p]) {
      if p == SlotPath(x) {
        assert x in done + {x};
      } else {
        assert Shows(m, done, p, table[p]);
        var s :| s in done && SlotPath(s) == p && SlotETag(m, s) == Some(table[p]);
        assert s in done + {x};
      }
    }
  }

  lemma OneLessFlat(names: set<string>, todo: set<string>, n: string)
    requires n in todo && todo <= names
    ensures FlatSlots(names - todo) + {Flat(n)} == FlatSlots(names - (todo - {n}))
  {
  }

  lemma OneLessUnder(done: set<Slot>, slug: string, names: set<string>, todo: set<string>, n: string)
    requires n in todo && todo <= names
    ensures done + SlotsUnder(slug, names - todo) + {Under(slug, n)} == done + SlotsUnder(slug, names - (todo - {n}))
  {
  }

  method CollectLists(m: Manifest) returns (current: map<string, Digest>)
    ensures TableFor(m, FlatSlots(m.lists.Keys), current)
  {
    current := map[];
    var todo := m.lists.Keys;
    while todo != {}
      invariant todo <= m.lists.Keys
      invariant TableFor(m, FlatSlots(m.lists.Keys - todo), current)
      decreases |todo|
    {
      var n :| n in todo;
      OneMoreSlot(m, FlatSlots(m.lists.Keys - todo), Flat(n), current);
      OneLessFlat(m.lists.Keys, todo, n);
      current := current[n := m.lists[n].etag];
      todo := todo - {n};
    }
    assert m.lists.Keys - {} == m.lists.Keys;
  }

  /** The loop over the lists of one tenant. */
  method CollectTenant(m: Manifest, slug: string, current: map<string, Digest>, ghost done: set<Slot>)
    returns (out: map<string, Digest>)
    requires slug in m.tenants && TableFor(m, done, current)
    ensures TableFor(m, done + SlotsUnder(slug, m.tenants[slug].Keys), out)
  {
    out := current;
    var lists := m.tenants[slug];
    var todo := lists.Keys;
    assert done + SlotsUnder(slug, {}) == done && lists.Keys - todo == {};
    while todo != {}
      invariant todo <= lists.Keys
      invariant TableFor(m, done + SlotsUnder(slug, lists.Keys - todo), out)
      decreases |todo|
    {
      var n :| n in todo;
      OneMoreSlot(m, done + SlotsUnder(slug, lists.Keys - todo), Under(slug, n), out);
      OneLessUnder(done, slug, lists.Keys, todo, n);
      out := out["t/" + slug + "/" + n := lists[n].etag];
      todo := todo - {n};
    }
    assert lists.Keys - {} == lists.Keys;
  }

  function SlotsOfTenants(m: Manifest, slugs: set<string>): set<Slot> {
    FlatSlots(m.lists.Keys) + set s, n | s in m.tenants && s in slugs && n in m.tenants[s] :: Under(s, n)
  }

  lemma OneLessTenant(m: Manifest, todo: set<string>, slug: string)
    requires slug in todo && todo <= m.tenants.Keys
    ensures SlotsOfTenants(m, m.tenants.Keys - todo) + SlotsUnder(slug, m.tenants[slug].Keys) == SlotsOfTenants(m, m.tenants.Keys - (todo - {slug}))
  {
  }

  method CollectAll(m: Manifest) returns (current: map<string, Digest>)
    ensures PossibleTable(m, current)
  {
    current := CollectLists(m);
    var todo := m.tenants.Keys;
    assert SlotsOfTenants(m, m.tenants.Keys - todo) == FlatSlots(m.lists.Keys);
    while todo != {}
      invariant todo <= m.tenants.Keys
      invariant TableFor(m, SlotsOfTenants(m, m.tenants.Keys - todo), current)
      decreases |todo|
    {
      var slug :| slug in todo;
      ghost var done := SlotsOfTenants(m, m.tenants.Keys - todo);
      current := CollectTenant(m, slug, current, done);
      OneLessTenant(m, todo, slug);
      todo := todo - {slug};
    }
    assert SlotsOfTenants(m, m.tenants.Keys - {}) == Slots(m);
  }

  function SlotOf(k: (string, string)): Slot {
    if k.0 == "" then Flat(k.1) else Under(k.0, k.1)
  }

  lemma SlotOfKey(m: Manifest, s: Slot) returns (k: (string, string))
    requires SafeManifest(m) && s in Slots(m)
    ensures SlotOf(k) == s && PathOf(k) == SlotPath(s) && k in AllKeys(m) && SlotETag(m, s) == Some(ETagIn(m)(k))
  {
    k := if s.Flat? then ("", s.name) else (s.slug, s.name);
    KeysHaveEntries(m, k);
  }

  lemma KeyOfSlot(m: Manifest, k: (string, string))
    requires SafeManifest(m) && k in AllKeys(m)
    ensures SlotPath(SlotOf(k)) == PathOf(k) && SlotETag(m, SlotOf(k)) == Some(ETagIn(m)(k))
  {
    KeysHaveEntries(m, k);
  }

  lemma SlotShown(m: Manifest, s: Slot)
    requires SafeManifest(m) && s in Slots(m)
    ensures SlotETag(m, s).Some? && Lookup(PublishedETags(m), SlotPath(s)) == SlotETag(m, s)
  {
    var k := SlotOfKey(m, s);
    PathsDiffer(m);
    TabulateAt(AllKeys(m), k, PathOf, ETagIn(m));
  }

  lemma ShownBySlot(m: Manifest, p: string)
    requires SafeManifest(m) && p in PublishedETags(m)
    ensures Shows(m, Slots(m), p, PublishedETags(m)[p])
  {
    var k :| k in AllKeys(m) && PathOf(k) == p;
    PathsDiffer(m);
    TabulateAt(AllKeys(m), k, PathOf, ETagIn(m));
    KeyOfSlot(m, k);
    assert SlotOf(k) in Slots(m);
  }

  /** With safe keys there is one table only. */
  lemma OneTableWhenSafe(m: Manifest, table: map<string, Digest>)
    requires SafeManifest(m)
    ensures PossibleTable(m, table) <==> table == PublishedETags(m)
  {
    var all := PublishedETags(m);
    forall s | s in Slots(m) ensures Lookup(all, SlotPath(s)) == SlotETag(m, s) && SlotPath(s) in all { SlotShown(m, s); }
    forall p | p in all ensures Shows(m, Slots(m), p, all[p]) { ShownBySlot(m, p); }
    if PossibleTable(m, table) {
      forall p | p in table || p in all ensures Lookup(table, p) == Lookup(all, p) { OneValue(m, table, all, p); }
      SameLookups(table, all);
    }
  }

  lemma OneValue(m: Manifest, a: map<string, Digest>, b: map<string, Digest>, p: string)
    requires PossibleTable(m, a) && PossibleTable(m, b) && (p in a || p in b)
    requires forall s :: s in Slots(m) ==> Lookup(b, SlotPath(s)) == SlotETag(m, s)
    ensures Lookup(a, p) == Lookup(b, p)
  {
    if p in b {
      assert Shows(m, Slots(m), p, b[p]);
      var s :| s in Slots(m) && SlotPath(s) == p && SlotETag(m, s) == Some(b[p]);
      assert p in a;
    }
    assert Shows(m, Slots(m), p, a[p]);
  }

  /** Whether the files carry the checksums the manifest has, key by key. */
  ghost predicate SameAsPublished(m: Manifest, files: seq<OutFile>)
    requires SafeManifest(m)
  {
    Agrees(PublishedETags(m), files)
  }

  ghost predicate ReadableManifest(root: Root) {
    CurrentOf(root).Some? && ManifestAt(root, CurrentOf(root).value).Some? ==> SafeManifest(ManifestAt(root, CurrentOf(root).value).value)
  }

  ghost predicate IsUnchanged(root: Root, files: seq<OutFile>)
    requires ReadableManifest(root)
  {
    CurrentOf(root).Some? && ManifestAt(root, CurrentOf(root).value).Some?
    && SameAsPublished(ManifestAt(root, CurrentOf(root).value).value, files)
  }

  /** The comparison of the table with the files, by count and key by key. */
  ghost predicate Agrees(table: map<string, Digest>, files: seq<OutFile>) {
    |table| == |files| && forall f :: f in files ==> Lookup(table, Key(f)) == Some(f.body.checksum)
  }

  /** What the comparison may answer: no without a readable manifest, else by a table of it. */
  ghost predicate MayAnswer(base: seq<string>, root: Root, files: seq<OutFile>, same: bool) {
    var found := match CurrentOf(root) case None => None case Some(v) => ManifestAt(root, DirOf(base, v));
    match found
    case None => !same
    case Some(m) => exists table :: PossibleTable(m, table) && (same <==> Agrees(table, files))
  }

  /** Where every key is safe and the version is named as it is listed, the answer is fixed. */
  lemma AnswerIsExact(base: seq<string>, root: Root, files: seq<OutFile>, same: bool)
    requires ReadableManifest(root) && (CurrentOf(root).Some? ==> PlainName(CurrentOf(root).value))
    ensures MayAnswer(base, root, files, same) <==> (same <==> IsUnchanged(root, files))
  {
    if CurrentOf(root).Some? { PlainDir(base, CurrentOf(root).value); }
    if CurrentOf(root).Some? && ManifestAt(root, CurrentOf(root).value).Some? {
      var m := ManifestAt(root, CurrentOf(root).value).value;
      forall table ensures PossibleTable(m, table) <==> table == PublishedETags(m) { OneTableWhenSafe(m, table); }
    }
  }

  method Unchanged(store: Store, files: seq<OutFile>) returns (same: bool)
    ensures MayAnswer(store.site.base, store.disk.root, files, same)
  {
    var v := CurrentOf(store.disk.root);
    if v.None? { return false; }
    var found := ManifestAt(store.disk.root, DirOf(store.site.base, v.value));
    if found.None? { return false; }
    var current := CollectAll(found.value);
    same := Agree(current, files);
  }

  /** The comparison of the two sides, by count and key by key. */
  method Agree(current: map<string, Digest>, files: seq<OutFile>) returns (same: bool)
    ensures same <==> Agrees(current, files)
  {
    if |current| != |files| { return false; }
    for i := 0 to |files|
      invariant forall k :: 0 <= k < i ==> Lookup(current, Key(files[k])) == Some(files[k].body.checksum)
    {
      if Lookup(current, Key(files[i])) != Some(files[i].body.checksum) { return false; }
    }
    return true;
  }

  // ----- publishing -----

  function AsListFile(f: OutFile, labels: seq<string>): ListFile {
    ListFile(f.tenant, f.name, Header("", "", "", "", labels), f.body)
  }

  function AsListFiles(files: seq<OutFile>, labels: seq<string>): seq<ListFile> {
    seq(|files|, i requires 0 <= i < |files| => AsListFile(files[i], labels))
  }

  /** The calls issued are the first ones of the plan, maybe all of them. */
  ghost predicate PartOf(before: seq<Call>, after: seq<Call>, plan: seq<Call>) {
    exists n: nat :: Reached(before, after, plan, n)
  }

  lemma PartOfMore(before: seq<Call>, after: seq<Call>, plan: seq<Call>, rest: seq<Call>)
    requires PartOf(before, after, plan)
    ensures PartOf(before, after, plan + rest)
  {
    var n: nat :| Reached(before, after, plan, n);
    assert (plan + rest)[..n] == plan[..n];
    assert Reached(before, after, plan + rest, n);
  }

  lemma PartAfterAll(before: seq<Call>, mid: seq<Call>, after: seq<Call>, plan: seq<Call>, rest: seq<Call>, ok: bool)
    requires mid == before + plan && Progressed(mid, after, rest, ok)
    ensures PartOf(before, after, plan + rest) && (ok ==> after == before + (plan + rest))
  {
    Finished(before, mid, plan);
    ThenMore(before, mid, after, plan, rest, ok);
    var n: nat :| Reached(before, after, plan + rest, n) && (ok <==> n == |plan + rest|);
    if ok { Finished(before, after, plan + rest); }
  }

  lemma NoneOf(before: seq<Call>, plan: seq<Call>)
    ensures PartOf(before, before, plan)
  {
    assert before + plan[..0] == before;
    assert Reached(before, before, plan, 0);
  }
}
