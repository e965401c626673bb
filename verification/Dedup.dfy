/** Content that repeats is stored once: whatever the order of Add and AddTenant calls, every
    entry of the finished manifest leads to a file that was written, with the right content. */
module Dedup {
  import opened Names
  import opened Rules
  import opened Rendering
  import opened Disks
  import opened SnapshotSets
  import opened SnapshotStores

  datatype ListFile = ListFile(tenant: string, name: string, header: Header, body: Body)

  function Rel(f: ListFile): string {
    RelPath(f.tenant, f.name)
  }

  function DraftAfter(d: Draft, files: seq<ListFile>): Draft {
    if files == [] then d
    else
      var f := files[|files| - 1];
      Added(DraftAfter(d, files[..|files| - 1]), f.tenant, f.name, f.body)
  }

  /** The calls of Add and AddTenant for each file in turn. */
  function AddsPlan(site: Site, d: Draft, files: seq<ListFile>): seq<Call> {
    if files == [] then []
    else
      var n := |files| - 1;
      AddsPlan(site, d, files[..n]) + WritePlan(site, DraftAfter(d, files[..n]), Rel(files[n]), files[n].header, files[n].body)
  }

  predicate SafeKey(tenant: string, name: string) {
    (tenant == "" || SafeSegment(tenant)) && SafeSegment(name)
  }

  /** Keys that Add and AddTenant accept, no two of them the same. */
  ghost predicate DistinctSafe(files: seq<ListFile>) {
    && (forall f :: f in files ==> SafeKey(f.tenant, f.name))
    && (forall i, j :: 0 <= i < j < |files| ==> files[i].tenant != files[j].tenant || files[i].name != files[j].name)
  }

  ghost predicate HasChecksum(files: seq<ListFile>, c: Digest) {
    exists f :: f in files && f.body.checksum == c
  }

  /** The files that are really written: the first one of each checksum. */
  ghost function Firsts(files: seq<ListFile>): seq<ListFile> {
    if files == [] then []
    else
      var front, f := files[..|files| - 1], files[|files| - 1];
      Firsts(front) + if HasChecksum(front, f.body.checksum) then [] else [f]
  }

  /** No written file takes the path of another one's compressed copy or of the manifest. */
  ghost predicate Apart(written: seq<ListFile>) {
    forall f, g :: f in written && g in written ==>
      Rel(f) != MANIFEST && Rel(f) != MANIFEST + ".tmp" && Rel(f) != GzipPath(Rel(g))
  }

  ghost predicate Addable(files: seq<ListFile>) {
    DistinctSafe(files) && Apart(Firsts(files))
  }

  lemma FirstsGrow(files: seq<ListFile>, f: ListFile)
    ensures Firsts(files + [f]) == Firsts(files) + if HasChecksum(files, f.body.checksum) then [] else [f]
  {
    assert (files + [f])[..|files|] == files;
  }

  lemma {:induction false} FirstsAreAdded(files: seq<ListFile>)
    ensures forall f :: f in Firsts(files) ==> f in files
  {
    if files != [] {
      FirstsAreAdded(files[..|files| - 1]);
      assert files[|files| - 1] in files;
    }
  }

  // ----- paths -----

  lemma SlashPosition(a: string, x: string, b: string, y: string)
    requires '/' !in a && '/' !in b && a + "/" + x == b + "/" + y
    ensures a == b && x == y
  {
    var s := a + "/" + x;
    assert s[|a|] == '/' && s[|b|] == '/';
    assert forall i :: 0 <= i < |a| ==> s[i] == a[i] && a[i] in a;
    assert forall i :: 0 <= i < |b| ==> s[i] == b[i] && b[i] in b;
    assert s[..|a|] == a && s[..|b|] == b;
    assert s[|a| + 1..] == x && s[|b| + 1..] == y;
  }

  lemma TenantPath(t: string, n: string)
    requires t != ""
    ensures RelPath(t, n) == "t" + "/" + (t + "/" + n)
    ensures '/' in RelPath(t, n)
  {
    assert RelPath(t, n)[1] == '/';
  }

  /** Two keys with one path are the same key. */
  lemma RelPathInjective(t1: string, n1: string, t2: string, n2: string)
    requires SafeKey(t1, n1) && SafeKey(t2, n2) && RelPath(t1, n1) == RelPath(t2, n2)
    ensures t1 == t2 && n1 == n2
  {
    if t1 != "" { TenantPath(t1, n1); }
    if t2 != "" { TenantPath(t2, n2); }
    if t1 != "" && t2 != "" {
      SlashPosition("t", t1 + "/" + n1, "t", t2 + "/" + n2);
      SlashPosition(t1, n1, t2, n2);
    }
  }

  lemma GzipPathInjective(a: string, b: string)
    requires GzipPath(a) == GzipPath(b)
    ensures a == b
  {
    assert GzipPath(a)[..|a|] == a && GzipPath(b)[..|b|] == b;
  }

  lemma TextNamesNeverClash(n: string, m: string)
    requires HasSuffix(n, ".txt") && HasSuffix(m, ".txt")
    ensures n != GzipPath(m) && n != MANIFEST && n != MANIFEST + ".tmp"
  {
    assert n[|n| - 1] == n[|n| - 4..][3] == 't';
    assert GzipPath(m)[|GzipPath(m)| - 1] == 'z';
    assert n[|n| - 3] == n[|n| - 4..][1] == 't';
    assert (MANIFEST + ".tmp")[|MANIFEST + ".tmp"| - 1] == 'p';
  }

  // ----- the invariant of a set under construction -----

  /** The path holds a complete file with this checksum, and its compressed copy beside it. */
  ghost predicate Resolves(files: map<string, Content>, rel: string, etag: Digest) {
    && rel in files && files[rel].Stored? && files[rel].body.checksum == etag
    && GzipPath(rel) in files && files[GzipPath(rel)] == Gzipped(files[rel].header, files[rel].body)
  }

  ghost predicate Written(rel: string, added: seq<ListFile>) {
    exists f :: f in Firsts(added) && Rel(f) == rel
  }

  /** Every remembered checksum leads to a written file. */
  ghost predicate StoredOnce(d: Draft, added: seq<ListFile>, files: map<string, Content>) {
    forall c :: c in d.byChecksum ==> Resolves(files, d.byChecksum[c], c) && Written(d.byChecksum[c], added)
  }

  ghost predicate RemembersAll(d: Draft, added: seq<ListFile>) {
    forall c :: c in d.byChecksum <==> HasChecksum(added, c)
  }

  /** Every entry leads to the file remembered for its checksum. */
  ghost predicate EntriesFollow(d: Draft) {
    forall t, n :: FindEntry(ManifestOf(d), t, n).Some? ==>
      var e := FindEntry(ManifestOf(d), t, n).value;
      e.etag in d.byChecksum && Target(t, n, e) == d.byChecksum[e.etag]
  }

  predicate Recorded(d: Draft, f: ListFile) {
    var e := FindEntry(ManifestOf(d), f.tenant, f.name);
    e.Some? && e.value.etag == f.body.checksum && e.value.entries == f.body.entries
  }

  ghost predicate AllRecorded(d: Draft, added: seq<ListFile>) {
    forall f :: f in added ==> Recorded(d, f)
  }

  ghost predicate NothingElse(d: Draft, added: seq<ListFile>) {
    forall t, n :: FindEntry(ManifestOf(d), t, n).Some? ==> exists f :: f in added && f.tenant == t && f.name == n
  }

  /** Some key leads to this path with this ETag. */
  predicate LeadsTo(m: Manifest, t: string, n: string, rel: string, etag: Digest) {
    var e := FindEntry(m, t, n);
    e.Some? && Target(t, n, e.value) == rel && e.value.etag == etag
  }

  /** Every stored file is the target of some key, which carries the file's checksum. */
  ghost predicate NoStrays(m: Manifest, files: map<string, Content>) {
    forall rel :: rel in files && files[rel].Stored? ==> exists t, n :: LeadsTo(m, t, n, rel, files[rel].body.checksum)
  }

  ghost predicate Keys(d: Draft, added: seq<ListFile>) {
    EntriesFollow(d) && AllRecorded(d, added) && NothingElse(d, added) && RemembersAll(d, added)
  }

  ghost predicate Building(d: Draft, added: seq<ListFile>, files: map<string, Content>) {
    StoredOnce(d, added, files) && Keys(d, added) && NoStrays(ManifestOf(d), files)
  }

  /** The directory after the calls of one Add. */
  function FilesAfter(site: Site, d: Draft, f: ListFile, files: map<string, Content>): map<string, Content> {
    if f.body.checksum in d.byChecksum then files
    else
      var hdr := Stamped(site, d, f.header, f.body);
      files[Rel(f) := Stored(hdr, f.body)][GzipPath(Rel(f)) := Gzipped(hdr, f.body)]
  }

  lemma EntryAfter(d: Draft, f: ListFile, t: string, n: string)
    ensures FindEntry(ManifestOf(Added(d, f.tenant, f.name, f.body)), t, n) ==
            if t == f.tenant && n == f.name then Some(EntryFor(d, f.body)) else FindEntry(ManifestOf(d), t, n)
  {
  }

  lemma GzipPathLonger(a: string)
    ensures GzipPath(a) != a
  {
  }

  lemma ResolvesKept(site: Site, d: Draft, f: ListFile, files: map<string, Content>, rel: string, etag: Digest)
    requires Resolves(files, rel, etag)
    requires rel != Rel(f) && rel != GzipPath(Rel(f)) && GzipPath(rel) != Rel(f)
    ensures Resolves(FilesAfter(site, d, f, files), rel, etag)
  {
    if GzipPath(rel) == GzipPath(Rel(f)) { GzipPathInjective(rel, Rel(f)); }
  }

  lemma ResolvesNew(site: Site, d: Draft, f: ListFile, files: map<string, Content>)
    requires f.body.checksum !in d.byChecksum
    ensures Resolves(FilesAfter(site, d, f, files), Rel(f), f.body.checksum)
  {
    GzipPathLonger(Rel(f));
  }

  /** The only checksum an addition may add to those remembered is its own. */
  lemma AddedRemembers(d: Draft, f: ListFile)
    ensures Added(d, f.tenant, f.name, f.body).byChecksum ==
            if f.body.checksum in d.byChecksum then d.byChecksum else d.byChecksum[f.body.checksum := Rel(f)]
  {
  }

  lemma HasChecksumGrow(added: seq<ListFile>, f: ListFile, c: Digest)
    ensures HasChecksum(added + [f], c) <==> HasChecksum(added, c) || f.body.checksum == c
  {
    assert forall g :: g in added + [f] <==> g in added || g == f;
  }

  lemma RemembersStep(d: Draft, added: seq<ListFile>, f: ListFile)
    requires RemembersAll(d, added)
    ensures RemembersAll(Added(d, f.tenant, f.name, f.body), added + [f])
    ensures Firsts(added + [f]) == Firsts(added) + if f.body.checksum in d.byChecksum then [] else [f]
  {
    FirstsGrow(added, f);
    AddedRemembers(d, f);
    forall c ensures c in Added(d, f.tenant, f.name, f.body).byChecksum <==> HasChecksum(added + [f], c) {
      HasChecksumGrow(added, f, c);
    }
  }

  /** A checksum remembered before the addition still leads to its file. */
  lemma OldStoredOnce(site: Site, d: Draft, added: seq<ListFile>, files: map<string, Content>, f: ListFile, c: Digest)
    requires StoredOnce(d, added, files) && Addable(added + [f]) && c in d.byChecksum
    requires Firsts(added + [f]) == Firsts(added) + if f.body.checksum in d.byChecksum then [] else [f]
    ensures Resolves(FilesAfter(site, d, f, files), d.byChecksum[c], c) && Written(d.byChecksum[c], added + [f])
  {
    var g :| g in Firsts(added) && Rel(g) == d.byChecksum[c];
    assert g in Firsts(added + [f]);
    if f.body.checksum !in d.byChecksum {
      OldFileApart(added, f, g);
      ResolvesKept(site, d, f, files, Rel(g), c);
    }
  }

  lemma NewStoredOnce(site: Site, d: Draft, added: seq<ListFile>, files: map<string, Content>, f: ListFile)
    requires f.body.checksum !in d.byChecksum && Firsts(added + [f]) == Firsts(added) + [f]
    ensures Resolves(FilesAfter(site, d, f, files), Rel(f), f.body.checksum) && Written(Rel(f), added + [f])
  {
    assert f in Firsts(added + [f]);
    ResolvesNew(site, d, f, files);
  }

  lemma StoredOnceStep(site: Site, d: Draft, added: seq<ListFile>, files: map<string, Content>, f: ListFile)
    requires StoredOnce(d, added, files) && RemembersAll(d, added) && Addable(added + [f])
    ensures StoredOnce(Added(d, f.tenant, f.name, f.body), added + [f], FilesAfter(site, d, f, files))
  {
    var remembered := Added(d, f.tenant, f.name, f.body).byChecksum;
    RemembersStep(d, added, f);
    AddedRemembers(d, f);
    forall c | c in remembered
      ensures Resolves(FilesAfter(site, d, f, files), remembered[c], c) && Written(remembered[c], added + [f])
    {
      if c in d.byChecksum {
        OldStoredOnce(site, d, added, files, f, c);
      } else {
        NewStoredOnce(site, d, added, files, f);
      }
    }
  }

  /** A file about to be written stays clear of every file written before. */
  lemma OldFileApart(added: seq<ListFile>, f: ListFile, g: ListFile)
    requires Addable(added + [f]) && g in Firsts(added) && Firsts(added + [f]) == Firsts(added) + [f]
    ensures Rel(g) != Rel(f) && Rel(g) != GzipPath(Rel(f)) && GzipPath(Rel(g)) != Rel(f)
  {
    assert f in Firsts(added + [f]) && g in Firsts(added + [f]);
    FirstsAreAdded(added);
    DistinctFront(added, f);
    if Rel(g) == Rel(f) {
      assert g in added + [f] && f in added + [f];
      RelPathInjective(g.tenant, g.name, f.tenant, f.name);
    }
  }

  lemma EntriesFollowStep(d: Draft, f: ListFile)
    requires EntriesFollow(d) && SafeKey(f.tenant, f.name) && RealPaths(d)
    ensures EntriesFollow(Added(d, f.tenant, f.name, f.body))
  {
    var d2 := Added(d, f.tenant, f.name, f.body);
    forall t, n | FindEntry(ManifestOf(d2), t, n).Some?
      ensures var e := FindEntry(ManifestOf(d2), t, n).value; e.etag in d2.byChecksum && Target(t, n, e) == d2.byChecksum[e.etag]
    {
      EntryAfter(d, f, t, n);
    }
  }

  lemma RecordedStep(d: Draft, added: seq<ListFile>, f: ListFile)
    requires AllRecorded(d, added) && NothingElse(d, added)
    requires forall g :: g in added ==> g.tenant != f.tenant || g.name != f.name
    ensures AllRecorded(Added(d, f.tenant, f.name, f.body), added + [f])
    ensures NothingElse(Added(d, f.tenant, f.name, f.body), added + [f])
  {
    var d2, all := Added(d, f.tenant, f.name, f.body), added + [f];
    forall g | g in all ensures Recorded(d2, g) {
      EntryAfter(d, f, g.tenant, g.name);
      if g !in added { assert g == f; }
    }
    forall t, n | FindEntry(ManifestOf(d2), t, n).Some? ensures exists g :: g in all && g.tenant == t && g.name == n {
      EntryAfter(d, f, t, n);
      if t == f.tenant && n == f.name {
        assert f in all;
      } else {
        var g :| g in added && g.tenant == t && g.name == n;
        assert g in all;
      }
    }
  }

  lemma DistinctFront(added: seq<ListFile>, f: ListFile)
    requires DistinctSafe(added + [f])
    ensures DistinctSafe(added) && SafeKey(f.tenant, f.name)
    ensures forall g :: g in added ==> g.tenant != f.tenant || g.name != f.name
  {
    var all := added + [f];
    assert all[|added|] == f && f in all;
    assert forall g :: g in added ==> g in all;
    forall i, j | 0 <= i < j < |added| ensures added[i].tenant != added[j].tenant || added[i].name != added[j].name {
      assert all[i] == added[i] && all[j] == added[j];
    }
    forall g | g in added ensures g.tenant != f.tenant || g.name != f.name {
      var i :| 0 <= i < |added| && added[i] == g;
      assert all[i] == g;
    }
  }

  lemma AddableFront(added: seq<ListFile>, f: ListFile)
    requires Addable(added + [f])
    ensures Addable(added) && SafeKey(f.tenant, f.name)
    ensures forall g :: g in added ==> g.tenant != f.tenant || g.name != f.name
  {
    DistinctFront(added, f);
    FirstsGrow(added, f);
    assert forall g :: g in Firsts(added) ==> g in Firsts(added + [f]);
  }

  /** The keys are booked right whatever the paths are. */
  lemma KeysStep(d: Draft, added: seq<ListFile>, f: ListFile)
    requires Keys(d, added) && DistinctSafe(added + [f]) && RealPaths(d)
    ensures Keys(Added(d, f.tenant, f.name, f.body), added + [f])
  {
    DistinctFront(added, f);
    RemembersStep(d, added, f);
    EntriesFollowStep(d, f);
    RecordedStep(d, added, f);
  }

  lemma StraysStep(site: Site, d: Draft, added: seq<ListFile>, files: map<string, Content>, f: ListFile)
    requires NoStrays(ManifestOf(d), files) && NothingElse(d, added) && SafeKey(f.tenant, f.name)
    requires forall g :: g in added ==> g.tenant != f.tenant || g.name != f.name
    ensures NoStrays(ManifestOf(Added(d, f.tenant, f.name, f.body)), FilesAfter(site, d, f, files))
  {
    var m, m2, after := ManifestOf(d), ManifestOf(Added(d, f.tenant, f.name, f.body)), FilesAfter(site, d, f, files);
    forall rel | rel in after && after[rel].Stored? ensures exists t, n :: LeadsTo(m2, t, n, rel, after[rel].body.checksum) {
      if f.body.checksum !in d.byChecksum && rel == Rel(f) {
        GzipPathLonger(rel);
        EntryAfter(d, f, f.tenant, f.name);
        assert LeadsTo(m2, f.tenant, f.name, rel, f.body.checksum);
      } else {
        assert rel in files && after[rel] == files[rel];
        var t, n :| LeadsTo(m, t, n, rel, files[rel].body.checksum);
        EntryAfter(d, f, t, n);
        assert LeadsTo(m2, t, n, rel, files[rel].body.checksum);
      }
    }
  }

  lemma WrittenPathsNonempty(d: Draft, added: seq<ListFile>, files: map<string, Content>)
    requires StoredOnce(d, added, files) && Addable(added)
    ensures forall c :: c in d.byChecksum ==> d.byChecksum[c] != "" && d.byChecksum[c] != MANIFEST && d.byChecksum[c] != MANIFEST + ".tmp"
  {
    FirstsAreAdded(added);
    forall c | c in d.byChecksum ensures d.byChecksum[c] != "" && d.byChecksum[c] != MANIFEST && d.byChecksum[c] != MANIFEST + ".tmp" {
      var g :| g in Firsts(added) && Rel(g) == d.byChecksum[c];
      assert SafeKey(g.tenant, g.name);
    }
  }

  lemma BuildingStep(site: Site, d: Draft, added: seq<ListFile>, files: map<string, Content>, f: ListFile)
    requires Building(d, added, files) && Addable(added + [f])
    ensures Building(Added(d, f.tenant, f.name, f.body), added + [f], FilesAfter(site, d, f, files))
  {
    AddableFront(added, f);
    StoredOnceStep(site, d, added, files, f);
    WrittenPathsNonempty(d, added, files);
    KeysStep(d, added, f);
    StraysStep(site, d, added, files, f);
  }

  // ----- the calls do what the invariant says -----

  ghost predicate InBuild(root: Root, version: string, files: map<string, Content>) {
    BuildDir(version) in root && root[BuildDir(version)] == Dir(files)
  }

  lemma FourCalls(root: Root, a: Call, b: Call, c: Call, d: Call)
    ensures Run(root, [a, b, c, d]) == Do(Do(Do(Do(root, a), b), c), d)
  {
    assert [a, b, c, d][..3] == [a, b, c] && [a, b, c][..2] == [a, b] && [a, b][..1] == [a] && [a][..0] == [];
    assert Run(root, [a]) == Do(root, a);
    assert Run(root, [a, b]) == Do(Do(root, a), b);
    assert Run(root, [a, b, c]) == Do(Do(Do(root, a), b), c);
  }

  /** Creating a file and filling it. */
  lemma WriteOneEffect(root: Root, dir: string, files: map<string, Content>, rel: string, content: Content)
    requires dir in root && root[dir] == Dir(files)
    ensures Do(Do(root, Create(In(dir, rel))), Fill(In(dir, rel), content)) == root[dir := Dir(files[rel := content])]
  {
    assert files[rel := Torn][rel := content] == files[rel := content];
  }

  lemma WriteEffect(site: Site, d: Draft, f: ListFile, root: Root, files: map<string, Content>)
    requires InBuild(root, d.version, files)
    ensures Run(root, WritePlan(site, d, Rel(f), f.header, f.body)) == root[BuildDir(d.version) := Dir(FilesAfter(site, d, f, files))]
  {
    var dir := BuildDir(d.version);
    if f.body.checksum in d.byChecksum {
      assert root[dir := Dir(files)] == root;
    } else {
      var hdr := Stamped(site, d, f.header, f.body);
      var plain, zipped := In(dir, Rel(f)), In(dir, GzipPath(Rel(f)));
      var once := files[Rel(f) := Stored(hdr, f.body)];
      FourCalls(root, Create(plain), Fill(plain, Stored(hdr, f.body)), Create(zipped), Fill(zipped, Gzipped(hdr, f.body)));
      WriteOneEffect(root, dir, files, Rel(f), Stored(hdr, f.body));
      WriteOneEffect(root[dir := Dir(once)], dir, once, GzipPath(Rel(f)), Gzipped(hdr, f.body));
      Overwrite(root, dir, Dir(once), Dir(once[GzipPath(Rel(f)) := Gzipped(hdr, f.body)]));
    }
  }

  lemma Overwrite(root: Root, n: string, x: Node, y: Node)
    ensures root[n := x][n := y] == root[n := y]
  {
  }

  function FilesBuilt(site: Site, d: Draft, files: seq<ListFile>): map<string, Content> {
    if files == [] then map[]
    else
      var n := |files| - 1;
      FilesAfter(site, DraftAfter(d, files[..n]), files[n], FilesBuilt(site, d, files[..n]))
  }

  lemma {:induction false} DraftKeepsVersion(d: Draft, files: seq<ListFile>)
    ensures var e := DraftAfter(d, files); e.version == d.version && e.now == d.now && e.attribution == d.attribution
  {
    if files != [] { DraftKeepsVersion(d, files[..|files| - 1]); }
  }

  lemma {:induction false} AddsEffect(site: Site, d: Draft, files: seq<ListFile>, root: Root)
    requires InBuild(root, d.version, map[])
    ensures Run(root, AddsPlan(site, d, files)) == root[BuildDir(d.version) := Dir(FilesBuilt(site, d, files))]
  {
    if files != [] {
      var n := |files| - 1;
      var mid := root[BuildDir(d.version) := Dir(FilesBuilt(site, d, files[..n]))];
      AddsEffect(site, d, files[..n], root);
      DraftKeepsVersion(d, files[..n]);
      var plan := WritePlan(site, DraftAfter(d, files[..n]), Rel(files[n]), files[n].header, files[n].body);
      RunConcat(root, AddsPlan(site, d, files[..n]), plan);
      WriteEffect(site, DraftAfter(d, files[..n]), files[n], mid, FilesBuilt(site, d, files[..n]));
      assert mid[BuildDir(d.version) := Dir(FilesBuilt(site, d, files))] == root[BuildDir(d.version) := Dir(FilesBuilt(site, d, files))];
    }
  }

  predicate Empty(d: Draft) {
    d.lists == map[] && d.tenants == map[] && d.byChecksum == map[]
  }

  lemma {:induction false} BuiltInvariant(site: Site, d: Draft, files: seq<ListFile>)
    requires Empty(d) && Addable(files)
    ensures Building(DraftAfter(d, files), files, FilesBuilt(site, d, files))
  {
    if files != [] {
      var front, f := files[..|files| - 1], files[|files| - 1];
      assert files == front + [f];
      AddableFront(front, f);
      BuiltInvariant(site, d, front);
      BuildingStep(site, DraftAfter(d, front), front, FilesBuilt(site, d, front), f);
    }
  }

  // ----- the finished set -----

  /** Keys as Add and AddTenant accept them. */
  ghost predicate SafeManifest(m: Manifest) {
    "" !in m.tenants && forall t, n :: FindEntry(m, t, n).Some? ==> SafeKey(t, n)
  }

  lemma {:induction false} NoEmptyTenant(d: Draft, files: seq<ListFile>)
    requires "" !in d.tenants
    ensures "" !in DraftAfter(d, files).tenants
  {
    if files != [] { NoEmptyTenant(d, files[..|files| - 1]); }
  }

  /** The manifest is there, every entry in it leads to a whole file with the entry's ETag, and
      every stored file is what some entry leads to. */
  ghost predicate Complete(files: map<string, Content>) {
    && MANIFEST in files && files[MANIFEST].ManifestDoc?
    && SafeManifest(files[MANIFEST].manifest) && NoStrays(files[MANIFEST].manifest, files)
    && forall t, n :: FindEntry(files[MANIFEST].manifest, t, n).Some? ==>
         var e := FindEntry(files[MANIFEST].manifest, t, n).value;
         Resolves(files, Target(t, n, e), e.etag)
  }

  function WithManifest(d: Draft, files: map<string, Content>): map<string, Content> {
    (files - {MANIFEST + ".tmp"})[MANIFEST := ManifestDoc(ManifestOf(d))]
  }

  lemma GzipNotReserved(rel: string)
    ensures GzipPath(rel) != MANIFEST && GzipPath(rel) != MANIFEST + ".tmp"
  {
    var z := GzipPath(rel);
    assert z[|z| - 1] == 'z' && MANIFEST[|MANIFEST| - 1] == 'n' && (MANIFEST + ".tmp")[|MANIFEST + ".tmp"| - 1] == 'p';
  }

  lemma ResolvesWithManifest(d: Draft, files: map<string, Content>, rel: string, etag: Digest)
    requires Resolves(files, rel, etag) && rel != MANIFEST && rel != MANIFEST + ".tmp"
    ensures Resolves(WithManifest(d, files), rel, etag)
  {
    GzipNotReserved(rel);
  }

  lemma BuiltSetIsComplete(d: Draft, added: seq<ListFile>, files: map<string, Content>)
    requires Building(d, added, files) && Addable(added) && "" !in d.tenants
    ensures Complete(WithManifest(d, files))
  {
    var all := WithManifest(d, files);
    WrittenPathsNonempty(d, added, files);
    assert forall rel :: rel in all && all[rel].Stored? ==> rel in files && files[rel] == all[rel];
    forall t, n | FindEntry(all[MANIFEST].manifest, t, n).Some?
      ensures var e := FindEntry(all[MANIFEST].manifest, t, n).value; Resolves(all, Target(t, n, e), e.etag)
    {
      var e := FindEntry(ManifestOf(d), t, n).value;
      ResolvesWithManifest(d, files, d.byChecksum[e.etag], e.etag);
    }
  }

  /** The file remembered for checksum c was added under a key whose own entry is no SameAs. */
  predicate Original(d: Draft, f: ListFile, c: Digest) {
    var e := FindEntry(ManifestOf(d), f.tenant, f.name);
    c in d.byChecksum && Rel(f) == d.byChecksum[c] && e.Some? && e.value.sameAs == ""
  }

  lemma RememberedIsWritten(d: Draft, added: seq<ListFile>, files: map<string, Content>, c: Digest) returns (f: ListFile)
    requires StoredOnce(d, added, files) && c in d.byChecksum
    ensures f in Firsts(added) && Rel(f) == d.byChecksum[c]
  {
    f :| f in Firsts(added) && Rel(f) == d.byChecksum[c];
  }

  /** The file a checksum is remembered under has an entry of its own. */
  lemma OriginalsAreWritten(site: Site, d: Draft, files: seq<ListFile>, c: Digest) returns (f: ListFile)
    requires Empty(d) && Addable(files) && c in DraftAfter(d, files).byChecksum
    ensures f in files && Original(DraftAfter(d, files), f, c)
  {
    BuiltInvariant(site, d, files);
    FirstsAreAdded(files);
    f := RememberedIsWritten(DraftAfter(d, files), files, FilesBuilt(site, d, files), c);
    FirstsHaveOwnEntries(d, files, f);
  }

  ghost predicate RealPaths(d: Draft) {
    forall c :: c in d.byChecksum ==> d.byChecksum[c] != ""
  }

  lemma {:induction false} BuiltPaths(d: Draft, files: seq<ListFile>)
    requires Empty(d) && forall f :: f in files ==> SafeKey(f.tenant, f.name)
    ensures RealPaths(DraftAfter(d, files))
  {
    if files != [] {
      var front, f := files[..|files| - 1], files[|files| - 1];
      assert f in files && forall g :: g in front ==> g in files;
      BuiltPaths(d, front);
      AddedRemembers(DraftAfter(d, front), f);
    }
  }

  lemma {:induction false} BuiltKeys(d: Draft, files: seq<ListFile>)
    requires Empty(d) && DistinctSafe(files)
    ensures Keys(DraftAfter(d, files), files)
  {
    if files != [] {
      var front, f := files[..|files| - 1], files[|files| - 1];
      assert files == front + [f];
      DistinctFront(front, f);
      BuiltKeys(d, front);
      BuiltPaths(d, front);
      KeysStep(DraftAfter(d, front), front, f);
    }
  }

  /** A file that is written has an entry that points at nothing else. */
  lemma {:induction false} FirstsHaveOwnEntries(d: Draft, files: seq<ListFile>, f: ListFile)
    requires Empty(d) && DistinctSafe(files) && f in Firsts(files)
    ensures FindEntry(ManifestOf(DraftAfter(d, files)), f.tenant, f.name) == Some(ListEntry(f.body.checksum, f.body.entries, ""))
  {
    var front, last := files[..|files| - 1], files[|files| - 1];
    var d1 := DraftAfter(d, front);
    assert files == front + [last];
    DistinctFront(front, last);
    BuiltKeys(d, front);
    RemembersStep(d1, front, last);
    EntryAfter(d1, last, f.tenant, f.name);
    if f in Firsts(front) {
      FirstsAreAdded(front);
      FirstsHaveOwnEntries(d, front, f);
    }
  }

  /** A SameAs never points at another SameAs: its target was written by some call itself. */
  lemma ChainDepthOne(site: Site, d: Draft, files: seq<ListFile>, t: string, n: string)
    requires Empty(d) && Addable(files)
    requires FindEntry(ManifestOf(DraftAfter(d, files)), t, n).Some?
    ensures var m := ManifestOf(DraftAfter(d, files));
            var e := FindEntry(m, t, n).value;
            e.sameAs != "" ==>
              exists f :: f in files && Rel(f) == e.sameAs && f.body.checksum == e.etag
                          && FindEntry(m, f.tenant, f.name) == Some(ListEntry(e.etag, f.body.entries, ""))
  {
    var d2 := DraftAfter(d, files);
    var e := FindEntry(ManifestOf(d2), t, n).value;
    BuiltInvariant(site, d, files);
    if e.sameAs != "" {
      var f := OriginalsAreWritten(site, d, files, e.etag);
      assert Recorded(d2, f);
      var own := FindEntry(ManifestOf(d2), f.tenant, f.name).value;
      assert Target(f.tenant, f.name, own) == Rel(f) == d2.byChecksum[own.etag];
      SameFileSameChecksum(d2, files, FilesBuilt(site, d, files), own.etag, e.etag);
    }
  }

  lemma SameFileSameChecksum(d: Draft, added: seq<ListFile>, files: map<string, Content>, a: Digest, b: Digest)
    requires StoredOnce(d, added, files) && a in d.byChecksum && b in d.byChecksum && d.byChecksum[a] == d.byChecksum[b]
    ensures a == b
  {
  }

  // ----- when a finished set is complete -----

  lemma OwnEntryResolves(d: Draft, files: seq<ListFile>, all: map<string, Content>, f: ListFile)
    requires Empty(d) && DistinctSafe(files) && f in Firsts(files)
    requires Complete(all) && all[MANIFEST].manifest == ManifestOf(DraftAfter(d, files))
    ensures Resolves(all, Rel(f), f.body.checksum)
  {
    FirstsHaveOwnEntries(d, files, f);
  }

  lemma CompleteMeansApart(d: Draft, files: seq<ListFile>, all: map<string, Content>)
    requires Empty(d) && DistinctSafe(files)
    requires MANIFEST in all && all[MANIFEST] == ManifestDoc(ManifestOf(DraftAfter(d, files))) && MANIFEST + ".tmp" !in all
    requires Complete(all)
    ensures Apart(Firsts(files))
  {
    forall f, g | f in Firsts(files) && g in Firsts(files)
      ensures Rel(f) != MANIFEST && Rel(f) != MANIFEST + ".tmp" && Rel(f) != GzipPath(Rel(g))
    {
      OwnEntryResolves(d, files, all, f);
      OwnEntryResolves(d, files, all, g);
    }
  }
}
