/** When a build finds nothing new: the comparison with the published manifest is exact, and
    what was just published is recognised, in whatever order its files were written. */
module Rebuild {
  import opened Rules
  import opened Sets
  import opened Rendering
  import opened Disks
  import opened SnapshotSets
  import opened SnapshotStores
  import opened Dedup
  import opened SnapshotSafety
  import opened SnapshotRuns
  import opened PartialRemovals
  import opened Builders

  // ----- a table built from a list -----

  ghost predicate Distinct<T>(xs: seq<T>, key: T -> string) {
    forall i, j :: 0 <= i < j < |xs| ==> key(xs[i]) != key(xs[j])
  }

  function TableOf<T, V>(xs: seq<T>, key: T -> string, value: T -> V): map<string, V> {
    if xs == [] then map[]
    else
      var x := xs[|xs| - 1];
      TableOf(xs[..|xs| - 1], key, value)[key(x) := value(x)]
  }

  lemma DistinctInit<T>(front: seq<T>, last: T, key: T -> string)
    requires Distinct(front + [last], key)
    ensures Distinct(front, key)
    ensures forall x :: x in front ==> key(x) != key(last)
  {
    var all := front + [last];
    forall i, j | 0 <= i < j < |front| ensures key(front[i]) != key(front[j]) { assert all[i] == front[i] && all[j] == front[j]; }
    forall x | x in front ensures key(x) != key(last) {
      var i :| 0 <= i < |front| && front[i] == x;
      assert all[i] == x && all[|front|] == last;
    }
  }

  lemma {:induction false} TableOfFacts<T, V>(xs: seq<T>, key: T -> string, value: T -> V)
    requires Distinct(xs, key)
    ensures |TableOf(xs, key, value)| == |xs|
    ensures forall x :: x in xs ==> Lookup(TableOf(xs, key, value), key(x)) == Some(value(x))
    ensures forall k :: k in TableOf(xs, key, value) ==> exists x :: x in xs && key(x) == k
  {
    if xs != [] {
      var front, last := xs[..|xs| - 1], xs[|xs| - 1];
      assert xs == front + [last];
      DistinctInit(front, last, key);
      TableOfFacts(front, key, value);
      var small, big := TableOf(front, key, value), TableOf(xs, key, value);
      assert key(last) !in small;
      assert big.Keys == small.Keys + {key(last)};
      assert |big| == |big.Keys| && |small| == |small.Keys|;
      forall k | k in big ensures exists x :: x in xs && key(x) == k {
        if k == key(last) { assert last in xs; } else { assert k in small; }
      }
    }
  }

  function Checksum(f: OutFile): Digest {
    f.body.checksum
  }

  ghost predicate DistinctKeys(files: seq<OutFile>) {
    Distinct(files, Key)
  }

  /** The checksum of each file under its key. */
  function KeyMap(files: seq<OutFile>): map<string, Digest> {
    TableOf(files, Key, Checksum)
  }

  lemma KeyMapFacts(files: seq<OutFile>)
    requires DistinctKeys(files)
    ensures |KeyMap(files)| == |files|
    ensures forall f :: f in files ==> Lookup(KeyMap(files), Key(f)) == Some(f.body.checksum)
    ensures forall k :: k in KeyMap(files) ==> exists f :: f in files && Key(f) == k
  {
    TableOfFacts(files, Key, Checksum);
  }

  lemma SameSizeSubset(a: set<string>, b: set<string>)
    requires a <= b && |a| == |b|
    ensures a == b
  {
    if a != b {
      var x :| x in b && x !in a;
      assert a <= b - {x};
      SubsetCard(a, b - {x});
    }
  }

  /** Comparing sizes and then every file's checksum decides exactly whether the published
      table of ETags is the table of the new files. */
  lemma UnchangedIff(m: Manifest, files: seq<OutFile>)
    requires SafeManifest(m) && DistinctKeys(files)
    ensures SameAsPublished(m, files) <==> PublishedETags(m) == KeyMap(files)
  {
    var table, mine := PublishedETags(m), KeyMap(files);
    KeyMapFacts(files);
    if SameAsPublished(m, files) {
      forall k | k in mine ensures k in table && table[k] == mine[k] {
        var f :| f in files && Key(f) == k;
        assert Lookup(table, Key(f)) == Some(f.body.checksum);
        assert Lookup(mine, Key(f)) == Some(f.body.checksum);
      }
      assert |mine.Keys| == |mine| && |table.Keys| == |table|;
      SameSizeSubset(mine.Keys, table.Keys);
      assert table == mine;
    }
  }

  // ----- what a finished set publishes -----

  ghost predicate SafeFiles(files: seq<OutFile>) {
    forall f :: f in files ==> SafeKey(f.tenant, f.name)
  }

  lemma {:induction false} OnlyAddedKeys(d: Draft, files: seq<ListFile>)
    requires Empty(d)
    ensures NothingElse(DraftAfter(d, files), files)
  {
    if files != [] {
      var front, last := files[..|files| - 1], files[|files| - 1];
      var d1, d2 := DraftAfter(d, front), DraftAfter(d, files);
      assert files == front + [last];
      OnlyAddedKeys(d, front);
      forall t, n | FindEntry(ManifestOf(d2), t, n).Some? ensures exists f :: f in files && f.tenant == t && f.name == n {
        EntryAfter(d1, last, t, n);
        if t == last.tenant && n == last.name {
          assert last in files;
        } else {
          var f :| f in front && f.tenant == t && f.name == n;
          assert f in files;
        }
      }
    }
  }

  lemma OutFileAt(files: seq<OutFile>, labels: seq<string>, g: ListFile) returns (f: OutFile)
    requires g in AsListFiles(files, labels)
    ensures f in files && AsListFile(f, labels) == g
  {
    var i :| 0 <= i < |files| && AsListFiles(files, labels)[i] == g;
    f := files[i];
  }

  lemma BuiltManifestIsSafe(d: Draft, files: seq<OutFile>, labels: seq<string>)
    requires Empty(d) && SafeFiles(files)
    ensures SafeManifest(ManifestOf(DraftAfter(d, AsListFiles(files, labels))))
  {
    var all := AsListFiles(files, labels);
    var m := ManifestOf(DraftAfter(d, all));
    OnlyAddedKeys(d, all);
    NoEmptyTenant(d, all);
    forall t, n | FindEntry(m, t, n).Some? ensures SafeKey(t, n) {
      var g :| g in all && g.tenant == t && g.name == n;
      var f := OutFileAt(files, labels, g);
    }
  }

  lemma DistinctKeysDistinctSafe(files: seq<OutFile>, labels: seq<string>)
    requires SafeFiles(files)
    ensures DistinctSafe(AsListFiles(files, labels)) <==> DistinctKeys(files)
  {
    var all := AsListFiles(files, labels);
    forall g | g in all ensures SafeKey(g.tenant, g.name) { var f := OutFileAt(files, labels, g); }
    forall i, j | 0 <= i < j < |files|
      ensures Key(files[i]) == Key(files[j]) <==> files[i].tenant == files[j].tenant && files[i].name == files[j].name
    {
      assert files[i] in files && files[j] in files;
      if Key(files[i]) == Key(files[j]) { RelPathInjective(files[i].tenant, files[i].name, files[j].tenant, files[j].name); }
    }
    if DistinctSafe(all) {
      forall i, j | 0 <= i < j < |files| ensures Key(files[i]) != Key(files[j]) {
        assert all[i].tenant != all[j].tenant || all[i].name != all[j].name;
      }
    }
  }

  lemma TableHas(m: Manifest, k: (string, string))
    requires SafeManifest(m) && FindEntry(m, k.0, k.1).Some?
    ensures Lookup(PublishedETags(m), PathOf(k)) == Some(FindEntry(m, k.0, k.1).value.etag)
  {
    KeysHaveEntries(m, k);
    PathsDiffer(m);
    TabulateAt(AllKeys(m), k, PathOf, ETagIn(m));
  }

  lemma TableOnlyHas(m: Manifest, p: string) returns (k: (string, string))
    requires SafeManifest(m) && p in PublishedETags(m)
    ensures FindEntry(m, k.0, k.1).Some? && PathOf(k) == p
  {
    k :| k in AllKeys(m) && PathOf(k) == p;
    KeysHaveEntries(m, k);
  }

  /** The manifest of a finished set shows, under every key, the checksum of the file that was
      added there, and nothing else. */
  lemma ManifestShowsTheFiles(d: Draft, files: seq<OutFile>, labels: seq<string>)
    requires Empty(d) && SafeFiles(files) && DistinctKeys(files)
    ensures var m := ManifestOf(DraftAfter(d, AsListFiles(files, labels)));
            SafeManifest(m) && PublishedETags(m) == KeyMap(files)
  {
    var all := AsListFiles(files, labels);
    var d2 := DraftAfter(d, all);
    var m := ManifestOf(d2);
    BuiltManifestIsSafe(d, files, labels);
    DistinctKeysDistinctSafe(files, labels);
    BuiltKeys(d, all);
    forall p | p in PublishedETags(m) || p in KeyMap(files) ensures Lookup(PublishedETags(m), p) == Lookup(KeyMap(files), p) {
      var f := FileAt(m, d2, files, labels, p);
      ShownAs(m, d2, files, labels, f);
    }
    SameLookups(PublishedETags(m), KeyMap(files));
  }

  /** A path in the published table is the key of some file. */
  lemma FileInTable(m: Manifest, d: Draft, files: seq<OutFile>, labels: seq<string>, p: string) returns (f: OutFile)
    requires m == ManifestOf(d) && SafeManifest(m) && NothingElse(d, AsListFiles(files, labels)) && p in PublishedETags(m)
    ensures f in files && Key(f) == p
  {
    var k := TableOnlyHas(m, p);
    var g :| g in AsListFiles(files, labels) && g.tenant == k.0 && g.name == k.1;
    f := OutFileAt(files, labels, g);
  }

  lemma FileInKeyMap(files: seq<OutFile>, p: string) returns (f: OutFile)
    requires DistinctKeys(files) && p in KeyMap(files)
    ensures f in files && Key(f) == p
  {
    KeyMapFacts(files);
    f :| f in files && Key(f) == p;
  }

  lemma FileAt(m: Manifest, d: Draft, files: seq<OutFile>, labels: seq<string>, p: string) returns (f: OutFile)
    requires m == ManifestOf(d) && SafeManifest(m) && NothingElse(d, AsListFiles(files, labels)) && DistinctKeys(files)
    requires p in PublishedETags(m) || p in KeyMap(files)
    ensures f in files && Key(f) == p
  {
    if p in KeyMap(files) {
      f := FileInKeyMap(files, p);
    } else {
      f := FileInTable(m, d, files, labels, p);
    }
  }

  lemma ShownAs(m: Manifest, d: Draft, files: seq<OutFile>, labels: seq<string>, f: OutFile)
    requires m == ManifestOf(d) && SafeManifest(m) && AllRecorded(d, AsListFiles(files, labels)) && DistinctKeys(files) && f in files
    ensures Lookup(PublishedETags(m), Key(f)) == Lookup(KeyMap(files), Key(f)) == Some(f.body.checksum)
  {
    var all := AsListFiles(files, labels);
    var i :| 0 <= i < |files| && files[i] == f;
    assert all[i] in all && Recorded(d, all[i]);
    TableHas(m, (f.tenant, f.name));
    KeyMapFacts(files);
  }

  // ----- building again -----

  lemma PermutedFilesCompareAlike(m: Manifest, a: seq<OutFile>, b: seq<OutFile>)
    requires SafeManifest(m) && multiset(a) == multiset(b)
    ensures SameAsPublished(m, a) <==> SameAsPublished(m, b)
  {
    assert |a| == |multiset(a)| == |multiset(b)| == |b|;
    assert forall f :: f in a <==> f in multiset(a);
    assert forall f :: f in b <==> f in multiset(b);
  }

  /** In every safe directory, so after every history, the published manifest can be compared. */
  lemma SafeMeansComparable(root: Root)
    requires Safe(root)
    ensures ReadableManifest(root)
  {
    if CurrentOf(root).Some? { assert Complete(root[CurrentOf(root).value].files); }
  }

  /** The comparison looks only at what readers see. */
  lemma UnchangedDependsOnPublished(a: Root, b: Root, files: seq<OutFile>)
    requires Published(a) == Published(b) && Published(a).Some? && ReadableManifest(a)
    ensures ReadableManifest(b) && (IsUnchanged(a, files) <==> IsUnchanged(b, files))
  {
    var v := CurrentOf(a).value;
    assert CurrentOf(b) == Some(v) && a[v] == b[v];
    assert ManifestAt(a, v) == ManifestAt(b, v);
  }

  // how many keys there are

  ghost function KeySet(files: seq<OutFile>): set<string> {
    set f | f in files :: Key(f)
  }

  /** There are as many keys as files exactly when no key repeats. */
  lemma {:induction false} KeySetSize(files: seq<OutFile>)
    ensures |KeySet(files)| <= |files|
    ensures |KeySet(files)| == |files| <==> DistinctKeys(files)
  {
    if files != [] {
      var front, last := files[..|files| - 1], files[|files| - 1];
      assert files == front + [last];
      KeySetSize(front);
      assert KeySet(files) == KeySet(front) + {Key(last)};
      if DistinctKeys(files) {
        DistinctInit(front, last, Key);
      } else if DistinctKeys(front) {
        assert Key(last) in KeySet(front);
        assert KeySet(files) == KeySet(front);
      }
    }
  }

  lemma PermutedKeys(a: seq<OutFile>, b: seq<OutFile>)
    requires multiset(a) == multiset(b)
    ensures SafeFiles(a) <==> SafeFiles(b)
    ensures DistinctKeys(a) <==> DistinctKeys(b)
  {
    assert |a| == |multiset(a)| == |multiset(b)| == |b|;
    assert forall f :: f in a <==> f in multiset(a);
    assert forall f :: f in b <==> f in multiset(b);
    KeySetSize(a);
    KeySetSize(b);
    assert KeySet(a) == KeySet(b);
  }

  lemma TableIsSmall(d: Draft, files: seq<OutFile>, labels: seq<string>)
    requires Empty(d) && SafeFiles(files)
    ensures var m := ManifestOf(DraftAfter(d, AsListFiles(files, labels)));
            SafeManifest(m) && |PublishedETags(m)| <= |KeySet(files)|
  {
    var d2 := DraftAfter(d, AsListFiles(files, labels));
    var m := ManifestOf(d2);
    BuiltManifestIsSafe(d, files, labels);
    OnlyAddedKeys(d, AsListFiles(files, labels));
    forall p | p in PublishedETags(m) ensures p in KeySet(files) { var f := FileInTable(m, d2, files, labels, p); }
    assert |PublishedETags(m)| == |PublishedETags(m).Keys|;
    SubsetCard(PublishedETags(m).Keys, KeySet(files));
  }

  /** A set compares as unchanged with its own manifest exactly when no key repeats. */
  lemma OwnManifestIff(d: Draft, files: seq<OutFile>, labels: seq<string>)
    requires Empty(d) && SafeFiles(files)
    ensures var m := ManifestOf(DraftAfter(d, AsListFiles(files, labels)));
            SafeManifest(m) && (SameAsPublished(m, files) <==> DistinctKeys(files))
  {
    var m := ManifestOf(DraftAfter(d, AsListFiles(files, labels)));
    TableIsSmall(d, files, labels);
    KeySetSize(files);
    if DistinctKeys(files) {
      ManifestShowsTheFiles(d, files, labels);
      UnchangedIff(m, files);
    }
  }

  lemma PublishedManifest(site: Site, d: Draft, files: seq<ListFile>, root: Root)
    requires Ordinary(d.version) && DraftAfter(d, files).lists != map[]
    ensures var after := Run(root, PublishPlan(site, d, files));
            CurrentOf(after) == Some(d.version) && ManifestAt(after, d.version) == Some(ManifestOf(DraftAfter(d, files)))
  {
    PublishEnds(site, d, files, root);
  }

  /** Publishing a file list and then building again from it is skipped if and only if no two
      files of the list have one key, whatever was on the disk before and whatever order the
      files were written in. */
  lemma RebuildSkippedIff(site: Site, d: Draft, files: seq<OutFile>, ordered: seq<OutFile>, labels: seq<string>, root: Root)
    requires Empty(d) && Ordinary(d.version) && SafeFiles(files) && multiset(files) == multiset(ordered)
    requires DraftAfter(d, AsListFiles(ordered, labels)).lists != map[]
    ensures var after := Run(root, PublishPlan(site, d, AsListFiles(ordered, labels)));
            ReadableManifest(after) && (IsUnchanged(after, files) <==> DistinctKeys(files))
  {
    PermutedKeys(files, ordered);
    PublishedManifest(site, d, AsListFiles(ordered, labels), root);
    OwnManifestIff(d, ordered, labels);
    PermutedFilesCompareAlike(ManifestOf(DraftAfter(d, AsListFiles(ordered, labels))), files, ordered);
  }

  lemma PruneUnseen(root: Root, keep: nat, n: nat)
    requires Safe(root)
    ensures Published(Run(root, Cut(Removals(PruneTargets(root, keep)), n))) == Published(root)
  {
    var targets := PruneTargets(root, keep);
    PruneTargetsAreOld(root, keep);
    forall v | v in targets ensures v != CURRENT { assert IsVersionDir(root, v); }
    RemovalsAlong(root, targets);
    var plan := Removals(targets);
    assert plan[..|plan|] == plan;
    var k := if n <= |plan| then n else |plan|;
    assert Cut(plan, n) == plan[..k];
  }

  // ----- the default tenant -----

  lemma {:induction false} ListsComeFromTheDefaultTenant(d: Draft, files: seq<ListFile>)
    requires d.lists == map[]
    ensures DraftAfter(d, files).lists != map[] <==> exists f :: f in files && f.tenant == ""
  {
    if files != [] {
      var front, last := files[..|files| - 1], files[|files| - 1];
      assert files == front + [last];
      ListsComeFromTheDefaultTenant(d, front);
      if last.tenant == "" {
        assert last in files;
        assert last.name in DraftAfter(d, files).lists;
      } else if exists f :: f in front && f.tenant == "" {
        var f :| f in front && f.tenant == "";
        assert f in files;
      }
    }
  }

  /** Commit refuses a set without a default list, so nothing is ever published, and so no
      build ever skipped, unless some file belongs to the default tenant. */
  lemma NothingPublishedWithoutDefault(site: Site, d: Draft, files: seq<ListFile>, root: Root, n: nat)
    requires Safe(root) && Empty(d) && Addable(files) && Ordinary(d.version) && CurrentOf(root) != Some(d.version)
    requires forall f :: f in files ==> f.tenant != ""
    ensures Published(Run(root, Cut(PublishPlan(site, d, files), n))) == Published(root)
  {
    ListsComeFromTheDefaultTenant(d, files);
    PublishAlong(site, d, files, root);
    var plan := PublishPlan(site, d, files);
    assert plan[..|plan|] == plan;
    var k := if n <= |plan| then n else |plan|;
    assert Cut(plan, n) == plan[..k];
  }
}
